/**
  The bond store: every bond of the simulation, kept as three index-aligned
  dense lists (particle pair, bond type, bond tag), a reverse-lookup table from
  a bond tag to its dense index, a stack of deleted tags for reuse, a fixed
  number of bond types with their names, and the lazily rebuilt per-particle
  bond table for the GPU, guarded by a dirty flag.
*/
module BondStore {
  import opened Outcomes
  import opened TagIndex
  import opened BondTable

  /** A bond: its type index and the tags of its two particles. */
  datatype Bond = Bond(bondType: nat, a: nat, b: nat)

  /** Bulk import/export form: one type id and one particle pair per bond, and the type names. */
  datatype Snapshot = Snapshot(typeId: seq<nat>, bonds: seq<Pair>, typeMapping: seq<string>)

  datatype BondError =
    | InvalidType          // a type index not below the number of bond types
    | ParticleOutOfRange   // a particle tag not below the number of particles
    | NotFound             // a bond tag that is not live, or an unknown type name or index
    | IndexOutOfRange      // a dense index not below the number of bonds
    | SizeMismatch         // lists that should have equal lengths do not

  /** A snapshot sized for n bonds: type ids and pairs of length n, default-valued. */
  function NewSnapshot(n: nat): (s: Snapshot)
    ensures |s.typeId| == n && |s.bonds| == n && s.typeMapping == []
    ensures forall i :: 0 <= i < n ==> s.typeId[i] == 0 && s.bonds[i] == Pair(0, 0)
  {
    Snapshot(seq(n, _ => 0), seq(n, _ => Pair(0, 0)), [])
  }

  /** The bond pairs with particle tags replaced by current particle indices. */
  function Indices(pairs: seq<Pair>, order: seq<nat>): (r: seq<Pair>)
    requires forall i :: 0 <= i < |pairs| ==> pairs[i].x < |order| && pairs[i].y < |order|
  {
    seq(|pairs|, i requires 0 <= i < |pairs| => Pair(order[pairs[i].x], order[pairs[i].y]))
  }

  /** The first index of `name` in `names`, if any. */
  function FindName(names: seq<string>, name: string): (r: Option<nat>)
    ensures r.Some? ==> r.value < |names| && names[r.value] == name
    ensures r.Some? ==> forall j :: 0 <= j < r.value ==> names[j] != name
    ensures r.None? <==> name !in names
  {
    if names == [] then None
    else if names[0] == name then Some(0)
    else
      match FindName(names[1..], name)
      case None => None
      case Some(k) => Some(k + 1)
  }

  /** A snapshot that can be imported into a store with these type and particle counts. */
  predicate SnapshotFits(s: Snapshot, nBondTypes: nat, nParticles: nat) {
    && |s.typeId| == |s.bonds|
    && |s.typeMapping| == nBondTypes
    && (forall i :: 0 <= i < |s.typeId| ==> s.typeId[i] < nBondTypes)
    && InRange(s.bonds, nParticles)
  }

  /**
    Validates a snapshot for import: lists of unequal length are a size
    mismatch; otherwise the first bond, in order, with an out-of-range particle
    or type decides the error, particles checked first as in AddBond.
  */
  method CheckSnapshot(s: Snapshot, nBondTypes: nat, nParticles: nat) returns (r: Outcome<BondError>)
    ensures r.Pass? <==> SnapshotFits(s, nBondTypes, nParticles)
    ensures r == Fail(SizeMismatch) <==> (|s.typeId| != |s.bonds| || |s.typeMapping| != nBondTypes)
    ensures r.Fail? && r.error != SizeMismatch ==>
      exists k :: 0 <= k < |s.bonds| && FirstBadBond(s, nBondTypes, nParticles, k) &&
        r.error == (if s.bonds[k].x >= nParticles || s.bonds[k].y >= nParticles then ParticleOutOfRange else InvalidType)
  {
    if |s.typeId| != |s.bonds| || |s.typeMapping| != nBondTypes {
      return Fail(SizeMismatch);
    }
    var i := 0;
    while i < |s.bonds|
      invariant 0 <= i <= |s.bonds|
      invariant forall k :: 0 <= k < i ==> s.typeId[k] < nBondTypes
      invariant forall k :: 0 <= k < i ==> s.bonds[k].x < nParticles && s.bonds[k].y < nParticles
    {
      if s.bonds[i].x >= nParticles || s.bonds[i].y >= nParticles {
        return Fail(ParticleOutOfRange);
      }
      if s.typeId[i] >= nBondTypes {
        return Fail(InvalidType);
      }
      i := i + 1;
    }
    r := Pass;
  }

  /** Bond k of the snapshot is out of range and every bond before it is in range. */
  predicate FirstBadBond(s: Snapshot, nBondTypes: nat, nParticles: nat, k: nat)
    requires |s.typeId| == |s.bonds| && k < |s.bonds|
  {
    && (s.typeId[k] >= nBondTypes || s.bonds[k].x >= nParticles || s.bonds[k].y >= nParticles)
    && forall j :: 0 <= j < k ==> s.typeId[j] < nBondTypes && s.bonds[j].x < nParticles && s.bonds[j].y < nParticles
  }

  /** The value-level lookup of a bond by tag through the reverse-lookup table. */
  function LookupBond(bonds: seq<Pair>, types: seq<nat>, rtag: seq<nat>, tag: nat): Result<Bond, BondError>
    requires |bonds| == |types|
    requires forall t :: 0 <= t < |rtag| && rtag[t] != NO_BOND ==> rtag[t] < |bonds|
  {
    if tag < |rtag| && rtag[tag] != NO_BOND then
      Ok(Bond(types[rtag[tag]], bonds[rtag[tag]].x, bonds[rtag[tag]].y))
    else
      Err(NotFound)
  }

  /**
    Compaction on removal of live tag `tag` does not disturb any other tag:
    it stays live or not-live, and a live one still finds the same bond.
  */
  lemma RemoveKeepsLookup(bonds: seq<Pair>, types: seq<nat>, tags: seq<nat>, rtag: seq<nat>,
                          deleted: seq<nat>, tag: nat, t: nat)
    requires |bonds| == |types| == |tags|
    requires TagIndexValid(tags, rtag, deleted)
    requires tag < |rtag| && rtag[tag] != NO_BOND && t != tag
    ensures var i := rtag[tag];
      var rtag' := rtag[tags[|tags| - 1] := i][tag := NO_BOND];
      LookupBond(SwapRemove(bonds, i), SwapRemove(types, i), rtag', t) == LookupBond(bonds, types, rtag, t)
  {
    var i := rtag[tag];
    var last := |tags| - 1;
    var moved := tags[last];
    assert tags[i] == tag;
    if t < |rtag| && rtag[t] != NO_BOND {
      var j := rtag[t];
      assert tags[j] == t && j != i;
      if t == moved {
        assert j == last;
      } else {
        assert j != last;
      }
    }
  }

  /**
    Appending a bond under a freshly issued or recycled tag `tag` (not live
    before) does not disturb any other tag's lookup.
  */
  lemma AddKeepsLookup(bonds: seq<Pair>, types: seq<nat>, rtag: seq<nat>, rtag': seq<nat>,
                       p: Pair, ty: nat, tag: nat, t: nat)
    requires |bonds| == |types|
    requires forall u :: 0 <= u < |rtag| && rtag[u] != NO_BOND ==> rtag[u] < |bonds|
    requires |rtag| <= |rtag'| && tag < |rtag'| && rtag'[tag] == |bonds|
    requires forall u :: 0 <= u < |rtag'| && u != tag ==> rtag'[u] == if u < |rtag| then rtag[u] else NO_BOND
    requires t != tag
    ensures forall u :: 0 <= u < |rtag'| && rtag'[u] != NO_BOND ==> rtag'[u] < |bonds| + 1
    ensures LookupBond(bonds + [p], types + [ty], rtag', t) == LookupBond(bonds, types, rtag, t)
  {
  }

  class BondData {
    const nBondTypes: nat              // number of bond types, fixed at construction
    const nParticles: nat              // number of particles of the owning particle data
    var bonds: seq<Pair>               // dense list of bonds (x: tag a, y: tag b)
    var bondType: seq<nat>             // dense list of bond types
    var tags: seq<nat>                 // dense list of bond tags
    var deletedTags: seq<nat>          // stack of deleted tags, top at the end
    var bondRTag: seq<nat>             // bond tag -> dense index, or NO_BOND
    var typeMapping: seq<string>       // bond type index -> name
    var bondsDirty: bool               // true when the GPU bond table is stale
    var particleIndex: seq<nat>        // particle tag -> current particle index
    var gpuBondList: seq<seq<Cell>>    // per-particle bond table, one column per particle
    var nBondsArray: seq<nat>          // number of real entries in each column

    ghost predicate Valid()
      reads this
    {
      && |bonds| == |bondType| == |tags|
      && TagIndexValid(tags, bondRTag, deletedTags)
      && (forall i :: 0 <= i < |bondType| ==> bondType[i] < nBondTypes)
      && InRange(bonds, nParticles)
      && |typeMapping| == nBondTypes
      && |particleIndex| == nParticles
      && (forall p :: 0 <= p < nParticles ==> particleIndex[p] < nParticles)
      && (!bondsDirty ==>
            IsBondTable(gpuBondList, nBondsArray, Indices(bonds, particleIndex), bondType, nParticles))
    }

    /** An empty store for nParticles particles and nBondTypes bond types. */
    constructor (nParticles: nat, nBondTypes: nat)
      ensures Valid()
      ensures this.nParticles == nParticles && this.nBondTypes == nBondTypes
      ensures bonds == [] && bondType == [] && tags == [] && bondRTag == [] && deletedTags == []
      ensures bondsDirty
      ensures particleIndex == seq(nParticles, p => p)
    {
      this.nParticles := nParticles;
      this.nBondTypes := nBondTypes;
      bonds, bondType, tags := [], [], [];
      deletedTags, bondRTag := [], [];
      typeMapping := seq(nBondTypes, _ => "");
      bondsDirty := true;
      particleIndex := seq(nParticles, p => p);
      gpuBondList, nBondsArray := [], [];
    }

    /** The number of bonds, which is also the number of live tags. */
    function GetNumBonds(): (n: nat)
      reads this
      requires Valid()
      ensures n == |bonds|
      ensures n == |LiveTags(bondRTag)|
    {
      LiveTagCount(tags, bondRTag, deletedTags);
      |bonds|
    }

    /** The bond stored at dense slot i, as stored; its type and particles are in range. */
    function GetBond(i: nat): (b: Bond)
      reads this
      requires Valid()
      requires i < |bonds| && i < |bondType|
      ensures b == Bond(bondType[i], bonds[i].x, bonds[i].y)
      ensures b.bondType < nBondTypes && b.a < nParticles && b.b < nParticles
    {
      Bond(bondType[i], bonds[i].x, bonds[i].y)
    }

    /** The number of bond types; every stored bond has a type below it. */
    function GetNBondTypes(): (n: nat)
      reads this
      requires Valid()
      ensures forall i :: 0 <= i < |bondType| ==> bondType[i] < n
      ensures |typeMapping| == n
    {
      nBondTypes
    }

    /**
      The bond with tag `tag`, found through the reverse-lookup table: found
      exactly when some dense slot carries that tag, and then it is that slot's bond.
    */
    function GetBondByTag(tag: nat): (r: Result<Bond, BondError>)
      reads this
      requires Valid()
      ensures r.Ok? <==> tag in tags
      ensures forall i :: 0 <= i < |tags| && tags[i] == tag ==> r == Ok(GetBond(i))
      ensures r.Err? ==> r.error == NotFound
    {
      assert tag !in tags <== !(tag < |bondRTag| && bondRTag[tag] != NO_BOND) by {
        if !(tag < |bondRTag| && bondRTag[tag] != NO_BOND) {
          forall i | 0 <= i < |tags| ensures tags[i] != tag {
            assert bondRTag[tags[i]] == i;
          }
        }
      }
      LookupBond(bonds, bondType, bondRTag, tag)
    }

    /** The tag of the bond at dense slot id; that tag resolves back to the same bond. */
    function GetBondTag(id: nat): (r: Result<nat, BondError>)
      reads this
      requires Valid()
      ensures r.Ok? <==> id < GetNumBonds()
      ensures r.Ok? ==> GetBondByTag(r.value) == Ok(GetBond(id))
      ensures r.Ok? ==> r.value in LiveTags(bondRTag)
      ensures r.Err? ==> r.error == IndexOutOfRange
    {
      if id < |tags| then Ok(tags[id]) else Err(IndexOutOfRange)
    }

    /** Marks the GPU bond table stale. */
    method SetDirty()
      modifies this`bondsDirty
      ensures bondsDirty
    {
      bondsDirty := true;
    }

    /**
      Adds a bond and returns its tag: the top of the deleted-tag stack when
      the stack is not empty, otherwise a never-used tag. The bond is appended
      to the dense lists, no other bond's lookup changes, and the table is
      marked stale. A bond with an out-of-range type or particle is refused.
    */
    method AddBond(bond: Bond) returns (r: Result<nat, BondError>)
      requires Valid()
      requires |deletedTags| > 0 || |bondRTag| < NO_BOND
      modifies this
      ensures Valid()
      ensures r.Err? <==> bond.bondType >= nBondTypes || bond.a >= nParticles || bond.b >= nParticles
      ensures r.Err? ==> r.error == (if bond.a >= nParticles || bond.b >= nParticles then ParticleOutOfRange else InvalidType)
      ensures r.Err? ==> unchanged(this)
      ensures r.Ok? ==> old(GetBondByTag(r.value)).Err? && GetBondByTag(r.value) == Ok(bond)
      ensures r.Ok? ==> forall t :: t != r.value ==> GetBondByTag(t) == old(GetBondByTag(t))
      ensures r.Ok? ==> bonds == old(bonds) + [Pair(bond.a, bond.b)] && bondType == old(bondType) + [bond.bondType]
      ensures r.Ok? ==> tags == old(tags) + [r.value]
      ensures r.Ok? && old(|deletedTags|) > 0 ==>
        r.value == old(deletedTags[|deletedTags| - 1]) && deletedTags == old(deletedTags[..|deletedTags| - 1])
      ensures r.Ok? && old(|deletedTags|) == 0 ==> r.value == old(|bondRTag|) && deletedTags == []
      ensures r.Ok? ==> bondsDirty && typeMapping == old(typeMapping) && particleIndex == old(particleIndex)
    {
      if bond.a >= nParticles || bond.b >= nParticles {
        return Err(ParticleOutOfRange);
      }
      if bond.bondType >= nBondTypes {
        return Err(InvalidType);
      }
      SetDirty();
      var tag: nat;
      var index := |tags|;
      if |deletedTags| > 0 {
        tag := deletedTags[|deletedTags| - 1];
        deletedTags := deletedTags[..|deletedTags| - 1];
        bondRTag := bondRTag[tag := index];
      } else {
        tag := |bondRTag|;
        bondRTag := bondRTag + [index];
      }
      bonds := bonds + [Pair(bond.a, bond.b)];
      bondType := bondType + [bond.bondType];
      tags := tags + [tag];
      r := Ok(tag);
      AddSound(this);
    }

    /**
      Removes the bond with tag `tag`: the last bond is moved into its dense
      slot, the tag becomes unassigned and is pushed on the deleted-tag stack,
      and no other bond's lookup changes. An unknown tag is refused.
    */
    method RemoveBond(tag: nat) returns (r: Outcome<BondError>)
      requires Valid()
      modifies this
      ensures Valid()
      ensures r.Pass? <==> old(GetBondByTag(tag)).Ok?
      ensures r.Fail? ==> r.error == NotFound && unchanged(this)
      ensures r.Pass? ==> GetBondByTag(tag) == Err(NotFound)
      ensures r.Pass? ==> forall t :: t != tag ==> GetBondByTag(t) == old(GetBondByTag(t))
      ensures r.Pass? ==> |bonds| == old(|bonds|) - 1 && deletedTags == old(deletedTags) + [tag]
      ensures r.Pass? ==> old(tag < |bondRTag| && bondRTag[tag] < |bonds|)
      ensures r.Pass? ==> var i := old(bondRTag[tag]);
        && bonds == SwapRemove(old(bonds), i)
        && bondType == SwapRemove(old(bondType), i)
        && tags == SwapRemove(old(tags), i)
      ensures r.Pass? ==> multiset(tags) == old(multiset(tags)) - multiset{tag}
      ensures r.Pass? ==> bondsDirty && typeMapping == old(typeMapping) && particleIndex == old(particleIndex)
    {
      if tag >= |bondRTag| || bondRTag[tag] == NO_BOND {
        return Fail(NotFound);
      }
      var i := bondRTag[tag];
      var last := |tags| - 1;
      var moved := tags[last];
      SetDirty();
      SwapRemoveMultiset(tags, i);
      bonds := SwapRemove(bonds, i);
      bondType := SwapRemove(bondType, i);
      tags := SwapRemove(tags, i);
      bondRTag := bondRTag[moved := i][tag := NO_BOND];
      deletedTags := deletedTags + [tag];
      r := Pass;
      RemoveSound(this);
    }

    /** Replaces the bond type names; their number must equal the number of bond types. */
    method SetBondTypeMapping(names: seq<string>) returns (r: Outcome<BondError>)
      requires Valid()
      modifies this`typeMapping
      ensures Valid()
      ensures r.Pass? <==> |names| == nBondTypes
      ensures r.Pass? ==> typeMapping == names
      ensures r.Fail? ==> r.error == SizeMismatch && typeMapping == old(typeMapping)
    {
      if |names| != nBondTypes {
        return Fail(SizeMismatch);
      }
      typeMapping := names;
      r := Pass;
    }

    /** The lowest type index named `name`, or NotFound. */
    function GetTypeByName(name: string): (r: Result<nat, BondError>)
      reads this
      requires Valid()
      ensures r.Ok? ==> r.value < nBondTypes && GetNameByType(r.value) == Ok(name)
      ensures r.Ok? ==> forall j :: 0 <= j < r.value ==> typeMapping[j] != name
      ensures r.Err? <==> name !in typeMapping
    {
      match FindName(typeMapping, name)
      case Some(k) => Ok(k)
      case None => Err(NotFound)
    }

    /** The name of type index t, or NotFound when t is not a bond type. */
    function GetNameByType(t: nat): (r: Result<string, BondError>)
      reads this
      requires Valid()
      ensures r.Ok? <==> t < nBondTypes
      ensures r.Ok? ==> r.value in typeMapping
    {
      if t < nBondTypes then Ok(typeMapping[t]) else Err(NotFound)
    }

    /**
      Exports the bonds in dense order: the i-th type id and pair are those of
      the bond at dense slot i, so every live bond appears once.
    */
    method TakeSnapshot() returns (s: Snapshot)
      requires Valid()
      ensures |s.typeId| == |s.bonds| == GetNumBonds()
      ensures forall i :: 0 <= i < |s.bonds| ==>
        GetBondByTag(tags[i]) == Ok(Bond(s.typeId[i], s.bonds[i].x, s.bonds[i].y))
      ensures s.typeId == bondType && s.bonds == bonds && s.typeMapping == typeMapping
      ensures SnapshotFits(s, nBondTypes, nParticles)
    {
      s := NewSnapshot(|bonds|);
      var i := 0;
      while i < |bonds|
        invariant 0 <= i <= |bonds|
        invariant |s.typeId| == |s.bonds| == |bonds|
        invariant s.typeId[..i] == bondType[..i] && s.bonds[..i] == bonds[..i]
      {
        s := s.(typeId := s.typeId[i := bondType[i]], bonds := s.bonds[i := bonds[i]]);
        i := i + 1;
      }
      assert s.typeId == s.typeId[..i] && s.bonds == s.bonds[..i];
      s := s.(typeMapping := typeMapping);
      forall i | 0 <= i < |s.bonds|
        ensures GetBondByTag(tags[i]) == Ok(Bond(s.typeId[i], s.bonds[i].x, s.bonds[i].y))
      {
        assert GetBondByTag(tags[i]) == Ok(GetBond(i));
      }
    }

    /**
      Replaces the whole store by the snapshot's bonds: the bond at i gets tag
      i, the deleted-tag stack empties, the type names are taken over and the
      table is marked stale. A snapshot whose lists disagree in length, or that
      holds an out-of-range type or particle, is refused and nothing changes.
    */
    method InitializeFromSnapshot(s: Snapshot) returns (r: Outcome<BondError>)
      requires Valid()
      requires |s.bonds| <= NO_BOND
      modifies this
      ensures Valid()
      ensures r.Pass? <==> SnapshotFits(s, nBondTypes, nParticles)
      ensures r.Fail? ==> unchanged(this)
      ensures r.Pass? ==> bonds == s.bonds && bondType == s.typeId && typeMapping == s.typeMapping
      ensures r.Pass? ==> tags == seq(|s.bonds|, i => i) && deletedTags == []
      ensures r.Pass? ==> forall t :: 0 <= t < |s.bonds| ==>
        GetBondByTag(t) == Ok(Bond(s.typeId[t], s.bonds[t].x, s.bonds[t].y))
      ensures r.Pass? ==> forall t :: t >= |s.bonds| ==> GetBondByTag(t) == Err(NotFound)
      ensures r.Pass? ==> bondsDirty && particleIndex == old(particleIndex)
    {
      r := CheckSnapshot(s, nBondTypes, nParticles);
      if r.Fail? {
        return;
      }
      Install(s);
      forall t | 0 <= t < |s.bonds|
        ensures GetBondByTag(t) == Ok(Bond(s.typeId[t], s.bonds[t].x, s.bonds[t].y))
      {
        assert tags[t] == t;
        assert GetBondByTag(tags[t]) == Ok(GetBond(t));
      }
    }

    /** Installs a fitting snapshot: bond i gets tag i and nothing is deleted. */
    method Install(s: Snapshot)
      requires Valid()
      requires SnapshotFits(s, nBondTypes, nParticles) && |s.bonds| <= NO_BOND
      modifies this
      ensures Valid()
      ensures bonds == s.bonds && bondType == s.typeId && typeMapping == s.typeMapping
      ensures tags == seq(|s.bonds|, i => i) && bondRTag == tags && deletedTags == []
      ensures bondsDirty && particleIndex == old(particleIndex)
    {
      var n := |s.bonds|;
      var newTags: seq<nat> := [];
      var i := 0;
      while i < n
        invariant 0 <= i <= n
        invariant newTags == seq(i, k => k)
      {
        newTags := newTags + [i];
        i := i + 1;
      }
      IdentityIndexValid(n, newTags);
      SetDirty();
      bonds, bondType := s.bonds, s.typeId;
      tags, bondRTag, deletedTags := newTags, newTags, [];
      typeMapping := s.typeMapping;
    }

    /** The reorder notification: particles now sit at new indices; the table becomes stale. */
    method ParticleSorted(order: seq<nat>)
      requires Valid()
      requires |order| == nParticles && forall p :: 0 <= p < nParticles ==> order[p] < nParticles
      modifies this
      ensures Valid() && bondsDirty && particleIndex == order
      ensures bonds == old(bonds) && bondType == old(bondType) && tags == old(tags)
      ensures bondRTag == old(bondRTag) && deletedTags == old(deletedTags) && typeMapping == old(typeMapping)
    {
      SetDirty();
      particleIndex := order;
    }

    /** Rebuilds the GPU bond table from the current bonds and particle order. */
    method UpdateBondTable()
      requires Valid()
      modifies this`gpuBondList, this`nBondsArray
      ensures Valid()
      ensures IsBondTable(gpuBondList, nBondsArray, Indices(bonds, particleIndex), bondType, nParticles)
    {
      var pairs := Indices(bonds, particleIndex);
      gpuBondList, nBondsArray := BuildBondTable(pairs, bondType, nParticles);
    }

    /**
      The GPU bond table, rebuilt first when stale; after the call it always
      matches the current bonds and particle order, and when it was not stale
      nothing is rebuilt.
    */
    method GetGPUBondList() returns (table: seq<seq<Cell>>)
      requires Valid()
      modifies this
      ensures Valid() && !bondsDirty && table == gpuBondList
      ensures IsBondTable(table, nBondsArray, Indices(bonds, particleIndex), bondType, nParticles)
      ensures !old(bondsDirty) ==> unchanged(this)
      ensures bonds == old(bonds) && bondType == old(bondType) && tags == old(tags)
      ensures bondRTag == old(bondRTag) && deletedTags == old(deletedTags)
      ensures typeMapping == old(typeMapping) && particleIndex == old(particleIndex)
    {
      if bondsDirty {
        UpdateBondTable();
        bondsDirty := false;
      }
      table := gpuBondList;
    }
  }

  /**
    The state change of a successful AddBond, whose new tag is the last one of
    the dense tag list: the store stays valid, the new tag finds the new bond
    and was unknown before, and every other tag's lookup is as it was.
  */
  twostate lemma AddSound(d: BondData)
    requires old(d.Valid())
    requires |d.tags| == old(|d.tags|) + 1
    requires var tag := d.tags[|d.tags| - 1];
      && (old(|d.deletedTags|) > 0 ==>
            && tag == old(d.deletedTags[|d.deletedTags| - 1])
            && d.deletedTags == old(d.deletedTags[..|d.deletedTags| - 1])
            && d.bondRTag == old(d.bondRTag[tag := |d.tags|]))
      && (old(|d.deletedTags|) == 0 ==>
            && tag == old(|d.bondRTag|) && tag < NO_BOND
            && d.deletedTags == old(d.deletedTags)
            && d.bondRTag == old(d.bondRTag + [|d.tags|]))
      && d.tags == old(d.tags) + [tag]
    requires |d.bonds| == old(|d.bonds|) + 1 && d.bonds[..|d.bonds| - 1] == old(d.bonds)
    requires |d.bondType| == old(|d.bondType|) + 1 && d.bondType[..|d.bondType| - 1] == old(d.bondType)
    requires d.bondType[|d.bondType| - 1] < d.nBondTypes
    requires d.bonds[|d.bonds| - 1].x < d.nParticles && d.bonds[|d.bonds| - 1].y < d.nParticles
    requires d.typeMapping == old(d.typeMapping) && d.particleIndex == old(d.particleIndex) && d.bondsDirty
    ensures d.Valid()
    ensures var last := |d.tags| - 1; var tag := d.tags[last];
      old(d.GetBondByTag(tag)).Err? && d.GetBondByTag(tag) == Ok(d.GetBond(last))
    ensures forall t :: t != d.tags[|d.tags| - 1] ==> d.GetBondByTag(t) == old(d.GetBondByTag(t))
  {
    var last := |d.tags| - 1;
    var tag := d.tags[last];
    assert d.bonds == old(d.bonds) + [d.bonds[last]];
    assert d.bondType == old(d.bondType) + [d.bondType[last]];
    if old(|d.deletedTags|) > 0 {
      IssueRecycledPreserves(old(d.tags), old(d.bondRTag), old(d.deletedTags), d.tags, d.bondRTag, d.deletedTags);
    } else {
      IssueFreshPreserves(old(d.tags), old(d.bondRTag), old(d.deletedTags), d.tags, d.bondRTag, d.deletedTags);
    }
    assert d.Valid();
    forall t: nat | t != tag ensures d.GetBondByTag(t) == old(d.GetBondByTag(t)) {
      AddKeepsLookup(old(d.bonds), old(d.bondType), old(d.bondRTag), d.bondRTag,
                     d.bonds[last], d.bondType[last], tag, t);
    }
  }

  /**
    The state change of a successful RemoveBond, whose removed tag is pushed
    on top of the deleted-tag stack: the store stays valid, the removed tag is
    unknown, and every other tag's lookup is as it was.
  */
  twostate lemma RemoveSound(d: BondData)
    requires old(d.Valid())
    requires |d.deletedTags| == old(|d.deletedTags|) + 1
    requires var tag := d.deletedTags[|d.deletedTags| - 1];
      && d.deletedTags == old(d.deletedTags) + [tag]
      && old(tag < |d.bondRTag| && d.bondRTag[tag] != NO_BOND)
      && var i := old(d.bondRTag[tag]);
      && d.bonds == old(SwapRemove(d.bonds, i))
      && d.bondType == old(SwapRemove(d.bondType, i))
      && d.tags == old(SwapRemove(d.tags, i))
      && d.bondRTag == old(d.bondRTag[d.tags[|d.tags| - 1] := i][tag := NO_BOND])
    requires d.typeMapping == old(d.typeMapping) && d.particleIndex == old(d.particleIndex) && d.bondsDirty
    ensures d.Valid()
    ensures d.GetBondByTag(d.deletedTags[|d.deletedTags| - 1]) == Err(NotFound)
    ensures forall t :: t != d.deletedTags[|d.deletedTags| - 1] ==> d.GetBondByTag(t) == old(d.GetBondByTag(t))
  {
    var tag := d.deletedTags[|d.deletedTags| - 1];
    ReleasePreserves(old(d.tags), old(d.bondRTag), old(d.deletedTags), tag, d.tags, d.bondRTag, d.deletedTags);
    assert d.Valid();
    forall t: nat | t != tag ensures d.GetBondByTag(t) == old(d.GetBondByTag(t)) {
      RemoveKeepsLookup(old(d.bonds), old(d.bondType), old(d.tags), old(d.bondRTag), old(d.deletedTags), tag, t);
    }
  }

  /** Exporting and re-importing a store leaves its bonds, dense order and names as they were. */
  method SnapshotRoundTrip(d: BondData)
    requires d.Valid()
    modifies d
    ensures d.Valid()
    ensures d.bonds == old(d.bonds) && d.bondType == old(d.bondType) && d.typeMapping == old(d.typeMapping)
    ensures forall i :: 0 <= i < |d.bonds| ==> d.GetBond(i) == old(d.GetBond(i))
  {
    var s := d.TakeSnapshot();
    var r := d.InitializeFromSnapshot(s);
    assert r.Pass?;
  }
}
