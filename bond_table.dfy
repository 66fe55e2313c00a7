/**
  The per-particle bond table handed to the GPU: one column per particle,
  each column listing, for every bond of that particle, the partner particle
  and the bond type; columns are padded to the height of the busiest particle,
  and a separate count array records how many entries of each column are real.
*/
module BondTable {

  /** Two particle identifiers (tags or indices) of a bond: .x and .y of a uint2. */
  datatype Pair = Pair(x: nat, y: nat)

  /** A cell of the table: a bond of the column's particle, or padding. */
  datatype Cell = Entry(partner: nat, bondType: nat) | Padding

  /** The entries bond (pr, t) contributes to column j: one per endpoint equal to j. */
  function Incident(pr: Pair, t: nat, j: nat): seq<Cell> {
    (if pr.x == j then [Entry(pr.y, t)] else []) + (if pr.y == j then [Entry(pr.x, t)] else [])
  }

  /** The entries of column j, in dense bond order. */
  function Column(pairs: seq<Pair>, types: seq<nat>, j: nat): seq<Cell>
    requires |pairs| == |types|
    decreases |pairs|
  {
    if |pairs| == 0 then []
    else
      var n := |pairs| - 1;
      Column(pairs[..n], types[..n], j) + Incident(pairs[n], types[n], j)
  }

  /** The number of bond endpoints equal to j (a bond of j with itself counts twice). */
  function Degree(pairs: seq<Pair>, j: nat): nat
    decreases |pairs|
  {
    if |pairs| == 0 then 0
    else
      var n := |pairs| - 1;
      Degree(pairs[..n], j) + (if pairs[n].x == j then 1 else 0) + (if pairs[n].y == j then 1 else 0)
  }

  /** Sum of the degrees of particles 0 .. width-1. */
  function SumDegrees(pairs: seq<Pair>, width: nat): nat {
    if width == 0 then 0 else SumDegrees(pairs, width - 1) + Degree(pairs, width - 1)
  }

  /** The height of a table: the common length of its columns. */
  function Height(table: seq<seq<Cell>>): nat {
    if |table| == 0 then 0 else |table[0]|
  }

  /**
    `table` and `counts` are the bond table of the bonds (pairs, types) over
    `width` particles: one column per particle, all of one height equal to the
    largest degree, column j holding exactly Column(pairs, types, j) followed by
    padding, and counts[j] the degree of particle j.
  */
  ghost predicate IsBondTable(table: seq<seq<Cell>>, counts: seq<nat>, pairs: seq<Pair>, types: seq<nat>, width: nat) {
    && |pairs| == |types|
    && |table| == width && |counts| == width
    && (forall j :: 0 <= j < width ==> |table[j]| == Height(table))
    && (forall j :: 0 <= j < width ==> counts[j] == Degree(pairs, j))
    && (forall j :: 0 <= j < width ==>
          counts[j] <= Height(table) && table[j][..counts[j]] == Column(pairs, types, j))
    && (forall j, r :: 0 <= j < width && counts[j] <= r < Height(table) ==> table[j][r] == Padding)
    && (Height(table) == 0 || exists j :: 0 <= j < width && counts[j] == Height(table))
  }

  /** Every bond endpoint names a particle below width. */
  predicate InRange(pairs: seq<Pair>, width: nat) {
    forall i :: 0 <= i < |pairs| ==> pairs[i].x < width && pairs[i].y < width
  }

  /** A column has exactly as many entries as its particle has bond endpoints. */
  lemma {:induction false} ColumnLength(pairs: seq<Pair>, types: seq<nat>, j: nat)
    requires |pairs| == |types|
    ensures |Column(pairs, types, j)| == Degree(pairs, j)
    decreases |pairs|
  {
    if |pairs| > 0 {
      var n := |pairs| - 1;
      ColumnLength(pairs[..n], types[..n], j);
    }
  }

  /** Every bond is listed in the column of each of its two particles. */
  lemma {:induction false} ColumnListsBond(pairs: seq<Pair>, types: seq<nat>, i: nat)
    requires |pairs| == |types| && i < |pairs|
    ensures Entry(pairs[i].y, types[i]) in Column(pairs, types, pairs[i].x)
    ensures Entry(pairs[i].x, types[i]) in Column(pairs, types, pairs[i].y)
    decreases |pairs|
  {
    var n := |pairs| - 1;
    var pre := Column(pairs[..n], types[..n], pairs[i].x);
    var pre' := Column(pairs[..n], types[..n], pairs[i].y);
    if i < n {
      ColumnListsBond(pairs[..n], types[..n], i);
      assert Column(pairs, types, pairs[i].x) == pre + Incident(pairs[n], types[n], pairs[i].x);
      assert Column(pairs, types, pairs[i].y) == pre' + Incident(pairs[n], types[n], pairs[i].y);
    } else {
      assert Column(pairs, types, pairs[i].x) == pre + Incident(pairs[n], types[n], pairs[i].x);
      assert Column(pairs, types, pairs[i].y) == pre' + Incident(pairs[n], types[n], pairs[i].y);
      assert Entry(pairs[i].y, types[i]) in Incident(pairs[n], types[n], pairs[i].x);
      assert Entry(pairs[i].x, types[i]) in Incident(pairs[n], types[n], pairs[i].y);
    }
  }

  /** Every entry of column j comes from a bond of particle j, with its partner and type. */
  lemma {:induction false} ColumnEntriesAreBonds(pairs: seq<Pair>, types: seq<nat>, j: nat, e: Cell)
    requires |pairs| == |types|
    requires e in Column(pairs, types, j)
    ensures e.Entry?
    ensures exists i :: (0 <= i < |pairs| && types[i] == e.bondType &&
      ((pairs[i].x == j && pairs[i].y == e.partner) || (pairs[i].y == j && pairs[i].x == e.partner)))
    decreases |pairs|
  {
    var n := |pairs| - 1;
    if e in Column(pairs[..n], types[..n], j) {
      ColumnEntriesAreBonds(pairs[..n], types[..n], j, e);
      var i :| 0 <= i < n && types[..n][i] == e.bondType &&
        ((pairs[..n][i].x == j && pairs[..n][i].y == e.partner) || (pairs[..n][i].y == j && pairs[..n][i].x == e.partner));
      assert types[i] == e.bondType;
    } else {
      assert e in Incident(pairs[n], types[n], j);
    }
  }

  /** Adding one particle's indicator over all particles below width counts it once. */
  lemma {:induction false} SumDegreesSnoc(pairs: seq<Pair>, p: Pair, width: nat)
    requires p.x < width && p.y < width
    ensures SumDegrees(pairs + [p], width) == SumDegrees(pairs, width) + 2
  {
    SumDegreesSnocPartial(pairs, p, width);
  }

  lemma {:induction false} SumDegreesSnocPartial(pairs: seq<Pair>, p: Pair, w: nat)
    ensures SumDegrees(pairs + [p], w) == SumDegrees(pairs, w)
      + (if p.x < w then 1 else 0) + (if p.y < w then 1 else 0)
  {
    if w > 0 {
      SumDegreesSnocPartial(pairs, p, w - 1);
      assert (pairs + [p])[..|pairs|] == pairs;
    }
  }

  /** The table holds exactly two entries per bond: each bond is seen by both its particles. */
  lemma {:induction false} DegreeSum(pairs: seq<Pair>, width: nat)
    requires InRange(pairs, width)
    ensures SumDegrees(pairs, width) == 2 * |pairs|
    decreases |pairs|
  {
    if |pairs| == 0 {
      SumDegreesZero(pairs, width);
    } else {
      var n := |pairs| - 1;
      assert pairs == pairs[..n] + [pairs[n]];
      DegreeSum(pairs[..n], width);
      SumDegreesSnoc(pairs[..n], pairs[n], width);
    }
  }

  lemma {:induction false} SumDegreesZero(pairs: seq<Pair>, w: nat)
    requires |pairs| == 0
    ensures SumDegrees(pairs, w) == 0
  {
    if w > 0 {
      SumDegreesZero(pairs, w - 1);
    }
  }

  /**
    Pass one of the rebuild: counts each particle's bond endpoints and tracks
    the largest count, which becomes the table height.
  */
  method CountBonds(pairs: seq<Pair>, width: nat) returns (counts: seq<nat>, height: nat)
    requires InRange(pairs, width)
    ensures |counts| == width
    ensures forall j :: 0 <= j < width ==> counts[j] == Degree(pairs, j) && counts[j] <= height
    ensures height == 0 || exists j :: 0 <= j < width && counts[j] == height
  {
    counts := seq(width, _ => 0);
    height := 0;
    ghost var busiest: nat := 0;
    var i := 0;
    while i < |pairs|
      invariant 0 <= i <= |pairs| && |counts| == width
      invariant forall j :: 0 <= j < width ==> counts[j] == Degree(pairs[..i], j) && counts[j] <= height
      invariant height == 0 || (busiest < width && counts[busiest] == height)
    {
      var p := pairs[i];
      assert pairs[..i + 1][..i] == pairs[..i];
      counts := counts[p.x := counts[p.x] + 1];
      counts := counts[p.y := counts[p.y] + 1];
      if counts[p.x] > height {
        height, busiest := counts[p.x], p.x;
      }
      if counts[p.y] > height {
        height, busiest := counts[p.y], p.y;
      }
      i := i + 1;
    }
    assert pairs[..i] == pairs;
  }

  /**
    Pass two of the rebuild: appends every bond, in dense order, at the next
    free row of the column of each of its two particles.
  */
  method FillColumns(pairs: seq<Pair>, types: seq<nat>, width: nat) returns (cols: seq<seq<Cell>>)
    requires |pairs| == |types|
    requires InRange(pairs, width)
    ensures |cols| == width
    ensures forall j :: 0 <= j < width ==> cols[j] == Column(pairs, types, j)
  {
    cols := seq(width, _ => []);
    var i := 0;
    while i < |pairs|
      invariant 0 <= i <= |pairs| && |cols| == width
      invariant forall j :: 0 <= j < width ==> cols[j] == Column(pairs[..i], types[..i], j)
    {
      var p, t := pairs[i], types[i];
      assert pairs[..i + 1][..i] == pairs[..i] && types[..i + 1][..i] == types[..i];
      cols := cols[p.x := cols[p.x] + [Entry(p.y, t)]];
      cols := cols[p.y := cols[p.y] + [Entry(p.x, t)]];
      i := i + 1;
    }
    assert pairs[..i] == pairs && types[..i] == types;
  }

  /**
    Rebuilds the bond table from scratch: counts, fills the columns, and pads
    each column to the height of the busiest particle.
  */
  method BuildBondTable(pairs: seq<Pair>, types: seq<nat>, width: nat)
    returns (table: seq<seq<Cell>>, counts: seq<nat>)
    requires |pairs| == |types|
    requires InRange(pairs, width)
    ensures IsBondTable(table, counts, pairs, types, width)
  {
    var height;
    counts, height := CountBonds(pairs, width);
    var cols := FillColumns(pairs, types, width);
    table := [];
    var j := 0;
    while j < width
      invariant 0 <= j <= width && |table| == j
      invariant forall k :: 0 <= k < j ==> table[k] == cols[k] + seq(height - counts[k], _ => Padding)
    {
      table := table + [cols[j] + seq(height - counts[j], _ => Padding)];
      j := j + 1;
    }
    forall k | 0 <= k < width ensures |table[k]| == height && table[k][..counts[k]] == Column(pairs, types, k) {
      ColumnLength(pairs, types, k);
    }
    assert Height(table) == height;
  }
}
