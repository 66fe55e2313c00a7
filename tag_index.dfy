/**
  The tag bookkeeping of the bond store: the dense list of bond tags (one per
  stored bond, index-aligned with the bond list), the reverse-lookup table from
  a tag to its dense index (NO_BOND for a tag that is not live) and the stack
  of deleted tags waiting to be reissued.
*/
module TagIndex {

  /** Sentinel of the reverse-lookup table for an unassigned tag (0xffffffff). */
  const NO_BOND: nat := 0xffff_ffff

  /** True when no value occurs twice in s. */
  predicate Distinct(s: seq<nat>) {
    forall i, j :: 0 <= i < j < |s| ==> s[i] != s[j]
  }

  /**
    The invariant tying the dense tag list, the reverse-lookup table and the
    deleted-tag stack together:
    - rtag and tags are inverse on live tags, and every other tag maps to NO_BOND;
    - the deleted tags are exactly the not-live tags below |rtag|, each once;
    - every tag issued so far is either live or on the stack;
    - the 32-bit tag space is not exhausted, so NO_BOND is never a live tag
      nor a dense index.
  */
  ghost predicate TagIndexValid(tags: seq<nat>, rtag: seq<nat>, deleted: seq<nat>) {
    && |rtag| <= NO_BOND
    && |tags| + |deleted| == |rtag|
    && (forall i :: 0 <= i < |tags| ==> tags[i] < |rtag| && rtag[tags[i]] == i)
    && (forall t :: 0 <= t < |rtag| && rtag[t] != NO_BOND ==> rtag[t] < |tags| && tags[rtag[t]] == t)
    && (forall k :: 0 <= k < |deleted| ==> deleted[k] < |rtag| && rtag[deleted[k]] == NO_BOND)
    && Distinct(deleted)
    && (forall t :: 0 <= t < |rtag| && rtag[t] == NO_BOND ==> t in deleted)
  }

  /** The tags that currently name a stored bond. */
  function LiveTags(rtag: seq<nat>): set<nat> {
    set t | 0 <= t < |rtag| && rtag[t] != NO_BOND
  }

  /**
    Removal from a dense list by compaction: the last element is copied into
    slot i and the list is truncated by one.
  */
  function SwapRemove<T>(s: seq<T>, i: nat): (r: seq<T>)
    requires i < |s|
    ensures |r| == |s| - 1
    ensures forall k :: 0 <= k < |r| && k != i ==> r[k] == s[k]
    ensures i < |r| ==> r[i] == s[|s| - 1]
  {
    s[i := s[|s| - 1]][..|s| - 1]
  }

  /** Compaction loses exactly the removed element and keeps all others. */
  lemma SwapRemoveMultiset<T>(s: seq<T>, i: nat)
    requires i < |s|
    ensures multiset(SwapRemove(s, i)) == multiset(s) - multiset{s[i]}
  {
    var last := |s| - 1;
    if i == last {
      assert s == s[..last] + [s[last]];
      assert SwapRemove(s, i) == s[..last];
    } else {
      var u := s[i := s[last]];
      assert s[..last] == s[..i] + [s[i]] + s[i + 1..last];
      assert u[..last] == s[..i] + [s[last]] + s[i + 1..last];
      assert s == s[..last] + [s[last]];
      calc {
        multiset(SwapRemove(s, i));
        multiset(s[..i]) + multiset{s[last]} + multiset(s[i + 1..last]);
        multiset(s[..last]) - multiset{s[i]} + multiset{s[last]};
        multiset(s) - multiset{s[i]};
      }
    }
  }

  /** The number of live tags equals the number of stored bonds. */
  lemma {:induction false} LiveTagCount(tags: seq<nat>, rtag: seq<nat>, deleted: seq<nat>)
    requires TagIndexValid(tags, rtag, deleted)
    ensures |LiveTags(rtag)| == |tags|
  {
    assert LiveTags(rtag) == set i | 0 <= i < |tags| :: tags[i] by {
      forall t | t in LiveTags(rtag) ensures t in set i | 0 <= i < |tags| :: tags[i] {
        assert tags[rtag[t]] == t;
      }
    }
    DistinctImageCard(tags, rtag);
  }

  /** The live tags are pairwise distinct, so their set has |tags| elements. */
  lemma {:induction false} DistinctImageCard(tags: seq<nat>, rtag: seq<nat>)
    requires forall i :: 0 <= i < |tags| ==> tags[i] < |rtag| && rtag[tags[i]] == i
    ensures |set i | 0 <= i < |tags| :: tags[i]| == |tags|
  {
    if tags != [] {
      var n := |tags| - 1;
      var pre := tags[..n];
      assert forall i :: 0 <= i < |pre| ==> pre[i] < |rtag| && rtag[pre[i]] == i;
      DistinctImageCard(pre, rtag);
      assert (set i | 0 <= i < |tags| :: tags[i]) == (set i | 0 <= i < |pre| :: pre[i]) + {tags[n]};
      assert tags[n] !in (set i | 0 <= i < |pre| :: pre[i]);
    }
  }

  /** The index after a bulk import of n bonds: bond i carries tag i and nothing is deleted. */
  lemma IdentityIndexValid(n: nat, ids: seq<nat>)
    requires n <= NO_BOND
    requires ids == seq(n, i => i)
    ensures TagIndexValid(ids, ids, [])
  {
  }

  /** Issuing a never-used tag (|rtag|) for the bond appended at dense index |tags|. */
  lemma IssueFreshPreserves(tags: seq<nat>, rtag: seq<nat>, deleted: seq<nat>,
                            tags': seq<nat>, rtag': seq<nat>, deleted': seq<nat>)
    requires TagIndexValid(tags, rtag, deleted)
    requires |rtag| < NO_BOND
    requires tags' == tags + [|rtag|] && rtag' == rtag + [|tags|] && deleted' == deleted
    ensures TagIndexValid(tags', rtag', deleted')
  {
  }

  /** Reissuing the tag on top of the deleted stack for the bond appended at |tags|. */
  lemma IssueRecycledPreserves(tags: seq<nat>, rtag: seq<nat>, deleted: seq<nat>,
                               tags': seq<nat>, rtag': seq<nat>, deleted': seq<nat>)
    requires TagIndexValid(tags, rtag, deleted)
    requires |deleted| > 0
    requires var top := deleted[|deleted| - 1];
      tags' == tags + [top] && rtag' == rtag[top := |tags|] && deleted' == deleted[..|deleted| - 1]
    ensures TagIndexValid(tags', rtag', deleted')
  {
    var top := deleted[|deleted| - 1];
    var rest := deleted[..|deleted| - 1];
    assert deleted == rest + [top];
    assert top < |rtag| && rtag[top] == NO_BOND;
    assert |tags| < NO_BOND;
    forall i | 0 <= i < |tags'| ensures tags'[i] < |rtag'| && rtag'[tags'[i]] == i {
      if i < |tags| {
        assert tags'[i] == tags[i] && rtag[tags[i]] == i;
        assert tags[i] != top;
      }
    }
    forall t | 0 <= t < |rtag'| && rtag'[t] != NO_BOND
      ensures rtag'[t] < |tags'| && tags'[rtag'[t]] == t
    {
      if t != top {
        assert rtag'[t] == rtag[t];
      }
    }
    forall k | 0 <= k < |rest| ensures rest[k] < |rtag'| && rtag'[rest[k]] == NO_BOND {
      assert rest[k] == deleted[k];
      assert rest[k] != top;
    }
    forall t | 0 <= t < |rtag'| && rtag'[t] == NO_BOND ensures t in rest {
      assert t != top;
      assert t in deleted;
    }
  }

  /**
    Releasing live tag `tag`: its slot is compacted away (the last bond moves
    into it and its tag is re-pointed), the tag maps to NO_BOND and is pushed
    on the deleted stack.
  */
  lemma ReleasePreserves(tags: seq<nat>, rtag: seq<nat>, deleted: seq<nat>, tag: nat,
                         tags': seq<nat>, rtag': seq<nat>, deleted': seq<nat>)
    requires TagIndexValid(tags, rtag, deleted)
    requires tag < |rtag| && rtag[tag] != NO_BOND
    requires var i := rtag[tag];
      && tags' == SwapRemove(tags, i)
      && rtag' == rtag[tags[|tags| - 1] := i][tag := NO_BOND]
      && deleted' == deleted + [tag]
    ensures TagIndexValid(tags', rtag', deleted')
  {
    var i := rtag[tag];
    var last := |tags| - 1;
    var moved := tags[last];
    assert tags[i] == tag;
    assert i != last ==> moved != tag;
    forall j | 0 <= j < |tags'| ensures tags'[j] < |rtag'| && rtag'[tags'[j]] == j {
      if j == i {
        assert tags'[j] == moved;
      } else {
        assert tags'[j] == tags[j];
        assert rtag[tags[j]] == j;
      }
    }
    forall t | 0 <= t < |rtag'| && rtag'[t] != NO_BOND
      ensures rtag'[t] < |tags'| && tags'[rtag'[t]] == t
    {
      if t == moved {
        assert rtag'[t] == i && tags'[i] == moved;
      } else {
        var j := rtag[t];
        assert tags[j] == t;
        assert j != i && j != last;
      }
    }
    forall k | 0 <= k < |deleted'| ensures deleted'[k] < |rtag'| && rtag'[deleted'[k]] == NO_BOND {
      if k < |deleted| {
        assert deleted'[k] == deleted[k];
        assert rtag[deleted[k]] == NO_BOND;
      }
    }
    assert tag !in deleted;
  }
}
