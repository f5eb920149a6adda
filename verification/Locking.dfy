/** Setting a node's own list while other insertions may already have linked to
it: the locked branch of `setOwn` in `internal/index/hnsw.go`. */
module Locking {
  import opened Graph
  import opened Heuristic
  import opened Build

  /** nbs followed by the existing links it lacks, from position i on. */
  function MergeFrom(nbs: seq<nat>, existing: seq<nat>, i: nat): (r: seq<nat>)
    requires i <= |existing|
    decreases |existing| - i
  {
    if i == |existing| then nbs
    else MergeFrom(if existing[i] in nbs then nbs else nbs + [existing[i]], existing, i + 1)
  }

  /** Nothing of either list is lost by merging, nothing is invented, and no
  neighbour comes twice. */
  lemma {:induction false} MergeFacts(nbs: seq<nat>, existing: seq<nat>, i: nat)
    requires i <= |existing|
    ensures var r := MergeFrom(nbs, existing, i);
      && nbs <= r
      && (forall j :: i <= j < |existing| ==> existing[j] in r)
      && (forall x :: x in r ==> x in nbs || x in existing[i..])
      && (NoRepeats(nbs) ==> NoRepeats(r))
    decreases |existing| - i
  {
    if i < |existing| {
      var next := if existing[i] in nbs then nbs else nbs + [existing[i]];
      MergeFacts(next, existing, i + 1);
      assert existing[i] in next;
      assert forall x :: x in existing[i..] <==> x == existing[i] || x in existing[i + 1..];
    }
  }

  ghost function LockedOwn(ds: Dataset, par: Params, id: nat, lc: nat, existing: seq<nat>, nbs: seq<nat>): (r: seq<nat>)
    requires ds.Valid() && id < ds.Len() && AllBelow(nbs, ds.Len()) && AllBelow(existing, ds.Len())
  {
    MergeBelow(nbs, existing, ds.Len());
    Prune(ds, par, id, lc, MergeFrom(nbs, existing, 0))
  }

  lemma MergeBelow(nbs: seq<nat>, existing: seq<nat>, n: nat)
    requires AllBelow(nbs, n) && AllBelow(existing, n)
    ensures AllBelow(MergeFrom(nbs, existing, 0), n)
  {
    var r := MergeFrom(nbs, existing, 0);
    MergeFacts(nbs, existing, 0);
    forall j | 0 <= j < |r| ensures r[j] < n {
      assert r[j] in r;
      assert existing[0..] == existing;
    }
  }

  /** The list that results is within its cap and not empty if either was not;
  and unless the merged list was over the cap, every existing link is still in it. */
  lemma LockedOwnFacts(ds: Dataset, par: Params, id: nat, lc: nat, existing: seq<nat>, nbs: seq<nat>)
    requires ds.Valid() && par.Valid() && id < ds.Len() && AllBelow(nbs, ds.Len()) && AllBelow(existing, ds.Len())
    ensures var r := LockedOwn(ds, par, id, lc, existing, nbs);
      && |r| <= par.CapAt(lc)
      && (forall x :: x in r ==> x in nbs || x in existing)
      && (nbs != [] ==> r != [])
      && (|MergeFrom(nbs, existing, 0)| <= par.CapAt(lc) ==> forall x :: x in existing || x in nbs ==> x in r)
  {
    MergeBelow(nbs, existing, ds.Len());
    MergeFacts(nbs, existing, 0);
    assert existing[0..] == existing;
    PruneFacts(ds, par, id, lc, MergeFrom(nbs, existing, 0));
  }

  /** Behind the new list come the existing links it does not name, in the order
  they stood in. */
  lemma {:induction false} MergeOrder(nbs: seq<nat>, existing: seq<nat>, i: nat) returns (at: seq<nat>)
    requires i <= |existing|
    ensures var r := MergeFrom(nbs, existing, i);
      && |r| == |nbs| + |at|
      && (forall j :: 0 <= j < |at| ==> i <= at[j] < |existing| && r[|nbs| + j] == existing[at[j]])
      && (forall j, l :: 0 <= j < l < |at| ==> at[j] < at[l])
      && (forall j :: 0 <= j < |at| ==> existing[at[j]] !in nbs)
    decreases |existing| - i
  {
    at := [];
    if i < |existing| && existing[i] in nbs {
      at := MergeOrder(nbs, existing, i + 1);
    } else if i < |existing| {
      var next := nbs + [existing[i]];
      MergeFacts(next, existing, i + 1);
      var rest := MergeOrder(next, existing, i + 1);
      var r := MergeFrom(nbs, existing, i);
      at := [i] + rest;
      assert r[|nbs|] == next[|nbs|];
      forall j | 0 < j < |at| ensures r[|nbs| + j] == existing[at[j]] && existing[at[j]] !in nbs && i < at[j] {
        assert r[|next| + (j - 1)] == existing[rest[j - 1]];
        assert existing[rest[j - 1]] !in next;
      }
    }
  }

  /** Merged beyond its cap, the own list becomes the selection, by distance from
  its owner, of as many of both lists as the cap allows ... */
  lemma LockedOwnIsSelection(ds: Dataset, par: Params, id: nat, lc: nat, existing: seq<nat>, nbs: seq<nat>)
    requires ds.Valid() && id < ds.Len() && AllBelow(nbs, ds.Len()) && AllBelow(existing, ds.Len())
    requires |MergeFrom(nbs, existing, 0)| > if lc == 0 then par.mMax0 else par.mMax
    ensures IsSelection(ds, id, nbs + existing, LockedOwn(ds, par, id, lc, existing, nbs),
                        if lc == 0 then par.mMax0 else par.mMax, par.nearestM)
  {
    hide IsSelection, Prune;
    MergeBelow(nbs, existing, ds.Len());
    MergeMembers(nbs, existing);
    var merged := MergeFrom(nbs, existing, 0);
    PrunedIsSelection(ds, par, id, lc, merged);
    var own := LockedOwn(ds, par, id, lc, existing, nbs);
    SameCandidates(ds, id, merged, nbs + existing, own, par.CapAt(lc), par.nearestM);
  }

  lemma MergeMembers(nbs: seq<nat>, existing: seq<nat>)
    ensures forall x :: x in MergeFrom(nbs, existing, 0) <==> x in nbs + existing
  {
    MergeFacts(nbs, existing, 0);
    assert existing[0..] == existing;
    forall x ensures x in MergeFrom(nbs, existing, 0) <==> x in nbs + existing {
      if x in existing { var j :| 0 <= j < |existing| && existing[j] == x; }
    }
  }

  /** ... in the open: in order of distance and starting with the nearest of both;
  with the heuristic spread, and whatever of either was dropped is closer to
  something kept than to the owner, or ranks after the last of a full list. */
  lemma LockedOwnIsBest(ds: Dataset, par: Params, id: nat, lc: nat, existing: seq<nat>, nbs: seq<nat>)
    requires ds.Valid() && par.Valid() && id < ds.Len() && AllBelow(nbs, ds.Len()) && AllBelow(existing, ds.Len())
    requires |MergeFrom(nbs, existing, 0)| > par.CapAt(lc)
    ensures var r := LockedOwn(ds, par, id, lc, existing, nbs);
      && AllBelow(r, ds.Len()) && r != []
      && (forall x :: x in nbs || x in existing ==> x < ds.Len() && ds.Between(id, r[0]) <= ds.Between(id, x))
      && (forall j, l :: 0 <= j < l < |r| ==> ds.Between(id, r[j]) <= ds.Between(id, r[l]))
      && (!par.nearestM ==> forall j, l :: 0 <= j < l < |r| ==> ds.Between(id, r[l]) <= ds.Between(r[l], r[j]))
      && (!par.nearestM ==> forall x :: (x in nbs || x in existing) && x !in r ==>
            (exists j :: 0 <= j < |r| && ds.Between(x, r[j]) < ds.Between(id, x))
            || (|r| == par.CapAt(lc) && (ds.Between(id, r[|r| - 1]) < ds.Between(id, x)
                || (ds.Between(id, r[|r| - 1]) == ds.Between(id, x) && r[|r| - 1] < x))))
      && (par.nearestM ==> |r| == par.CapAt(lc))
      && (par.nearestM ==> forall x, j :: (x in nbs || x in existing) && x !in r && 0 <= j < |r| ==>
            ds.Between(id, r[j]) <= ds.Between(id, x))
  {
    hide Prune;
    MergeBelow(nbs, existing, ds.Len());
    MergeMembers(nbs, existing);
    var merged := MergeFrom(nbs, existing, 0);
    PrunedIsBest(ds, par, id, lc, merged);
    assert forall x :: x in merged <==> x in nbs || x in existing;
  }

  /** Within its cap the merged list stays whole. */
  lemma LockedOwnKeepsAll(ds: Dataset, par: Params, id: nat, lc: nat, existing: seq<nat>, nbs: seq<nat>)
    requires ds.Valid() && id < ds.Len() && AllBelow(nbs, ds.Len()) && AllBelow(existing, ds.Len())
    requires |MergeFrom(nbs, existing, 0)| <= if lc == 0 then par.mMax0 else par.mMax
    ensures LockedOwn(ds, par, id, lc, existing, nbs) == MergeFrom(nbs, existing, 0)
  {}

  /** With no link there yet, locking or not makes no difference. */
  lemma LockedOwnFresh(ds: Dataset, par: Params, id: nat, lc: nat, nbs: seq<nat>)
    requires ds.Valid() && par.Valid() && id < ds.Len() && AllBelow(nbs, ds.Len()) && |nbs| <= par.CapAt(lc)
    ensures LockedOwn(ds, par, id, lc, [], nbs) == nbs
  {}
}
