/** Choosing which candidates to keep as neighbours: `selectNeighbours` in
`internal/index/hnsw.go`. */
module Heuristic {
  import opened TopK
  import opened Graph

  ghost predicate IdsWithin(ds: Dataset, cands: seq<Result>) {
    ds.Valid() && forall i :: 0 <= i < |cands| ==> cands[i].id < ds.Len()
  }

  /** k stands between c and the node: c is nearer to k than to the node. */
  ghost predicate Covers(ds: Dataset, k: Result, c: Result)
    requires ds.Valid() && k.id < ds.Len() && c.id < ds.Len()
  {
    ds.Between(c.id, k.id) < c.dist
  }

  ghost predicate Covered(ds: Dataset, kept: seq<Result>, c: Result)
    requires IdsWithin(ds, kept) && c.id < ds.Len()
  {
    exists j :: 0 <= j < |kept| && Covers(ds, kept[j], c)
  }

  /** The candidates from position i on, filtered behind those already kept. */
  ghost function SelectFrom(ds: Dataset, cands: seq<Result>, m: nat, i: nat, kept: seq<Result>): (r: seq<Result>)
    requires IdsWithin(ds, cands) && IdsWithin(ds, kept) && i <= |cands|
    decreases |cands| - i
  {
    if i == |cands| || |kept| >= m then kept
    else if Covered(ds, kept, cands[i]) then SelectFrom(ds, cands, m, i + 1, kept)
    else SelectFrom(ds, cands, m, i + 1, kept + [cands[i]])
  }

  ghost function Select(ds: Dataset, cands: seq<Result>, m: nat, nearestM: bool): (r: seq<Result>)
    requires IdsWithin(ds, cands)
  {
    if nearestM then Take(cands, m) else SelectFrom(ds, cands, m, 0, [])
  }

  /** The loop of the source. */
  method SelectNeighbours(ds: Dataset, cands: seq<Result>, m: nat, nearestM: bool) returns (kept: seq<Result>)
    requires IdsWithin(ds, cands)
    ensures kept == Select(ds, cands, m, nearestM)
  {
    if nearestM {
      if |cands| > m { return cands[..m]; }
      return cands;
    }
    kept := [];
    for i := 0 to |cands|
      invariant IdsWithin(ds, kept)
      invariant SelectFrom(ds, cands, m, i, kept) == SelectFrom(ds, cands, m, 0, [])
    {
      if |kept| >= m { break; }
      var c := cands[i];
      var covered := false;
      for j := 0 to |kept|
        invariant !covered
        invariant forall l :: 0 <= l < j ==> !Covers(ds, kept[l], c)
      {
        if ds.Between(c.id, kept[j].id) < c.dist {
          covered := true;
          assert Covers(ds, kept[j], c);
          break;
        }
      }
      if !covered { kept := kept + [c]; }
    }
  }

  // ---------- Properties ----------

  /** Picks at rising positions. */
  ghost predicate Subsequence(r: seq<Result>, cands: seq<Result>, at: seq<nat>) {
    && |at| == |r|
    && (forall j :: 0 <= j < |at| ==> at[j] < |cands| && r[j] == cands[at[j]])
    && (forall j, l :: 0 <= j < l < |at| ==> at[j] < at[l])
  }

  /** No item is covered by one kept before it. */
  ghost predicate Spread(ds: Dataset, r: seq<Result>)
    requires IdsWithin(ds, r)
  {
    forall j, l :: 0 <= l < j < |r| ==> !Covers(ds, r[l], r[j])
  }

  /** What became of candidate x: kept, or covered by something kept before it, or
  never looked at because the m-th pick had been made before it. */
  ghost predicate Settled(ds: Dataset, r: seq<Result>, cands: seq<Result>, at: seq<nat>, m: nat, x: nat)
    requires IdsWithin(ds, r) && IdsWithin(ds, cands) && x < |cands|
  {
    || cands[x] in r
    || (exists j :: 0 <= j < |r| && j < |at| && at[j] < x && Covers(ds, r[j], cands[x]))
    || (|r| == |at| == m && (m == 0 || at[m - 1] < x))
  }

  lemma SpreadGrows(ds: Dataset, kept: seq<Result>, c: Result)
    requires IdsWithin(ds, kept) && c.id < ds.Len() && Spread(ds, kept) && !Covered(ds, kept, c)
    ensures IdsWithin(ds, kept + [c]) && Spread(ds, kept + [c])
  {
    var k := kept + [c];
    forall j, l | 0 <= l < j < |k| ensures !Covers(ds, k[l], k[j]) {
      if j == |kept| { assert !Covers(ds, kept[l], c); } else { assert !Covers(ds, kept[l], kept[j]); }
    }
  }

  lemma {:induction false} SelectFromFacts(
      ds: Dataset, cands: seq<Result>, m: nat, i: nat, kept: seq<Result>, at: seq<nat>)
    returns (at': seq<nat>)
    requires IdsWithin(ds, cands) && IdsWithin(ds, kept) && i <= |cands|
    requires Subsequence(kept, cands, at) && (forall j :: 0 <= j < |at| ==> at[j] < i)
    requires |kept| <= m && Spread(ds, kept)
    ensures var r := SelectFrom(ds, cands, m, i, kept);
      && IdsWithin(ds, r) && kept <= r && at <= at' && |r| <= m
      && Subsequence(r, cands, at') && Spread(ds, r)
      && (forall x :: i <= x < |cands| ==> Settled(ds, r, cands, at', m, x))
    decreases |cands| - i
  {
    hide Spread, Covers;
    if i == |cands| || |kept| >= m {
      at' := at;
    } else if Covered(ds, kept, cands[i]) {
      at' := SelectFromFacts(ds, cands, m, i + 1, kept, at);
      var r := SelectFrom(ds, cands, m, i, kept);
      var j :| 0 <= j < |kept| && Covers(ds, kept[j], cands[i]);
      assert r[j] == kept[j] && at'[j] == at[j];
      assert Settled(ds, r, cands, at', m, i);
    } else {
      SpreadGrows(ds, kept, cands[i]);
      at' := SelectFromFacts(ds, cands, m, i + 1, kept + [cands[i]], at + [i]);
      var r := SelectFrom(ds, cands, m, i, kept);
      assert r[|kept|] == cands[i];
      assert Settled(ds, r, cands, at', m, i);
    }
  }

  /** The selection is a subsequence of the candidates, no longer than m, and
  starts with the nearest; it keeps nothing that is nearer to an earlier pick
  than to the node; and whatever was looked at and turned down is covered. */
  lemma SelectionIsSpread(ds: Dataset, cands: seq<Result>, m: nat) returns (at: seq<nat>)
    requires IdsWithin(ds, cands)
    ensures var r := Select(ds, cands, m, false);
      && IdsWithin(ds, r) && |r| <= m && Spread(ds, r)
      && Subsequence(r, cands, at)
      && (cands != [] && m > 0 ==> r != [] && r[0] == cands[0])
      && (forall x :: 0 <= x < |cands| ==> Settled(ds, r, cands, at, m, x))
  {
    at := SelectFromFacts(ds, cands, m, 0, [], []);
    if cands != [] && m > 0 {
      assert !Covered(ds, [], cands[0]);
      var rest := SelectFromFacts(ds, cands, m, 1, [cands[0]], [0]);
      assert [] + [cands[0]] == [cands[0]];
    }
  }

  lemma {:induction false} SpreadIsKept(ds: Dataset, r: seq<Result>, m: nat, i: nat)
    requires IdsWithin(ds, r) && Spread(ds, r) && |r| <= m && i <= |r|
    ensures SelectFrom(ds, r, m, i, r[..i]) == r
    decreases |r| - i
  {
    if i < |r| {
      assert !Covered(ds, r[..i], r[i]) by {
        forall j | 0 <= j < i ensures !Covers(ds, r[..i][j], r[i]) {
          assert !Covers(ds, r[j], r[i]);
        }
      }
      assert r[..i] + [r[i]] == r[..i + 1];
      SpreadIsKept(ds, r, m, i + 1);
    } else {
      assert r[..i] == r;
    }
  }

  /** Applied to its own output the selection changes nothing. */
  lemma SelectionIsStable(ds: Dataset, cands: seq<Result>, m: nat, nearestM: bool)
    requires IdsWithin(ds, cands)
    ensures IdsWithin(ds, Select(ds, cands, m, nearestM))
    ensures Select(ds, Select(ds, cands, m, nearestM), m, nearestM) == Select(ds, cands, m, nearestM)
  {
    if !nearestM {
      var at := SelectionIsSpread(ds, cands, m);
      SpreadIsKept(ds, Select(ds, cands, m, false), m, 0);
      assert Select(ds, cands, m, false)[..0] == [];
    }
  }

  // ---------- What building needs of either mode ----------

  function Ids(s: seq<Result>): (r: seq<nat>)
    ensures |r| == |s| && forall i :: 0 <= i < |s| ==> r[i] == s[i].id
  {
    seq(|s|, i requires 0 <= i < |s| => s[i].id)
  }

  ghost predicate NoRepeats(s: seq<nat>) {
    forall i, j :: 0 <= i < j < |s| ==> s[i] != s[j]
  }

  /** The IDs kept, whichever mode: some of the candidates' IDs, at most m of
  them, none twice if none was offered twice, and the nearest among them. */
  lemma SelectedIds(ds: Dataset, cands: seq<Result>, m: nat, nearestM: bool)
    requires IdsWithin(ds, cands)
    ensures var r := Ids(Select(ds, cands, m, nearestM));
      && |r| <= m
      && (forall x :: x in r ==> x in Ids(cands))
      && (NoRepeats(Ids(cands)) ==> NoRepeats(r))
      && (cands != [] && m > 0 ==> r != [] && r[0] == cands[0].id)
  {
    var sel := Select(ds, cands, m, nearestM);
    if nearestM {
      assert forall i :: 0 <= i < |sel| ==> sel[i] == cands[i] && Ids(sel)[i] == Ids(cands)[i];
    } else {
      var at := SelectionIsSpread(ds, cands, m);
      assert forall i :: 0 <= i < |sel| ==> Ids(sel)[i] == Ids(cands)[at[i]];
    }
  }

  // ---------- The selection, said without its loop ----------

  /** a is nearer to the owner than b, or as near and numbered lower. */
  ghost predicate Outranks(ds: Dataset, owner: nat, a: nat, b: nat)
    requires ds.Valid() && owner < ds.Len() && a < ds.Len() && b < ds.Len()
  {
    ds.Between(owner, a) < ds.Between(owner, b) || (ds.Between(owner, a) == ds.Between(owner, b) && a < b)
  }

  ghost predicate AllInRange(ds: Dataset, owner: nat, ids: seq<nat>) {
    ds.Valid() && owner < ds.Len() && forall i :: 0 <= i < |ids| ==> ids[i] < ds.Len()
  }

  /** x was dropped with reason: there are m that outrank it; or, with the
  heuristic, something kept that outranks it is nearer to it than the owner. */
  ghost predicate Dropped(ds: Dataset, owner: nat, r: seq<nat>, m: nat, nearestM: bool, x: nat)
    requires AllInRange(ds, owner, r) && x < ds.Len()
  {
    || (|r| == m && forall j :: 0 <= j < |r| ==> Outranks(ds, owner, r[j], x))
    || (!nearestM && exists j :: 0 <= j < |r| && Shadows(ds, owner, r[j], x))
  }

  /** y outranks x and is nearer to it than the owner. */
  ghost predicate Shadows(ds: Dataset, owner: nat, y: nat, x: nat)
    requires ds.Valid() && owner < ds.Len() && x < ds.Len() && y < ds.Len()
  {
    Outranks(ds, owner, y, x) && ds.Between(x, y) < ds.Between(owner, x)
  }

  /** r is what selecting at most m of `all` for the owner must give: some of them,
  in rank order; nothing dropped without reason; and with the heuristic nothing
  kept that is nearer to an earlier pick than to the owner. */
  ghost predicate IsSelection(ds: Dataset, owner: nat, all: seq<nat>, r: seq<nat>, m: nat, nearestM: bool) {
    && AllInRange(ds, owner, all) && AllInRange(ds, owner, r)
    && |r| <= m && (forall x :: x in r ==> x in all)
    && (forall j, l :: 0 <= j < l < |r| ==> !Outranks(ds, owner, r[l], r[j]))
    && (forall i :: 0 <= i < |all| && all[i] !in r ==> Dropped(ds, owner, r, m, nearestM, all[i]))
    && (!nearestM ==> forall j, l :: 0 <= j < l < |r| ==> ds.Between(r[l], r[j]) >= ds.Between(owner, r[l]))
  }

  /** Candidates in rank order, each at its distance from the owner. */
  ghost predicate RankedFor(ds: Dataset, owner: nat, s: seq<Result>) {
    && IdsWithin(ds, s) && owner < ds.Len() && Sorted(s)
    && forall i :: 0 <= i < |s| ==> s[i].dist == ds.Between(owner, s[i].id)
  }

  lemma EarlierOutranks(ds: Dataset, owner: nat, s: seq<Result>, i: nat, j: nat)
    requires RankedFor(ds, owner, s) && i < j < |s|
    ensures !Outranks(ds, owner, s[j].id, s[i].id)
    ensures s[i].id != s[j].id ==> Outranks(ds, owner, s[i].id, s[j].id)
  {
    assert !Before(s[j], s[i]);
  }

  lemma NearestIsSelection(ds: Dataset, owner: nat, s: seq<Result>, m: nat)
    requires RankedFor(ds, owner, s)
    ensures IsSelection(ds, owner, Ids(s), Ids(Select(ds, s, m, true)), m, true)
  {
    hide Outranks, Sorted;
    var all, r := Ids(s), Ids(Select(ds, s, m, true));
    assert forall j :: 0 <= j < |r| ==> r[j] == all[j];
    forall j, l | 0 <= j < l < |r| ensures !Outranks(ds, owner, r[l], r[j]) { EarlierOutranks(ds, owner, s, j, l); }
    forall i | 0 <= i < |all| && all[i] !in r ensures Dropped(ds, owner, r, m, true, all[i]) {
      assert i >= |r|;
      forall j | 0 <= j < |r| ensures Outranks(ds, owner, r[j], all[i]) { EarlierOutranks(ds, owner, s, j, i); }
    }
  }

  lemma HeuristicIsSelection(ds: Dataset, owner: nat, s: seq<Result>, m: nat)
    requires RankedFor(ds, owner, s)
    ensures IsSelection(ds, owner, Ids(s), Ids(Select(ds, s, m, false)), m, false)
  {
    hide Outranks, Sorted, Select, Covered;
    var at := SelectionIsSpread(ds, s, m);
    var sel := Select(ds, s, m, false);
    var all, r := Ids(s), Ids(sel);
    assert forall j :: 0 <= j < |r| ==> r[j] == all[at[j]];
    forall j, l | 0 <= j < l < |r|
      ensures !Outranks(ds, owner, r[l], r[j]) && ds.Between(r[l], r[j]) >= ds.Between(owner, r[l])
    {
      EarlierOutranks(ds, owner, s, at[j], at[l]);
      assert !Covers(ds, sel[j], sel[l]);
    }
    forall i | 0 <= i < |all| && all[i] !in r ensures Dropped(ds, owner, r, m, false, all[i]) {
      DroppedForReason(ds, owner, s, m, at, i);
    }
  }

  lemma DroppedForReason(ds: Dataset, owner: nat, s: seq<Result>, m: nat, at: seq<nat>, i: nat)
    requires RankedFor(ds, owner, s) && i < |s|
    requires var sel := Select(ds, s, m, false);
      && IdsWithin(ds, sel) && Subsequence(sel, s, at) && s[i].id !in Ids(sel) && Settled(ds, sel, s, at, m, i)
    ensures Dropped(ds, owner, Ids(Select(ds, s, m, false)), m, false, s[i].id)
  {
    hide Outranks, Sorted, Select;
    var sel := Select(ds, s, m, false);
    var r := Ids(sel);
    IdOfMember(sel, s[i]);
    if j :| 0 <= j < |sel| && at[j] < i && Covers(ds, sel[j], s[i]) {
      assert r[j] == s[at[j]].id;
      EarlierOutranks(ds, owner, s, at[j], i);
      assert Shadows(ds, owner, r[j], s[i].id);
    } else {
      forall j | 0 <= j < |r| ensures Outranks(ds, owner, r[j], s[i].id) {
        assert r[j] == s[at[j]].id && at[j] < i;
        EarlierOutranks(ds, owner, s, at[j], i);
      }
    }
  }

  lemma IdOfMember(s: seq<Result>, x: Result)
    ensures x in s ==> x.id in Ids(s)
  {
    if x in s {
      var j :| 0 <= j < |s| && s[j] == x;
      assert Ids(s)[j] == x.id;
    }
  }

  /** What `selectNeighbours` keeps of ranked candidates is a selection ... */
  lemma SelectIsSelection(ds: Dataset, owner: nat, s: seq<Result>, m: nat, nearestM: bool)
    requires RankedFor(ds, owner, s)
    ensures IsSelection(ds, owner, Ids(s), Ids(Select(ds, s, m, nearestM)), m, nearestM)
  {
    if nearestM { NearestIsSelection(ds, owner, s, m); } else { HeuristicIsSelection(ds, owner, s, m); }
  }

  lemma SamePrefix(r1: seq<nat>, r2: seq<nat>, k: nat)
    requires k <= |r1| && k <= |r2| && r1[..k] == r2[..k]
    ensures forall i :: 0 <= i < k ==> r1[i] == r2[i]
  {
    forall i | 0 <= i < k ensures r1[i] == r2[i] { assert r1[..k][i] == r2[..k][i]; }
  }

  /** A node another selection dropped is outranked by what that one has in its
  place, if the two agree before. */
  lemma DroppedIsOutranked(
      ds: Dataset, owner: nat, all: seq<nat>, r1: seq<nat>, r2: seq<nat>, m: nat, nearestM: bool, k: nat)
    requires IsSelection(ds, owner, all, r1, m, nearestM) && IsSelection(ds, owner, all, r2, m, nearestM)
    requires k < |r1| && k <= |r2| && r1[..k] == r2[..k] && Dropped(ds, owner, r2, m, nearestM, r1[k])
    ensures k < |r2| && Outranks(ds, owner, r2[k], r1[k])
  {
    SamePrefix(r1, r2, k);
    if !(|r2| == m && forall j :: 0 <= j < |r2| ==> Outranks(ds, owner, r2[j], r1[k])) {
      var j :| 0 <= j < |r2| && Shadows(ds, owner, r2[j], r1[k]);
      assert j >= k;
      assert j > k ==> !Outranks(ds, owner, r2[j], r2[k]);
    }
  }

  /** ... and there is only one: two lists that agree up to k go on alike. */
  lemma NoBetterPick(ds: Dataset, owner: nat, all: seq<nat>, r1: seq<nat>, r2: seq<nat>, m: nat, nearestM: bool, k: nat)
    requires IsSelection(ds, owner, all, r1, m, nearestM) && IsSelection(ds, owner, all, r2, m, nearestM)
    requires NoRepeats(r1) && k < |r1| && k <= |r2| && r1[..k] == r2[..k]
    ensures k < |r2| && !Outranks(ds, owner, r1[k], r2[k])
  {
    SamePrefix(r1, r2, k);
    var a := r1[k];
    assert a in r1;
    if a in r2 {
      var j :| 0 <= j < |r2| && r2[j] == a;
      assert j >= k;
      assert j > k ==> !Outranks(ds, owner, r2[j], r2[k]);
    } else {
      var i :| 0 <= i < |all| && all[i] == a;
      assert Dropped(ds, owner, r2, m, nearestM, all[i]);
      DroppedIsOutranked(ds, owner, all, r1, r2, m, nearestM, k);
    }
  }

  lemma {:induction false} SelectionsAgree(
      ds: Dataset, owner: nat, all: seq<nat>, r1: seq<nat>, r2: seq<nat>, m: nat, nearestM: bool, k: nat)
    requires IsSelection(ds, owner, all, r1, m, nearestM) && IsSelection(ds, owner, all, r2, m, nearestM)
    requires NoRepeats(r1) && NoRepeats(r2) && k <= |r1| && k <= |r2| && r1[..k] == r2[..k]
    ensures r1 == r2
    decreases |r1| - k
  {
    hide IsSelection, NoRepeats;
    if k < |r1| {
      NoBetterPick(ds, owner, all, r1, r2, m, nearestM, k);
      NoBetterPick(ds, owner, all, r2, r1, m, nearestM, k);
      SelectionsAreRanged(ds, owner, all, r1, m, nearestM);
      SelectionsAreRanged(ds, owner, all, r2, m, nearestM);
      assert r1[k] == r2[k];
      assert r1[..k + 1] == r1[..k] + [r1[k]] && r2[..k + 1] == r2[..k] + [r2[k]];
      SelectionsAgree(ds, owner, all, r1, r2, m, nearestM, k + 1);
    } else if k < |r2| {
      NoBetterPick(ds, owner, all, r2, r1, m, nearestM, k);
    } else {
      assert r1[..k] == r1 && r2[..k] == r2;
    }
  }

  lemma SelectionsAreRanged(ds: Dataset, owner: nat, all: seq<nat>, r: seq<nat>, m: nat, nearestM: bool)
    requires IsSelection(ds, owner, all, r, m, nearestM)
    ensures AllInRange(ds, owner, r)
  {}

  /** A selection without repeats is determined by what it is selected from. */
  lemma SelectionIsUnique(ds: Dataset, owner: nat, all: seq<nat>, r1: seq<nat>, r2: seq<nat>, m: nat, nearestM: bool)
    requires IsSelection(ds, owner, all, r1, m, nearestM) && IsSelection(ds, owner, all, r2, m, nearestM)
    requires NoRepeats(r1) && NoRepeats(r2)
    ensures r1 == r2
  {
    assert r1[..0] == r2[..0];
    SelectionsAgree(ds, owner, all, r1, r2, m, nearestM, 0);
  }
}
