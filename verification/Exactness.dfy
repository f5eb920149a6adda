/** A small index is exact: with at most MMax0 + 1 vectors no bottom-layer list
is ever pruned, so a sequential build leaves the bottom layer symmetric and in
one piece, and a query wide enough returns what exact search returns. */
module Exactness {
  import opened TopK
  import opened Graph
  import opened Heuristic
  import opened LayerSearch
  import opened Completeness
  import opened Descent
  import opened Build
  import opened BuildInvariant
  import opened Querying
  import opened FlatSearch

  // ---------- Counting ----------

  ghost function Elements(s: seq<nat>): (r: set<nat>) {
    set x | x in s
  }

  lemma {:induction false} NoRepeatsCount(s: seq<nat>)
    requires NoRepeats(s)
    ensures |Elements(s)| == |s|
  {
    if s != [] {
      var t, x := s[..|s| - 1], s[|s| - 1];
      NoRepeatsCount(t);
      assert Elements(s) == Elements(t) + {x};
      assert x !in t;
    }
  }

  /** A tidy list among the first n nodes leaves room for one more. */
  lemma RoomForOneMore(nbs: seq<nat>, a: nat, n: nat)
    requires NoRepeats(nbs) && a !in nbs && a < n && AllBelow(nbs, n)
    ensures |nbs| <= n - 1
  {
    NoRepeatsCount(nbs);
    assert Elements(nbs) <= Nodes(n) - {a};
    SubsetSize(Elements(nbs), Nodes(n) - {a});
  }

  // ---------- The bottom layer while building ----------

  ghost predicate Symmetric(adj: seq<seq<nat>>) {
    forall a, b :: 0 <= a < |adj| && 0 <= b < |adj| ==> (b in adj[a] <==> a in adj[b])
  }

  /** Every one of the first n nodes can be reached from node 0. */
  ghost predicate OnePiece(adj: seq<seq<nat>>, n: nat) {
    n <= |adj| && forall a :: 0 <= a < n ==> Reachable(adj, 0, a)
  }

  /** What inserting id does to the bottom layer when nothing is pruned. */
  ghost predicate Joined(old_: seq<seq<nat>>, new_: seq<seq<nat>>, id: nat, keep: seq<nat>) {
    && id < |old_| == |new_|
    && (forall a :: 0 <= a < |old_| ==>
          new_[a] == if a == id then keep else if a in keep then old_[a] + [id] else old_[a])
  }

  lemma JoinedSymmetric(o: seq<seq<nat>>, r: seq<seq<nat>>, id: nat, keep: seq<nat>)
    requires Joined(o, r, id, keep) && Symmetric(o)
    requires o[id] == [] && id !in keep
    ensures Symmetric(r)
  {
    forall a, b | 0 <= a < |r| && 0 <= b < |r| ensures b in r[a] <==> a in r[b] {
      assert b in o[a] <==> a in o[b];
      assert id !in o[a] && id !in o[b] by {
        assert id in o[a] <==> a in o[id];
        assert id in o[b] <==> b in o[id];
      }
    }
  }

  lemma PathGrows(o: seq<seq<nat>>, r: seq<seq<nat>>, a: nat, b: nat)
    requires |o| == |r| && Reachable(o, a, b)
    requires forall i :: 0 <= i < |o| ==> forall x :: x in o[i] ==> x in r[i]
    ensures Reachable(r, a, b)
  {
    var p :| PathBetween(o, a, b, p);
    assert PathBetween(r, a, b, p);
  }

  lemma JoinedOnePiece(o: seq<seq<nat>>, r: seq<seq<nat>>, id: nat, keep: seq<nat>, n: nat)
    requires Joined(o, r, id, keep) && o[id] == [] && n == id + 1 && n <= |o|
    requires OnePiece(o, id) && keep != [] && keep[0] < id
    ensures OnePiece(r, n)
  {
    forall a | 0 <= a < id ensures Reachable(r, 0, a) {
      PathGrows(o, r, 0, a);
    }
    assert keep[0] in keep;
    assert id in r[keep[0]];
    ReachableStep(r, 0, keep[0], id);
  }

  // ---------- No prune fires ----------

  /** The lists of ids[..i] have been linked, those of ids[i..] have not. */
  ghost predicate LinkedSoFar(l0: Links, l1: Links, ids: seq<nat>, i: nat, id: nat) {
    && SameShape(l0, l1) && i <= |ids|
    && (forall a :: 0 <= a < |l0| && Occupies(l0, a, 0) ==>
          l1[a][0] == if a in ids[..i] then l0[a][0] + [id] else l0[a][0])
  }

  ghost predicate RoomEverywhere(par: Params, links: Links, id: nat) {
    forall a :: 0 <= a < |links| && Occupies(links, a, 0) && a != id ==> |links[a][0]| + 1 <= par.CapAt(0)
  }

  lemma {:induction false} LinkAllUnpruned(
      ds: Dataset, par: Params, l0: Links, links: Links, ids: seq<nat>, i: nat, id: nat, r: Links)
    requires Buildable(ds, par, links) && i <= |ids| && ListWithin(links, ids, 0) && Occupies(links, id, 0)
    requires LinkedSoFar(l0, links, ids, i, id) && RoomEverywhere(par, l0, id)
    requires NoRepeats(ids) && id !in ids
    requires r == LinkAll(ds, par, links, ids, i, id, 0)
    ensures LinkedSoFar(l0, r, ids, |ids|, id)
    decreases |ids| - i
  {
    hide Linked, Prune;
    if i < |ids| {
      LinkStepKeeps(ds, par, links, ids[i], id, 0);
      var next := LinkStep(ds, par, links, ids[i], id, 0);
      LinkStepUnpruned(ds, par, l0, links, ids, i, id);
      LinkAllUnpruned(ds, par, l0, next, ids, i + 1, id, r);
    }
  }

  lemma LinkStepUnpruned(ds: Dataset, par: Params, l0: Links, links: Links, ids: seq<nat>, i: nat, id: nat)
    requires Buildable(ds, par, links) && i < |ids| && ListWithin(links, ids, 0) && Occupies(links, id, 0)
    requires LinkedSoFar(l0, links, ids, i, id) && RoomEverywhere(par, l0, id)
    requires NoRepeats(ids) && id !in ids
    ensures LinkedSoFar(l0, LinkStep(ds, par, links, ids[i], id, 0), ids, i + 1, id)
  {
    var o := ids[i];
    assert Occupies(links, o, 0);
    assert o !in ids[..i];
    assert o != id;
    assert links[o][0] == l0[o][0];
    var next := LinkStep(ds, par, links, o, id, 0);
    assert next[o][0] == links[o][0] + [id];
    assert ids[..i + 1] == ids[..i] + [o];
    forall a | 0 <= a < |l0| && Occupies(l0, a, 0)
      ensures next[a][0] == if a in ids[..i + 1] then l0[a][0] + [id] else l0[a][0]
    {
      assert Occupies(links, a, 0);
    }
  }

  /** Connecting the bottom layer, when every list has room. */
  lemma ConnectBottom(ds: Dataset, par: Params, links: Links, id: nat, ep: nat) returns (keep: seq<nat>)
    requires Buildable(ds, par, links) && Occupies(links, id, 0) && Occupies(links, ep, 0) && ep != id
    requires RoomEverywhere(par, links, id)
    ensures Joined(Layer(links, 0), Layer(ConnectLayer(ds, par, links, id, 0, ep).links, 0), id, keep)
    ensures keep != [] && id !in keep && ListWithin(links, keep, 0)
  {
    hide Found, Keep, LinkAll, Layer, SetList, Joined, LinkedSoFar;
    var found := Found(ds, par, links, id, 0, ep);
    FoundFacts(ds, par, links, id, 0, ep);
    keep := Keep(ds, par, found);
    KeepFacts(ds, par, found, id);
    KeepWithin(links, found, keep, 0);
    SetListKeepsWellLinked(links, id, 0, keep);
    var own := SetList(links, id, 0, keep);
    var r := LinkAll(ds, par, own, keep, 0, id, 0);
    OwnHasRoom(par, links, own, id, keep);
    LinkAllUnpruned(ds, par, own, own, keep, 0, id, r);
    LinkedIsJoined(links, own, r, id, keep);
  }

  lemma OwnHasRoom(par: Params, links: Links, own: Links, id: nat, keep: seq<nat>)
    requires Occupies(links, id, 0) && own == SetList(links, id, 0, keep) && RoomEverywhere(par, links, id)
    ensures RoomEverywhere(par, own, id) && LinkedSoFar(own, own, keep, 0, id)
  {
    assert keep[..0] == [];
    forall a | 0 <= a < |own| && Occupies(own, a, 0) && a != id ensures |own[a][0]| + 1 <= par.CapAt(0) {
      assert Occupies(links, a, 0);
    }
  }

  lemma LinkedIsJoined(links: Links, own: Links, r: Links, id: nat, keep: seq<nat>)
    requires Occupies(links, id, 0) && own == SetList(links, id, 0, keep)
    requires LinkedSoFar(own, r, keep, |keep|, id) && id !in keep && ListWithin(links, keep, 0)
    ensures Joined(Layer(links, 0), Layer(r, 0), id, keep)
  {
    assert keep[..|keep|] == keep;
    var o, n := Layer(links, 0), Layer(r, 0);
    forall a | 0 <= a < |o|
      ensures n[a] == if a == id then keep else if a in keep then o[a] + [id] else o[a]
    {
      assert forall j :: 0 <= j < |keep| ==> Occupies(links, keep[j], 0);
      if Occupies(links, a, 0) {
        assert Occupies(own, a, 0);
      } else {
        assert a !in keep;
      }
    }
  }

  lemma SameBottom(l1: Links, l2: Links, lc: nat)
    requires SameBut(l1, l2, lc) && lc > 0
    ensures Layer(l1, 0) == Layer(l2, 0)
  {
    forall a | 0 <= a < |l1| ensures Layer(l1, 0)[a] == Layer(l2, 0)[a] {
      if |l1[a]| > 0 { assert Occupies(l1, a, 0); }
    }
  }

  lemma RoomCarries(par: Params, l1: Links, l2: Links, lc: nat, id: nat)
    requires SameBut(l1, l2, lc) && lc > 0 && RoomEverywhere(par, l1, id)
    ensures RoomEverywhere(par, l2, id)
  {
    forall a | 0 <= a < |l2| && Occupies(l2, a, 0) && a != id ensures |l2[a][0]| + 1 <= par.CapAt(0) {
      assert Occupies(l1, a, 0);
    }
  }

  /** However many layers the new node takes part in, only the last step
  touches the bottom, and there it joins. */
  lemma {:induction false} ConnectDownJoins(
      ds: Dataset, par: Params, links: Links, id: nat, lc: nat, ep: nat, r: Placed)
    returns (keep: seq<nat>)
    requires Buildable(ds, par, links) && Occupies(links, id, lc) && Occupies(links, ep, lc)
    requires Tidy(par, links) && Untouched(links, id, lc) && ep != id && RoomEverywhere(par, links, id)
    requires r == ConnectDown(ds, par, links, id, lc, ep)
    ensures Joined(Layer(links, 0), Layer(r.links, 0), id, keep)
    ensures keep != [] && id !in keep && forall j :: 0 <= j < |keep| ==> Occupies(links, keep[j], 0)
    decreases lc
  {
    hide ConnectLayer, ConnectDown, Layer;
    if lc == 0 {
      var p := ConnectDownStep(ds, par, links, id, 0, ep);
      keep := ConnectBottom(ds, par, links, id, ep);
      assert ListWithin(links, keep, 0);
    } else {
      var p := ConnectUpperStep(ds, par, links, id, lc, ep);
      keep := ConnectDownJoins(ds, par, p.links, id, lc - 1, p.ep, r);
      assert forall j :: 0 <= j < |keep| ==> Occupies(p.links, keep[j], 0);
    }
  }

  /** A layer above the bottom leaves the bottom as it was. */
  lemma ConnectUpperStep(ds: Dataset, par: Params, links: Links, id: nat, lc: nat, ep: nat) returns (p: Placed)
    requires Buildable(ds, par, links) && Occupies(links, id, lc) && Occupies(links, ep, lc)
    requires Tidy(par, links) && Untouched(links, id, lc) && ep != id && lc > 0 && RoomEverywhere(par, links, id)
    ensures Buildable(ds, par, p.links) && Occupies(p.links, id, lc - 1) && Occupies(p.links, p.ep, lc - 1)
    ensures Tidy(par, p.links) && Untouched(p.links, id, lc - 1) && p.ep != id
    ensures ConnectDown(ds, par, links, id, lc, ep) == ConnectDown(ds, par, p.links, id, lc - 1, p.ep)
    ensures Layer(links, 0) == Layer(p.links, 0) && RoomEverywhere(par, p.links, id)
    ensures forall x: nat :: Occupies(p.links, x, 0) ==> Occupies(links, x, 0)
  {
    hide ConnectDown;
    p := ConnectStepTidy(ds, par, links, id, lc, ep);
    SameBottom(links, p.links, lc);
    RoomCarries(par, links, p.links, lc, id);
  }

  lemma PublishKeepsBottom(links: Links, id: nat, level: nat)
    requires id < |links| && links[id] == []
    ensures Layer(Publish(links, id, level), 0) == Layer(links, 0) && Layer(links, 0)[id] == []
  {}

  /** With nodes 0 to id-1 in place and few enough vectors, every list has room. */
  lemma PublishedRoom(par: Params, links: Links, levels: seq<nat>, id: nat, level: nat)
    requires WellLinked(links) && Tidy(par, links) && Drawn(links, levels, id) && id < |links|
    requires |links| <= par.mMax0 + 1
    ensures RoomEverywhere(par, Publish(links, id, level), id)
  {
    var p := Publish(links, id, level);
    forall a | 0 <= a < |p| && Occupies(p, a, 0) && a != id ensures |p[a][0]| + 1 <= par.CapAt(0) {
      assert Occupies(links, a, 0);
      var nbs := links[a][0];
      assert TidyList(par, a, 0, nbs);
      assert ListWithin(links, nbs, 0);
      forall j | 0 <= j < |nbs| ensures nbs[j] < id {
        assert Occupies(links, nbs[j], 0);
      }
      RoomForOneMore(nbs, a, id);
    }
  }

  lemma InsertJoins(ix: Index, levels: seq<nat>, id: nat, level: nat) returns (keep: seq<nat>)
    requires SequentialState(ix, id) && id < |ix.links| && ix.links[id] == [] && Drawn(ix.links, levels, id)
    requires |ix.links| <= ix.par.mMax0 + 1
    ensures Joined(Layer(ix.links, 0), Layer(InsertNode(ix, id, level).links, 0), id, keep)
    ensures keep != [] && id !in keep && forall j :: 0 <= j < |keep| ==> keep[j] < id
  {
    hide Tidy, Untouched, RoomEverywhere, Joined, Layer, EntryIsFirstTallest, ConnectDown;
    PublishKeepsWellLinked(ix.links, id, level);
    var links := Publish(ix.links, id, level);
    var ep := Down(links, ix.ds.From(ix.ds.vecs[id]), ix.entry, ix.maxLevel, level);
    EntryIsNotNew(ix, id, level);
    var start := if level > ix.maxLevel then ix.maxLevel else level;
    PublishUntouched(ix.par, ix.links, id, level, start);
    PublishedRoom(ix.par, ix.links, levels, id, level);
    PublishKeepsBottom(ix.links, id, level);
    keep := ConnectDownJoins(ix.ds, ix.par, links, id, start, ep, ConnectDown(ix.ds, ix.par, links, id, start, ep));
    forall j | 0 <= j < |keep| ensures keep[j] < id {
      assert Occupies(links, keep[j], 0);
      assert keep[j] in keep;
    }
  }

  lemma SeededSmall(ds: Dataset, par: Params, levels: seq<nat>)
    requires ds.Valid() && par.Valid() && |levels| == ds.Len() && 1 <= ds.Len()
    ensures Symmetric(Layer(Seeded(ds, par, levels[0]).links, 0))
    ensures OnePiece(Layer(Seeded(ds, par, levels[0]).links, 0), 1)
  {
    var adj := Layer(Seeded(ds, par, levels[0]).links, 0);
    assert forall a :: 0 <= a < |adj| ==> adj[a] == [];
    ReachableSelf(adj, 0);
  }

  lemma InsertKeepsSmall(ix: Index, levels: seq<nat>, n: nat, level: nat, r: Index)
    requires 2 <= n <= |ix.links| && SequentialState(ix, n - 1) && Drawn(ix.links, levels, n - 1)
    requires ix.links[n - 1] == [] && |ix.links| <= ix.par.mMax0 + 1
    requires Symmetric(Layer(ix.links, 0)) && OnePiece(Layer(ix.links, 0), n - 1)
    requires r == InsertNode(ix, n - 1, level)
    ensures Symmetric(Layer(r.links, 0)) && OnePiece(Layer(r.links, 0), n)
  {
    hide *;
    var keep := InsertJoins(ix, levels, n - 1, level);
    PublishKeepsBottom(ix.links, n - 1, level);
    var o, m := Layer(ix.links, 0), Layer(r.links, 0);
    JoinedSymmetric(o, m, n - 1, keep);
    JoinedOnePiece(o, m, n - 1, keep, n);
  }

  /** With at most MMax0 + 1 vectors a sequential build keeps the bottom layer
  symmetric and in one piece after every insertion. */
  lemma {:induction false} SmallBuild(ds: Dataset, par: Params, levels: seq<nat>, n: nat, ix: Index)
    requires ds.Valid() && par.Valid() && |levels| == ds.Len() && 1 <= n <= ds.Len()
    requires ds.Len() <= par.mMax0 + 1
    requires ix == BuildUpTo(ds, par, levels, n)
    ensures Symmetric(Layer(ix.links, 0)) && OnePiece(Layer(ix.links, 0), n)
    decreases n
  {
    hide *;
    if n == 1 {
      BuildOne(ds, par, levels);
      SeededSmall(ds, par, levels);
    } else {
      var prev := BuildStep(ds, par, levels, n);
      SmallBuild(ds, par, levels, n - 1, prev);
      InsertKeepsSmall(prev, levels, n, levels[n - 1], ix);
    }
  }

  // ---------- A complete search ----------

  lemma {:induction false} PathReversed(adj: seq<seq<nat>>, p: seq<nat>)
    requires Symmetric(adj) && IsPath(adj, p)
    ensures Reachable(adj, p[|p| - 1], p[0])
  {
    var n := |p| - 1;
    if n == 0 {
      ReachableSelf(adj, p[0]);
    } else {
      var t := p[1..];
      assert forall i :: 0 <= i < |t| - 1 ==> t[i + 1] in adj[t[i]] by {
        forall i | 0 <= i < |t| - 1 ensures t[i + 1] in adj[t[i]] {
          assert p[(i + 1) + 1] in adj[p[i + 1]];
        }
      }
      PathReversed(adj, t);
      assert p[0 + 1] in adj[p[0]];
      ReachableStep(adj, p[n], p[1], p[0]);
    }
  }

  lemma {:induction false} ReachableTrans(adj: seq<seq<nat>>, a: nat, p: seq<nat>)
    requires IsPath(adj, p) && Reachable(adj, a, p[0])
    ensures Reachable(adj, a, p[|p| - 1])
  {
    var n := |p| - 1;
    if n > 0 {
      ReachableTrans(adj, a, p[..n]);
      assert p[(n - 1) + 1] in adj[p[n - 1]];
      ReachableStep(adj, a, p[n - 1], p[n]);
    }
  }

  /** In a symmetric layer in one piece everything reaches everything. */
  lemma AnyReachesAny(adj: seq<seq<nat>>, a: nat, b: nat)
    requires Symmetric(adj) && OnePiece(adj, |adj|) && a < |adj| && b < |adj|
    ensures Reachable(adj, a, b)
  {
    assert Reachable(adj, 0, a) && Reachable(adj, 0, b);
    var p :| PathBetween(adj, 0, a, p);
    PathReversed(adj, p);
    var t :| PathBetween(adj, 0, b, t);
    ReachableTrans(adj, a, t);
  }

  lemma {:induction false} DistinctPerNode(r: seq<Result>, n: nat)
    requires DistinctIds(r) && forall i :: 0 <= i < |r| ==> r[i].id < n
    ensures |r| <= n
    ensures |r| == n ==> forall v: nat :: v < n ==> v in Ids(r)
  {
    assert NoRepeats(Ids(r));
    NoRepeatsCount(Ids(r));
    var e := Elements(Ids(r));
    assert e <= Nodes(n);
    SubsetSize(e, Nodes(n));
    if |r| == n {
      SameSizeSubset(e, Nodes(n));
      forall v: nat | v < n ensures v in Ids(r) {
        assert v in Nodes(n) && v in e;
      }
    }
  }

  lemma SameSizeSubset(a: set<nat>, b: set<nat>)
    requires a <= b && |a| == |b|
    ensures a == b
  {
    forall x | x in b ensures x in a {
      if x !in a {
        SubsetSize(a, b - {x});
      }
    }
  }

  /** A search that may hold every node, in a layer where every node is
  reachable, returns them all. */
  lemma FullWidthFindsAll(adj: seq<seq<nat>>, q: Query, ep: nat, v: nat)
    requires InRange(adj, |q.dist|) && ep < |q.dist| && |q.dist| <= q.ef && q.skip == -1
    requires forall x: nat :: x < |adj| ==> Reachable(adj, ep, x)
    requires v < |q.dist|
    ensures Scored(q, v) in Search(adj, q, ep)
  {
    var r := Search(adj, q, ep);
    SearchAnswers(adj, q, ep);
    if |r| < |q.dist| {
      UnfilledIsReachableSet(adj, q, ep, v);
    } else {
      DistinctPerNode(r, |q.dist|);
      assert v in Ids(r);
      var i :| 0 <= i < |r| && Ids(r)[i] == v;
      assert r[i] == Scored(q, v);
    }
  }

  lemma {:induction false} DistinctMultiset(s: seq<Result>, x: Result)
    requires DistinctIds(s)
    ensures multiset(s)[x] == if x in s then 1 else 0
  {
    if s != [] {
      var t, y := s[..|s| - 1], s[|s| - 1];
      assert s == t + [y];
      DistinctMultiset(t, x);
    }
  }

  /** A sorted list without repeats is the sort of any other listing of it. */
  lemma SameMembersSorted(r: seq<Result>, all: seq<Result>)
    requires Sorted(r) && DistinctIds(r) && DistinctIds(all) && forall x :: x in r <==> x in all
    ensures r == SortAll(all)
  {
    forall x ensures multiset(r)[x] == multiset(all)[x] {
      DistinctMultiset(r, x);
      DistinctMultiset(all, x);
    }
    assert multiset(r) == multiset(all);
    SortAllSorts(all);
    SortedUnique(r, SortAll(all));
  }

  /** ... and then it is the exact answer over all nodes. */
  lemma FullWidthIsExact(adj: seq<seq<nat>>, q: Query, ep: nat)
    requires InRange(adj, |q.dist|) && ep < |q.dist| && |q.dist| <= q.ef && q.skip == -1
    requires forall x: nat :: x < |adj| ==> Reachable(adj, ep, x)
    ensures Search(adj, q, ep) == SortAll(AllScored(q.dist))
  {
    hide Search, SortAll;
    var r, all := Search(adj, q, ep), AllScored(q.dist);
    SearchAnswers(adj, q, ep);
    forall x ensures x in r <==> x in all {
      if x in all { FullWidthFindsAll(adj, q, ep, x.id); }
      if x in r { assert all[x.id] == x; }
    }
    SameMembersSorted(r, all);
  }

  /** The first n nodes that are in c, scored, in ID order. */
  ghost function ScoredAmong(dist: seq<real>, c: set<nat>, n: nat): (r: seq<Result>)
    requires n <= |dist|
  {
    if n == 0 then [] else
      ScoredAmong(dist, c, n - 1) + if n - 1 in c then [Result(n - 1, dist[n - 1])] else []
  }

  lemma {:induction false} AmongMembers(dist: seq<real>, c: set<nat>, n: nat)
    requires n <= |dist|
    ensures DistinctIds(ScoredAmong(dist, c, n))
    ensures forall x :: x in ScoredAmong(dist, c, n) <==> x.id < n && x.id in c && x == Result(x.id, dist[x.id])
  {
    if n > 0 {
      AmongMembers(dist, c, n - 1);
      var before := ScoredAmong(dist, c, n - 1);
      forall i | 0 <= i < |before| ensures before[i].id < n - 1 { assert before[i] in before; }
    }
  }

  /** A search that does not fill up answers exactly over what it can reach. */
  lemma UnfilledIsExact(adj: seq<seq<nat>>, q: Query, ep: nat)
    requires InRange(adj, |q.dist|) && ep < |q.dist| && 1 <= q.ef && q.skip == -1
    requires |Search(adj, q, ep)| < Width(q.ef, |q.dist|)
    ensures Search(adj, q, ep) == SortAll(ScoredAmong(q.dist, ReachableFrom(adj, ep), |q.dist|))
  {
    hide Search, SortAll, Reachable;
    var r, c := Search(adj, q, ep), ReachableFrom(adj, ep);
    var all := ScoredAmong(q.dist, c, |q.dist|);
    SearchAnswers(adj, q, ep);
    AmongMembers(q.dist, c, |q.dist|);
    forall x: Result | x.id < |q.dist| ensures x in r <==> x in all {
      UnfilledIsReachableSet(adj, q, ep, x.id);
    }
    SameMembersSorted(r, all);
  }

  /** So a query whose bottom search does not fill up gets exactly the k best of
  the nodes its landing point leads to. */
  lemma UnfilledQueryIsExact(ix: Index, efSearch: int, q: seq<real>, k: nat)
    requires Sound(ix) && |q| == ix.ds.dim && 1 <= k
    requires |BottomSearch(ix, ix.ds.From(q), QueryWidth(efSearch, k))|
           < Width(QueryWidth(efSearch, k), |ix.links|)
    ensures var dist := ix.ds.From(q);
      Knn(ix, efSearch, q, k)
      == Hits(Take(SortAll(ScoredAmong(dist, ReachableFrom(Bottom(ix), Landing(ix, dist)), |dist|)), k))
  {
    hide Search, SortAll, ReachableFrom, ScoredAmong, Bottom, Landing;
    var dist := ix.ds.From(q);
    UnfilledIsExact(Bottom(ix), Query(dist, QueryWidth(efSearch, k), -1), Landing(ix, dist));
  }

  /** Wherever a query lands in a small index, it can reach every node. */
  lemma SmallIndexIsOnePiece(ds: Dataset, par: Params, levels: seq<nat>, ix: Index, ep: nat, x: nat)
    requires ds.Valid() && par.Valid() && |levels| == ds.Len() && 1 <= ds.Len() <= par.mMax0 + 1
    requires ix == BuildUpTo(ds, par, levels, ds.Len()) && ep < |ix.links| && x < |ix.links|
    ensures Reachable(Layer(ix.links, 0), ep, x)
  {
    hide BuildUpTo, Layer, Symmetric, OnePiece;
    SmallBuild(ds, par, levels, ds.Len(), ix);
    AnyReachesAny(Layer(ix.links, 0), ep, x);
  }

  lemma BuiltIsSound(ds: Dataset, par: Params, levels: seq<nat>, ix: Index)
    requires ds.Valid() && par.Valid() && |levels| == ds.Len() && 1 <= ds.Len()
    requires ix == BuildUpTo(ds, par, levels, ds.Len())
    ensures Sound(ix) && ix.ds == ds && |ix.links| == ds.Len()
  {
    hide BuildUpTo;
  }

  ghost predicate ReachesAll(ix: Index, ep: nat)
    requires Sound(ix)
  {
    forall x: nat :: x < |Bottom(ix)| ==> Reachable(Bottom(ix), ep, x)
  }

  lemma ReachingAllIsExact(ix: Index, efSearch: int, q: seq<real>, k: int)
    requires Sound(ix) && |ix.links| == ix.ds.Len() && (ix.ds.Len() <= efSearch || ix.ds.Len() <= k)
    requires forall ep: nat :: ep < |ix.links| ==> ReachesAll(ix, ep)
    ensures Knn(ix, efSearch, q, k) == Nearest(ix.ds, q, k)
  {
    hide SortAll, AllScored, Search, Layer, Reachable, Bottom, WellLinked, Down;
    if |q| == ix.ds.dim && k >= 1 {
      var dist := ix.ds.From(q);
      var ef, ep := QueryWidth(efSearch, k), Landing(ix, dist);
      assert ReachesAll(ix, ep);
      FullWidthIsExact(Bottom(ix), Query(dist, ef, -1), ep);
    }
  }

  lemma SmallLandingReachesAll(ds: Dataset, par: Params, levels: seq<nat>, ix: Index, ep: nat)
    requires ds.Valid() && par.Valid() && |levels| == ds.Len() && 1 <= ds.Len() <= par.mMax0 + 1
    requires ix == BuildUpTo(ds, par, levels, ds.Len()) && ep < |ix.links|
    ensures Sound(ix) && ReachesAll(ix, ep)
  {
    hide BuildUpTo, Reachable, Tidy, EntryIsFirstTallest;
    forall x: nat | x < |ix.links| ensures Reachable(Bottom(ix), ep, x) {
      SmallIndexIsOnePiece(ds, par, levels, ix, ep, x);
    }
  }

  /** End to end: for at most MMax0 + 1 vectors, whatever levels were drawn, a
  sequential build answers every query exactly as exact search does, IDs and
  distances both, once the query's width covers the index. */
  lemma SmallIndexIsExact(ds: Dataset, par: Params, levels: seq<nat>, efSearch: int, q: seq<real>, k: int)
    requires ds.Valid() && par.Valid() && |levels| == ds.Len() && 1 <= ds.Len() <= par.mMax0 + 1
    requires ds.Len() <= efSearch || ds.Len() <= k
    ensures Knn(BuildUpTo(ds, par, levels, ds.Len()), efSearch, q, k) == Nearest(ds, q, k)
  {
    hide *;
    var ix := BuildUpTo(ds, par, levels, ds.Len());
    BuiltIsSound(ds, par, levels, ix);
    forall ep: nat | ep < |ix.links| ensures ReachesAll(ix, ep) {
      SmallLandingReachesAll(ds, par, levels, ix, ep);
    }
    ReachingAllIsExact(ix, efSearch, q, k);
  }
}
