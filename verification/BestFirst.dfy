/** The order in which a layer search works, said without its queues: it always
expands the best node seen and not yet expanded, never one that enough others
beat, and stops when nothing seen is left worth expanding. `searchLayer` in
`internal/index/hnsw.go`. */
module BestFirst {
  import opened TopK
  import opened LayerSearch
  import opened Completeness

  // ---------- The order, declared ----------

  ghost function Listed(nbs: seq<nat>): (s: set<nat>) {
    set x | x in nbs
  }

  /** Seen once these nodes have been expanded, in this order, from ep. */
  ghost function SeenAfter(adj: seq<seq<nat>>, ep: nat, order: seq<nat>): (s: set<nat>)
    requires forall i :: 0 <= i < |order| ==> order[i] < |adj|
  {
    if order == [] then {ep} else
      SeenAfter(adj, ep, order[..|order| - 1]) + Listed(adj[order[|order| - 1]])
  }

  /** Those of a set, the skipped node left out, that are closer than d. */
  ghost function CloserIn(dist: seq<real>, skip: int, s: set<nat>, d: real): (c: set<nat>) {
    set v | v in s && v < |dist| && v != skip && dist[v] < d
  }

  /** Those that are no farther than d. */
  ghost function AsCloseIn(dist: seq<real>, skip: int, s: set<nat>, d: real): (c: set<nat>) {
    set v | v in s && v < |dist| && v != skip && dist[v] <= d
  }

  ghost predicate Outranks(dist: seq<real>, a: nat, b: nat)
    requires a < |dist| && b < |dist|
  {
    dist[a] < dist[b] || (dist[a] == dist[b] && a < b)
  }

  /** u can be passed over: ef nodes seen are at least as close. */
  ghost predicate Hopeless(q: Query, seen: set<nat>, u: nat)
    requires u < |q.dist|
  {
    |AsCloseIn(q.dist, q.skip, seen, q.dist[u])| >= q.ef
  }

  /** After expanding those before, v is the right one to expand: seen and not yet
  expanded, with fewer than ef nodes seen that are closer, and no other such node
  outranks it but for the hopeless ones. */
  ghost predicate RightNext(adj: seq<seq<nat>>, q: Query, ep: nat, before: seq<nat>, v: nat)
    requires forall i :: 0 <= i < |before| ==> before[i] < |adj|
  {
    var seen := SeenAfter(adj, ep, before);
    && v < |q.dist| && v in seen && v !in before
    && |CloserIn(q.dist, q.skip, seen, q.dist[v])| < q.ef
    && forall u: nat :: u in seen && u < |q.dist| && u !in before && u != v ==>
         Outranks(q.dist, v, u) || Hopeless(q, seen, u)
  }

  ghost predicate BestFirstOrder(adj: seq<seq<nat>>, q: Query, ep: nat, order: seq<nat>) {
    && (forall i :: 0 <= i < |order| ==> order[i] < |adj|)
    && (forall i :: 0 <= i < |order| ==> RightNext(adj, q, ep, order[..i], order[i]))
  }

  // ---------- The state that goes with it ----------

  ghost predicate InQueue(s: State, q: Query, order: seq<nat>, v: nat)
    requires v < |q.dist|
  {
    v in order || Scored(q, v) in s.cand || Beaten(s, q, q.dist[v])
  }

  /** Every node seen has been expanded, is queued, or was turned away; nothing
  queued has been expanded. */
  ghost predicate Tracks(s: State, q: Query, order: seq<nat>) {
    && (forall v: nat :: v in s.seen && v < |q.dist| ==> InQueue(s, q, order, v))
    && (forall i :: 0 <= i < |s.cand| ==> s.cand[i].id !in order)
    && (forall i :: 0 <= i < |order| ==> order[i] in s.seen)
  }

  lemma {:induction false} IdSetSize(r: seq<Result>)
    requires DistinctIds(r)
    ensures |set i | 0 <= i < |r| :: r[i].id| == |r|
  {
    var all := set i | 0 <= i < |r| :: r[i].id;
    if r == [] {
      assert all == {};
    } else {
      var n := |r| - 1;
      IdSetSize(r[..n]);
      var init := set i | 0 <= i < |r[..n]| :: r[..n][i].id;
      assert all == init + {r[n].id};
      assert r[n].id !in init;
    }
  }

  lemma {:induction false} Subset(a: set<nat>, b: set<nat>)
    requires a <= b
    ensures |a| <= |b|
  {
    if a != {} {
      var x :| x in a;
      Subset(a - {x}, b - {x});
    }
  }

  /** Whoever is beaten is hopeless. */
  lemma BeatenIsHopeless(s: State, q: Query, u: nat)
    requires WellFormed(s, q) && u < |q.dist| && Beaten(s, q, q.dist[u])
    ensures Hopeless(q, s.seen, u)
  {
    var ids := set i | 0 <= i < |s.res| :: s.res[i].id;
    IdSetSize(s.res);
    forall x | x in ids ensures x in AsCloseIn(q.dist, q.skip, s.seen, q.dist[u]) {
      var i :| 0 <= i < |s.res| && s.res[i].id == x;
      NoFartherThanLast(s, q, i);
    }
    Subset(ids, AsCloseIn(q.dist, q.skip, s.seen, q.dist[u]));
  }

  lemma NoFartherThanLast(s: State, q: Query, i: nat)
    requires WellFormed(s, q) && i < |s.res|
    ensures s.res[i].id in s.seen && s.res[i].id < |q.dist| && s.res[i].id != q.skip
    ensures s.res[i].dist == q.dist[s.res[i].id] <= s.res[|s.res| - 1].dist
  {
    if i < |s.res| - 1 { assert !Before(s.res[|s.res| - 1], s.res[i]); }
  }

  /** The candidate taken next has fewer than ef closer nodes. */
  lemma NextIsPromising(s: State, q: Query, adj: seq<seq<nat>>)
    requires WellFormed(s, q) && |adj| == |q.dist| && Accounted(s, q, adj, -1) && !Done(s, q)
    ensures |CloserIn(q.dist, q.skip, s.seen, s.cand[0].dist)| < q.ef
  {
    var d := s.cand[0].dist;
    var closer := CloserIn(q.dist, q.skip, s.seen, d);
    var ids := set i | 0 <= i < |s.res| :: s.res[i].id;
    IdSetSize(s.res);
    forall x | x in closer ensures x in ids && (Full(s, q) ==> x != s.res[q.ef - 1].id) {
      assert Kept(s, q, x);
      var i :| 0 <= i < |s.res| && s.res[i] == Scored(q, x);
    }
    if Full(s, q) {
      Subset(closer, ids - {s.res[q.ef - 1].id});
    } else {
      Subset(closer, ids);
    }
  }

  lemma NextIsRight(s: State, q: Query, adj: seq<seq<nat>>, ep: nat, order: seq<nat>)
    requires WellFormed(s, q) && |adj| == |q.dist| && Accounted(s, q, adj, -1) && !Done(s, q)
    requires Tracks(s, q, order) && (forall i :: 0 <= i < |order| ==> order[i] < |adj|)
    requires s.seen == SeenAfter(adj, ep, order)
    ensures RightNext(adj, q, ep, order, s.cand[0].id)
  {
    hide SeenAfter, Outranks, Hopeless, CloserIn;
    var c := s.cand[0];
    NextIsPromising(s, q, adj);
    forall u: nat | u in s.seen && u < |q.dist| && u !in order && u != c.id
      ensures Outranks(q.dist, c.id, u) || Hopeless(q, s.seen, u)
    {
      assert InQueue(s, q, order, u);
      if Beaten(s, q, q.dist[u]) {
        BeatenIsHopeless(s, q, u);
      } else {
        var j :| 0 <= j < |s.cand| && s.cand[j] == Scored(q, u);
        HeadOutranks(s, q, j);
      }
    }
  }

  lemma HeadOutranks(s: State, q: Query, j: nat)
    requires WellFormed(s, q) && 0 < j < |s.cand|
    ensures s.cand[0].id < |q.dist| && s.cand[j].id < |q.dist| && Outranks(q.dist, s.cand[0].id, s.cand[j].id)
  {
    assert !Before(s.cand[j], s.cand[0]);
    assert s.cand[0].id != s.cand[j].id;
  }

  // ---------- One expansion ----------

  lemma VisitKeepsQueue(s: State, q: Query, v: nat, order: seq<nat>, u: nat)
    requires WellFormed(s, q) && v < |q.dist| && u < |q.dist|
    requires if u == v then v !in s.seen || InQueue(s, q, order, u) else InQueue(s, q, order, u)
    ensures InQueue(Visit(s, q, v), q, order, u)
  {
    InsertContents(s.cand, Scored(q, v));
    if Beaten(s, q, q.dist[u]) { VisitKeepsBeaten(s, q, v, q.dist[u]); }
  }

  ghost predicate AllQueued(s: State, q: Query, order: seq<nat>) {
    forall v: nat :: v in s.seen && v < |q.dist| ==> InQueue(s, q, order, v)
  }

  lemma {:induction false} VisitFromKeepsQueue(s: State, q: Query, nbs: seq<nat>, i: nat, order: seq<nat>)
    requires WellFormed(s, q) && AllQueued(s, q, order)
    requires i <= |nbs| && forall j :: 0 <= j < |nbs| ==> nbs[j] < |q.dist|
    ensures AllQueued(VisitFrom(s, q, nbs, i), q, order)
    decreases |nbs| - i
  {
    hide Visit, InQueue, WellFormed;
    if i < |nbs| {
      VisitKeepsWellFormed(s, q, nbs[i]);
      var t := Visit(s, q, nbs[i]);
      VisitAddsOne(s, q, nbs[i]);
      forall u: nat | u in t.seen && u < |q.dist| ensures InQueue(t, q, order, u) {
        VisitKeepsQueue(s, q, nbs[i], order, u);
      }
      VisitFromKeepsQueue(t, q, nbs, i + 1, order);
    }
  }

  lemma VisitAddsOne(s: State, q: Query, v: nat)
    requires v < |q.dist|
    ensures Visit(s, q, v).seen == s.seen + {v}
    ensures forall i :: 0 <= i < |Visit(s, q, v).cand| ==>
      Visit(s, q, v).cand[i] in s.cand || (Visit(s, q, v).cand[i].id == v && v !in s.seen)
  {
    InsertContents(s.cand, Scored(q, v));
  }

  /** What a whole list adds to what is seen and to the queue. */
  lemma {:induction false} VisitFromAdds(s: State, q: Query, nbs: seq<nat>, i: nat)
    requires i <= |nbs| && forall j :: 0 <= j < |nbs| ==> nbs[j] < |q.dist|
    ensures VisitFrom(s, q, nbs, i).seen == s.seen + Listed(nbs[i..])
    ensures forall r :: r in VisitFrom(s, q, nbs, i).cand ==> r in s.cand || r.id !in s.seen
    decreases |nbs| - i
  {
    hide Visit;
    if i < |nbs| {
      VisitAddsOne(s, q, nbs[i]);
      VisitFromAdds(Visit(s, q, nbs[i]), q, nbs, i + 1);
      assert nbs[i..] == [nbs[i]] + nbs[i + 1..];
      assert Listed(nbs[i..]) == {nbs[i]} + Listed(nbs[i + 1..]);
      forall r | r in VisitFrom(s, q, nbs, i).cand ensures r in s.cand || r.id !in s.seen {
        if r in Visit(s, q, nbs[i]).cand {
          var k :| 0 <= k < |Visit(s, q, nbs[i]).cand| && Visit(s, q, nbs[i]).cand[k] == r;
        }
      }
    }
  }

  lemma ExpandTracks(s: State, q: Query, adj: seq<seq<nat>>, ep: nat, order: seq<nat>)
    requires WellFormed(s, q) && InRange(adj, |q.dist|) && s.cand != []
    requires Tracks(s, q, order) && (forall i :: 0 <= i < |order| ==> order[i] < |adj|)
    requires s.seen == SeenAfter(adj, ep, order)
    ensures var v := s.cand[0].id;
      var t := Expand(s, q, adj[v]);
      Tracks(t, q, order + [v]) && t.seen == SeenAfter(adj, ep, order + [v])
  {
    hide WellFormed, InQueue;
    PopKeepsWellFormed(s, q);
    HeadLeaves(s, q);
    var v, p := s.cand[0].id, s.(cand := s.cand[1..]);
    var more, nbs := order + [v], adj[v];
    forall u: nat | u in p.seen && u < |q.dist| ensures InQueue(p, q, more, u) {
      assert InQueue(s, q, order, u);
      PopKeepsQueue(s, q, order, u);
    }
    VisitFromKeepsQueue(p, q, nbs, 0, more);
    VisitFromAdds(p, q, nbs, 0);
    assert nbs[0..] == nbs && more[..|more| - 1] == order;
    var t := Expand(s, q, nbs);
    forall i | 0 <= i < |t.cand| ensures t.cand[i].id !in more {
      assert t.cand[i] in t.cand;
      if t.cand[i] in p.cand {
        var k :| 0 <= k < |p.cand| && p.cand[k] == t.cand[i];
        assert p.cand[k] == s.cand[k + 1];
      }
    }
  }

  lemma HeadLeaves(s: State, q: Query)
    requires WellFormed(s, q) && s.cand != []
    ensures s.cand[0].id < |q.dist| && s.cand[0].id in s.seen && s.cand[0] == Scored(q, s.cand[0].id)
    ensures forall k :: 0 < k < |s.cand| ==> s.cand[k].id != s.cand[0].id
  {}

  lemma PopKeepsQueue(s: State, q: Query, order: seq<nat>, u: nat)
    requires WellFormed(s, q) && s.cand != [] && u < |q.dist| && InQueue(s, q, order, u)
    ensures InQueue(s.(cand := s.cand[1..]), q, order + [s.cand[0].id], u)
  {
    assert s.cand == [s.cand[0]] + s.cand[1..];
  }

  // ---------- The whole run ----------

  lemma {:induction false} RunIsBestFirst(s: State, q: Query, adj: seq<seq<nat>>, ep: nat, order: seq<nat>)
    returns (all: seq<nat>)
    requires WellFormed(s, q) && InRange(adj, |q.dist|) && Accounted(s, q, adj, -1)
    requires Tracks(s, q, order) && BestFirstOrder(adj, q, ep, order) && s.seen == SeenAfter(adj, ep, order)
    ensures BestFirstOrder(adj, q, ep, all)
    ensures Tracks(Run(s, q, adj), q, all) && Run(s, q, adj).seen == SeenAfter(adj, ep, all)
    decreases Work(s, |q.dist|)
  {
    hide Tracks, Accounted, WellFormed, RightNext, SeenAfter, Expand;
    all := order;
    if !Done(s, q) {
      var v := s.cand[0].id;
      HeadLeaves(s, q);
      NextIsRight(s, q, adj, ep, order);
      ExpandTracks(s, q, adj, ep, order);
      ExpandKeepsWellFormed(s, q, adj[v]);
      ExpandWork(s, q, adj[v]);
      ExpandKeepsAccounted(s, q, adj);
      OrderGrows(adj, q, ep, order, v);
      all := RunIsBestFirst(Expand(s, q, adj[v]), q, adj, ep, order + [v]);
    }
  }

  lemma OrderGrows(adj: seq<seq<nat>>, q: Query, ep: nat, order: seq<nat>, v: nat)
    requires BestFirstOrder(adj, q, ep, order) && RightNext(adj, q, ep, order, v) && v < |adj|
    ensures BestFirstOrder(adj, q, ep, order + [v])
  {
    hide RightNext;
    var more := order + [v];
    forall i | 0 <= i < |more| ensures RightNext(adj, q, ep, more[..i], more[i]) {
      if i < |order| { assert more[..i] == order[..i]; } else { assert more[..i] == order; }
    }
  }

  /** A layer search, declared: there is an order of expansions, each the right one
  to make next, after which nothing that has been seen and not expanded is worth
  expanding; and the results are the ef closest of what has been seen, the skipped
  node left out. A width beyond the number of nodes counts as that number. */
  lemma SearchIsBestFirst(adj: seq<seq<nat>>, q: Query, ep: nat) returns (order: seq<nat>)
    requires InRange(adj, |q.dist|) && ep < |q.dist| && 1 <= q.ef
    ensures var w := q.(ef := if q.ef > |q.dist| then |q.dist| else q.ef);
      && BestFirstOrder(adj, w, ep, order)
      && (forall u: nat :: u in SeenAfter(adj, ep, order) && u < |q.dist| && u !in order ==>
            Hopeless(w, SeenAfter(adj, ep, order), u))
      && ClosestOf(w, SeenAfter(adj, ep, order), Search(adj, q, ep))
  {
    hide Tracks, Accounted, WellFormed, SeenAfter, RightNext, Run, Start, BestFirstOrder;
    var w := q.(ef := if q.ef > |q.dist| then |q.dist| else q.ef);
    var s := Start(w, ep);
    EntryExpanded(w, adj, ep);
    StartTracks(w, adj, ep);
    order := RunIsBestFirst(s, w, adj, ep, []);
    var r := Run(s, w, adj);
    forall u: nat | u in r.seen && u < |q.dist| && u !in order ensures Hopeless(w, r.seen, u) {
      LeftIsBeaten(r, w, order, u);
      BeatenIsHopeless(r, w, u);
    }
    ResultsAreClosest(r, w, adj);
  }

  lemma StartTracks(q: Query, adj: seq<seq<nat>>, ep: nat)
    requires |adj| == |q.dist| && ep < |q.dist|
    ensures Tracks(Start(q, ep), q, []) && BestFirstOrder(adj, q, ep, [])
    ensures Start(q, ep).seen == SeenAfter(adj, ep, [])
  {}

  lemma LeftIsBeaten(s: State, q: Query, order: seq<nat>, u: nat)
    requires WellFormed(s, q) && Done(s, q) && Tracks(s, q, order) && u in s.seen && u < |q.dist| && u !in order
    ensures Beaten(s, q, q.dist[u])
  {
    assert InQueue(s, q, order, u);
    if j :| 0 <= j < |s.cand| && s.cand[j] == Scored(q, u) {
      if j > 0 { HeadOutranks(s, q, j); }
    }
  }

  /** The closest of a set, by distance, as many as ef or as there are: ranked, at
  their true distances, and nothing left out is closer than the last. */
  ghost predicate ClosestOf(q: Query, seen: set<nat>, r: seq<Result>) {
    && Sorted(r) && DistinctIds(r) && |r| <= q.ef
    && (forall i :: 0 <= i < |r| ==>
          r[i].id in seen && r[i].id != q.skip && r[i].id < |q.dist| && r[i].dist == q.dist[r[i].id])
    && (forall u: nat :: u in seen && u < |q.dist| && u != q.skip && Scored(q, u) !in r ==>
          |r| == q.ef > 0 && q.dist[u] >= r[|r| - 1].dist)
  }

  lemma ResultsAreClosest(s: State, q: Query, adj: seq<seq<nat>>)
    requires WellFormed(s, q) && 1 <= q.ef && |adj| == |q.dist| && Accounted(s, q, adj, -1)
    ensures ClosestOf(q, s.seen, s.res)
  {
    forall u: nat | u in s.seen && u < |q.dist| && u != q.skip && Scored(q, u) !in s.res
      ensures |s.res| == q.ef && q.dist[u] >= s.res[q.ef - 1].dist
    {
      assert Kept(s, q, u);
    }
  }
}
