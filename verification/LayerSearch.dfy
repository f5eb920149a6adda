/** Best-first search within one layer, `searchLayer` in `internal/index/hnsw.go`,
as a function of the layer's adjacency lists and the distances to the query. */
module LayerSearch {
  import opened TopK

  /** One search: the distance of every node to the query, the width, and the
  node left out of the results (-1 for none). */
  datatype Query = Query(dist: seq<real>, ef: nat, skip: int)

  datatype State = State(cand: seq<Result>, res: seq<Result>, seen: set<nat>)

  predicate InRange(adj: seq<seq<nat>>, n: nat) {
    && |adj| == n
    && forall a, j :: 0 <= a < n && 0 <= j < |adj[a]| ==> adj[a][j] < n
  }

  predicate Full(s: State, q: Query) {
    1 <= q.ef <= |s.res|
  }

  /** Whether a node at this distance is turned away: the results are full and
  none of them is farther. */
  predicate Beaten(s: State, q: Query, d: real) {
    Full(s, q) && d >= s.res[q.ef - 1].dist
  }

  function Scored(q: Query, v: nat): (r: Result)
    requires v < |q.dist|
  {
    Result(v, q.dist[v])
  }

  /** One neighbour looked at while a candidate is expanded. */
  function Visit(s: State, q: Query, v: nat): (r: State)
    requires v < |q.dist|
  {
    if v in s.seen then
      s
    else if Beaten(s, q, q.dist[v]) then
      s.(seen := s.seen + {v})
    else
      State(Insert(s.cand, Scored(q, v)),
            if v == q.skip then s.res else Offer(s.res, Scored(q, v), q.ef),
            s.seen + {v})
  }

  /** The neighbours from position i on, in list order. */
  function VisitFrom(s: State, q: Query, nbs: seq<nat>, i: nat): (r: State)
    requires i <= |nbs|
    requires forall j :: 0 <= j < |nbs| ==> nbs[j] < |q.dist|
    decreases |nbs| - i
  {
    if i == |nbs| then s else VisitFrom(Visit(s, q, nbs[i]), q, nbs, i + 1)
  }

  /** Whether the search is over: nothing queued, or everything queued is
  farther than the worst of a full result list. */
  predicate Done(s: State, q: Query) {
    s.cand == [] || (Full(s, q) && s.cand[0].dist > s.res[q.ef - 1].dist)
  }

  /** Taking the nearest candidate off and looking at its list. */
  function Expand(s: State, q: Query, nbs: seq<nat>): (r: State)
    requires s.cand != []
    requires forall j :: 0 <= j < |nbs| ==> nbs[j] < |q.dist|
  {
    VisitFrom(s.(cand := s.cand[1..]), q, nbs, 0)
  }

  function Start(q: Query, ep: nat): (s: State)
    requires ep < |q.dist|
  {
    State([Scored(q, ep)], if ep == q.skip then [] else Offer([], Scored(q, ep), q.ef), {ep})
  }

  // ---------- What every state keeps ----------

  ghost predicate TrueDistances(s: seq<Result>, q: Query) {
    forall i :: 0 <= i < |s| ==> s[i].id < |q.dist| && s[i] == Scored(q, s[i].id)
  }

  ghost predicate DistinctIds(s: seq<Result>) {
    forall i, j :: 0 <= i < j < |s| ==> s[i].id != s[j].id
  }

  ghost predicate SeenIds(s: seq<Result>, seen: set<nat>) {
    forall i :: 0 <= i < |s| ==> s[i].id in seen
  }

  ghost predicate WellFormed(s: State, q: Query) {
    && 1 <= q.ef
    && Sorted(s.cand) && TrueDistances(s.cand, q) && SeenIds(s.cand, s.seen) && DistinctIds(s.cand)
    && Sorted(s.res) && TrueDistances(s.res, q) && SeenIds(s.res, s.seen)
    && DistinctIds(s.res) && |s.res| <= q.ef
    && (forall i :: 0 <= i < |s.res| ==> s.res[i].id != q.skip)
    && (forall v :: v in s.seen ==> v < |q.dist|)
  }

  lemma InsertContents(s: seq<Result>, x: Result)
    ensures forall i :: 0 <= i < |s| + 1 ==> Insert(s, x)[i] == x || Insert(s, x)[i] in s
    ensures x in Insert(s, x)
    ensures forall y :: y in s ==> y in Insert(s, x)
  {
    var p, t := Place(s, x, 0), Insert(s, x);
    assert t[p] == x;
    forall y | y in s ensures y in t {
      var i :| 0 <= i < |s| && s[i] == y;
      if i < p { assert t[i] == y; } else { assert t[i + 1] == y; }
    }
  }

  lemma InsertDistinct(s: seq<Result>, x: Result)
    requires DistinctIds(s)
    requires forall i :: 0 <= i < |s| ==> s[i].id != x.id
    ensures DistinctIds(Insert(s, x))
  {
    var p, t := Place(s, x, 0), Insert(s, x);
    forall i, j | 0 <= i < j < |t| ensures t[i].id != t[j].id {
      assert i < p ==> t[i] == s[i];
      assert i > p ==> t[i] == s[i - 1];
      assert j < p ==> t[j] == s[j];
      assert j > p ==> t[j] == s[j - 1];
    }
  }

  lemma PushKeeps(s: seq<Result>, q: Query, seen: set<nat>, v: nat)
    requires Sorted(s) && TrueDistances(s, q) && SeenIds(s, seen) && DistinctIds(s)
    requires v < |q.dist| && v !in seen
    ensures var t := Insert(s, Scored(q, v));
      Sorted(t) && TrueDistances(t, q) && SeenIds(t, seen + {v}) && DistinctIds(t)
  {
    InsertSorted(s, Scored(q, v));
    InsertDistinct(s, Scored(q, v));
    InsertContents(s, Scored(q, v));
  }

  lemma OfferKeeps(s: State, q: Query, v: nat)
    requires WellFormed(s, q) && v < |q.dist| && v !in s.seen && v != q.skip
    ensures var t := Offer(s.res, Scored(q, v), q.ef);
      && Sorted(t) && TrueDistances(t, q) && SeenIds(t, s.seen + {v})
      && DistinctIds(t) && |t| <= q.ef && (forall i :: 0 <= i < |t| ==> t[i].id != q.skip)
  {
    PushKeeps(s.res, q, s.seen, v);
    InsertContents(s.res, Scored(q, v));
    assert forall y :: y in s.res ==> y.id != q.skip;
  }

  lemma VisitKeepsWellFormed(s: State, q: Query, v: nat)
    requires WellFormed(s, q) && v < |q.dist|
    ensures WellFormed(Visit(s, q, v), q)
  {
    if v !in s.seen && !Beaten(s, q, q.dist[v]) {
      PushKeeps(s.cand, q, s.seen, v);
      if v != q.skip { OfferKeeps(s, q, v); }
    }
  }

  lemma {:induction false} VisitFromKeepsWellFormed(s: State, q: Query, nbs: seq<nat>, i: nat)
    requires WellFormed(s, q) && i <= |nbs|
    requires forall j :: 0 <= j < |nbs| ==> nbs[j] < |q.dist|
    ensures WellFormed(VisitFrom(s, q, nbs, i), q)
    decreases |nbs| - i
  {
    if i < |nbs| {
      VisitKeepsWellFormed(s, q, nbs[i]);
      VisitFromKeepsWellFormed(Visit(s, q, nbs[i]), q, nbs, i + 1);
    }
  }

  lemma PopKeepsWellFormed(s: State, q: Query)
    requires WellFormed(s, q) && s.cand != []
    ensures WellFormed(s.(cand := s.cand[1..]), q)
  {
    SortedTail(s.cand);
  }

  lemma ExpandKeepsWellFormed(s: State, q: Query, nbs: seq<nat>)
    requires WellFormed(s, q) && s.cand != []
    requires forall j :: 0 <= j < |nbs| ==> nbs[j] < |q.dist|
    ensures WellFormed(Expand(s, q, nbs), q)
  {
    PopKeepsWellFormed(s, q);
    VisitFromKeepsWellFormed(s.(cand := s.cand[1..]), q, nbs, 0);
  }

  lemma StartWellFormed(q: Query, ep: nat)
    requires ep < |q.dist| && 1 <= q.ef
    ensures WellFormed(Start(q, ep), q)
    ensures ep != q.skip ==> Start(q, ep).res == [Scored(q, ep)]
  {
    assert Insert([], Scored(q, ep)) == [Scored(q, ep)];
  }

  // ---------- Termination ----------

  ghost function Nodes(n: nat): (s: set<nat>)
    ensures forall v: nat :: v in s <==> v < n
    ensures |s| == n
  {
    if n == 0 then {} else Nodes(n - 1) + {n - 1}
  }

  /** Unmarked nodes plus queue length: what every expansion makes smaller. */
  ghost function Work(s: State, n: nat): (w: nat) {
    |Nodes(n) - s.seen| + |s.cand|
  }

  lemma VisitWork(s: State, q: Query, v: nat)
    requires v < |q.dist|
    ensures Work(Visit(s, q, v), |q.dist|) <= Work(s, |q.dist|)
  {
    var n := |q.dist|;
    if v !in s.seen {
      var rest := Nodes(n) - s.seen;
      assert v in rest;
      assert Nodes(n) - (s.seen + {v}) == rest - {v};
      assert |rest - {v}| == |rest| - 1;
    }
  }

  lemma {:induction false} VisitFromWork(s: State, q: Query, nbs: seq<nat>, i: nat)
    requires i <= |nbs|
    requires forall j :: 0 <= j < |nbs| ==> nbs[j] < |q.dist|
    ensures Work(VisitFrom(s, q, nbs, i), |q.dist|) <= Work(s, |q.dist|)
    decreases |nbs| - i
  {
    if i < |nbs| {
      VisitWork(s, q, nbs[i]);
      VisitFromWork(Visit(s, q, nbs[i]), q, nbs, i + 1);
    }
  }

  lemma ExpandWork(s: State, q: Query, nbs: seq<nat>)
    requires s.cand != []
    requires forall j :: 0 <= j < |nbs| ==> nbs[j] < |q.dist|
    ensures Work(Expand(s, q, nbs), |q.dist|) < Work(s, |q.dist|)
  {
    VisitFromWork(s.(cand := s.cand[1..]), q, nbs, 0);
  }

  /** The main loop, run to its end. */
  ghost function Run(s: State, q: Query, adj: seq<seq<nat>>): (r: State)
    requires InRange(adj, |q.dist|) && WellFormed(s, q)
    ensures WellFormed(r, q) && Done(r, q)
    decreases Work(s, |q.dist|)
  {
    if Done(s, q) then s else
      var nbs := adj[s.cand[0].id];
      ExpandKeepsWellFormed(s, q, nbs);
      ExpandWork(s, q, nbs);
      Run(Expand(s, q, nbs), q, adj)
  }

  /** The width the search really uses. */
  function Width(ef: nat, n: nat): (w: nat) {
    if ef > n then n else ef
  }

  ghost function SearchState(adj: seq<seq<nat>>, q: Query, ep: nat): (r: State)
    requires InRange(adj, |q.dist|) && ep < |q.dist| && 1 <= q.ef
  {
    var q' := q.(ef := Width(q.ef, |q.dist|));
    StartWellFormed(q', ep);
    Run(Start(q', ep), q', adj)
  }

  /** What a layer search returns. */
  ghost function Search(adj: seq<seq<nat>>, q: Query, ep: nat): (r: seq<Result>)
    requires InRange(adj, |q.dist|) && ep < |q.dist| && 1 <= q.ef
  {
    SearchState(adj, q, ep).res
  }
}
