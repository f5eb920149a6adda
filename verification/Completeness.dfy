/** What a layer search finds: everything closer than its worst result that can
be reached through nodes closer than its worst result, and everything reachable
when the results do not fill up. */
module Completeness {
  import opened TopK
  import opened LayerSearch

  // ---------- Reachability ----------

  /** A walk along the layer's lists from its first node to its last. */
  ghost predicate IsPath(adj: seq<seq<nat>>, p: seq<nat>) {
    && p != []
    && (forall i :: 0 <= i < |p| ==> p[i] < |adj|)
    && (forall i :: 0 <= i < |p| - 1 ==> p[i + 1] in adj[p[i]])
  }

  ghost predicate PathBetween(adj: seq<seq<nat>>, a: nat, b: nat, p: seq<nat>) {
    IsPath(adj, p) && p[0] == a && p[|p| - 1] == b
  }

  ghost predicate Reachable(adj: seq<seq<nat>>, a: nat, b: nat) {
    exists p :: PathBetween(adj, a, b, p)
  }

  lemma ReachableStep(adj: seq<seq<nat>>, a: nat, b: nat, c: nat)
    requires Reachable(adj, a, b) && b < |adj| && c in adj[b] && c < |adj|
    ensures Reachable(adj, a, c)
  {
    var p :| PathBetween(adj, a, b, p);
    assert PathBetween(adj, a, c, p + [c]);
  }

  lemma ReachableSelf(adj: seq<seq<nat>>, a: nat)
    requires a < |adj|
    ensures Reachable(adj, a, a)
  {
    assert PathBetween(adj, a, a, [a]);
  }

  // ---------- The loop invariant ----------

  /** A seen node is still queued, or was turned away, or has been expanded. */
  ghost predicate Handled(s: State, q: Query, adj: seq<seq<nat>>, v: nat)
    requires v < |q.dist| == |adj|
  {
    || Scored(q, v) in s.cand
    || Beaten(s, q, q.dist[v])
    || (forall x :: x in adj[v] ==> x in s.seen)
  }

  /** A seen node is among the results unless it was skipped or outranked. */
  ghost predicate Kept(s: State, q: Query, v: nat)
    requires v < |q.dist|
  {
    v == q.skip || Scored(q, v) in s.res || Beaten(s, q, q.dist[v])
  }

  /** Everything seen is accounted for, but for one node being expanded. */
  ghost predicate Accounted(s: State, q: Query, adj: seq<seq<nat>>, but: int)
    requires |q.dist| == |adj|
  {
    forall v :: v in s.seen && v < |adj| ==> Kept(s, q, v) && (v != but ==> Handled(s, q, adj, v))
  }

  /** The bound only ever tightens. */
  lemma VisitKeepsBeaten(s: State, q: Query, v: nat, d: real)
    requires WellFormed(s, q) && v < |q.dist| && Beaten(s, q, d)
    ensures Beaten(Visit(s, q, v), q, d)
  {
    if v !in s.seen && !Beaten(s, q, q.dist[v]) && v != q.skip {
      OfferImproves(s.res, Scored(q, v), q.ef);
    }
  }

  lemma VisitKeepsKept(s: State, q: Query, v: nat, u: nat)
    requires WellFormed(s, q) && v < |q.dist| && u < |q.dist|
    requires u == v || Kept(s, q, u)
    requires u == v ==> v !in s.seen
    ensures Kept(Visit(s, q, v), q, u)
  {
    if Beaten(s, q, q.dist[u]) {
      VisitKeepsBeaten(s, q, v, q.dist[u]);
    } else if v !in s.seen && !Beaten(s, q, q.dist[v]) && v != q.skip && u != q.skip {
      if Scored(q, u) !in Visit(s, q, v).res {
        OfferDropsWorst(s.res, Scored(q, v), q.ef, Scored(q, u));
      }
    }
  }

  lemma VisitKeepsHandled(s: State, q: Query, adj: seq<seq<nat>>, v: nat, u: nat)
    requires WellFormed(s, q) && v < |q.dist| == |adj| && u < |adj|
    requires if u == v then v !in s.seen else Handled(s, q, adj, u)
    ensures Handled(Visit(s, q, v), q, adj, u)
  {
    InsertContents(s.cand, Scored(q, v));
    if Beaten(s, q, q.dist[u]) {
      VisitKeepsBeaten(s, q, v, q.dist[u]);
    }
  }

  lemma VisitKeepsAccounted(s: State, q: Query, adj: seq<seq<nat>>, v: nat, but: int)
    requires WellFormed(s, q) && v < |q.dist| == |adj| && Accounted(s, q, adj, but)
    ensures Accounted(Visit(s, q, v), q, adj, but)
  {
    var t := Visit(s, q, v);
    if v !in s.seen {
      forall u | u in t.seen && u < |adj|
        ensures Kept(t, q, u) && (u != but ==> Handled(t, q, adj, u))
      {
        VisitKeepsKept(s, q, v, u);
        if u != but { VisitKeepsHandled(s, q, adj, v, u); }
      }
    }
  }

  lemma {:induction false} VisitFromKeepsAccounted(
      s: State, q: Query, adj: seq<seq<nat>>, nbs: seq<nat>, i: nat, but: int)
    requires WellFormed(s, q) && |q.dist| == |adj| && Accounted(s, q, adj, but)
    requires i <= |nbs| && forall j :: 0 <= j < |nbs| ==> nbs[j] < |q.dist|
    ensures Accounted(VisitFrom(s, q, nbs, i), q, adj, but)
    decreases |nbs| - i
  {
    if i < |nbs| {
      VisitKeepsWellFormed(s, q, nbs[i]);
      VisitKeepsAccounted(s, q, adj, nbs[i], but);
      VisitFromKeepsAccounted(Visit(s, q, nbs[i]), q, adj, nbs, i + 1, but);
    }
  }

  lemma {:induction false} VisitFromSees(s: State, q: Query, nbs: seq<nat>, i: nat)
    requires i <= |nbs| && forall j :: 0 <= j < |nbs| ==> nbs[j] < |q.dist|
    ensures s.seen <= VisitFrom(s, q, nbs, i).seen
    ensures forall j :: i <= j < |nbs| ==> nbs[j] in VisitFrom(s, q, nbs, i).seen
    decreases |nbs| - i
  {
    if i < |nbs| {
      VisitFromSees(Visit(s, q, nbs[i]), q, nbs, i + 1);
    }
  }

  lemma ExpandKeepsAccounted(s: State, q: Query, adj: seq<seq<nat>>)
    requires WellFormed(s, q) && InRange(adj, |q.dist|) && Accounted(s, q, adj, -1) && s.cand != []
    ensures var nbs := adj[s.cand[0].id];
      Accounted(Expand(s, q, nbs), q, adj, -1)
  {
    var c := s.cand[0].id;
    var p := s.(cand := s.cand[1..]);
    PopKeepsWellFormed(s, q);
    assert s.cand == [s.cand[0]] + p.cand;
    forall v | v in p.seen && v < |adj|
      ensures Kept(p, q, v) && (v != c ==> Handled(p, q, adj, v))
    {
      assert Kept(s, q, v) && Handled(s, q, adj, v);
    }
    VisitFromKeepsAccounted(p, q, adj, adj[c], 0, c);
    VisitFromSees(p, q, adj[c], 0);
  }

  lemma {:induction false} RunKeepsAccounted(s: State, q: Query, adj: seq<seq<nat>>)
    requires WellFormed(s, q) && InRange(adj, |q.dist|) && Accounted(s, q, adj, -1)
    ensures Accounted(Run(s, q, adj), q, adj, -1)
    ensures s.seen <= Run(s, q, adj).seen
    decreases Work(s, |q.dist|)
  {
    if !Done(s, q) {
      var nbs := adj[s.cand[0].id];
      ExpandKeepsWellFormed(s, q, nbs);
      ExpandWork(s, q, nbs);
      ExpandKeepsAccounted(s, q, adj);
      VisitFromSees(s.(cand := s.cand[1..]), q, nbs, 0);
      RunKeepsAccounted(Expand(s, q, nbs), q, adj);
    }
  }

  // ---------- The first step ----------

  /** The entry point is expanded whatever its distance. */
  lemma EntryExpanded(q: Query, adj: seq<seq<nat>>, ep: nat)
    requires InRange(adj, |q.dist|) && ep < |q.dist| && 1 <= q.ef
    ensures WellFormed(Start(q, ep), q) && Accounted(Start(q, ep), q, adj, -1)
    ensures Accounted(Run(Start(q, ep), q, adj), q, adj, -1)
    ensures ep in Run(Start(q, ep), q, adj).seen
    ensures forall x :: x in adj[ep] ==> x in Run(Start(q, ep), q, adj).seen
  {
    var s := Start(q, ep);
    StartWellFormed(q, ep);
    assert Scored(q, ep) in s.cand;
    RunKeepsAccounted(s, q, adj);
    assert !Done(s, q);
    var t := Expand(s, q, adj[ep]);
    ExpandKeepsWellFormed(s, q, adj[ep]);
    ExpandWork(s, q, adj[ep]);
    ExpandKeepsAccounted(s, q, adj);
    RunKeepsAccounted(t, q, adj);
    VisitFromSees(s.(cand := s.cand[1..]), q, adj[ep], 0);
  }

  /** At the end every seen node that was not outranked has been expanded. */
  lemma DoneMeansExpanded(s: State, q: Query, adj: seq<seq<nat>>, v: nat)
    requires WellFormed(s, q) && |q.dist| == |adj| && Accounted(s, q, adj, -1) && Done(s, q)
    requires v in s.seen && v < |adj| && !Beaten(s, q, q.dist[v])
    ensures forall x :: x in adj[v] ==> x in s.seen
  {
    assert Handled(s, q, adj, v);
    if Scored(q, v) in s.cand {
      HeadIsBest(s.cand, Scored(q, v));
    }
  }

  // ---------- The theorems ----------

  /** Whether every node strictly inside the walk is closer than the worst of
  a full result list (anything goes while the list is not full). */
  ghost predicate InsideCloser(s: State, q: Query, p: seq<nat>) {
    forall i :: 0 < i < |p| - 1 && p[i] < |q.dist| ==> !Beaten(s, q, q.dist[p[i]])
  }

  lemma {:induction false} WalkIsSeen(s: State, q: Query, adj: seq<seq<nat>>, ep: nat, p: seq<nat>)
    requires WellFormed(s, q) && |q.dist| == |adj| && Accounted(s, q, adj, -1) && Done(s, q)
    requires ep < |adj| && ep in s.seen && (forall x :: x in adj[ep] ==> x in s.seen)
    requires IsPath(adj, p) && p[0] == ep && InsideCloser(s, q, p)
    ensures p[|p| - 1] in s.seen
  {
    var n := |p| - 1;
    if n > 0 {
      var r := p[..n];
      WalkIsSeen(s, q, adj, ep, r);
      assert p[n] in adj[p[n - 1]];
      if n > 1 {
        DoneMeansExpanded(s, q, adj, p[n - 1]);
      }
    }
  }

  /** Sublevel-set completeness. `s` is the final state of the search, so
  `Beaten` at the end says "full, and no closer than the worst result". */
  lemma SearchIsComplete(adj: seq<seq<nat>>, q: Query, ep: nat, p: seq<nat>)
    requires InRange(adj, |q.dist|) && ep < |q.dist| && 1 <= q.ef
    requires IsPath(adj, p) && p[0] == ep
    requires var q' := q.(ef := Width(q.ef, |q.dist|));
      InsideCloser(SearchState(adj, q, ep), q', p)
    ensures var q' := q.(ef := Width(q.ef, |q.dist|));
      var x := p[|p| - 1];
      (x != q.skip && !Beaten(SearchState(adj, q, ep), q', q.dist[x]) ==> Scored(q, x) in Search(adj, q, ep))
  {
    var q' := q.(ef := Width(q.ef, |q.dist|));
    var s := SearchState(adj, q, ep);
    EntryExpanded(q', adj, ep);
    WalkIsSeen(s, q', adj, ep, p);
    assert Kept(s, q', p[|p| - 1]);
  }

  /** Strictly closer than the worst result of a list. */
  ghost predicate CloserThanWorst(r: seq<Result>, d: real) {
    r != [] && d < r[|r| - 1].dist
  }

  /** The same in the caller's terms, for a full list of results. */
  lemma CloserThanWorstIsFound(adj: seq<seq<nat>>, q: Query, ep: nat, p: seq<nat>)
    requires InRange(adj, |q.dist|) && ep < |q.dist| && 1 <= q.ef
    requires |Search(adj, q, ep)| == Width(q.ef, |q.dist|)
    requires IsPath(adj, p) && p[0] == ep && p[|p| - 1] != q.skip
    requires forall i :: 0 < i < |p| ==> CloserThanWorst(Search(adj, q, ep), q.dist[p[i]])
    requires CloserThanWorst(Search(adj, q, ep), q.dist[p[|p| - 1]])
    ensures Scored(q, p[|p| - 1]) in Search(adj, q, ep)
  {
    hide Run, Expand, Start, WellFormed, InRange;
    SearchIsComplete(adj, q, ep, p);
  }

  // Nothing outside a set that holds the entry point and is closed under the
  // lists is ever seen.
  ghost predicate ClosedUnder(adj: seq<seq<nat>>, c: set<nat>) {
    forall v, x :: v in c && v < |adj| && x in adj[v] ==> x in c
  }

  lemma {:induction false} VisitFromStaysInside(s: State, q: Query, nbs: seq<nat>, i: nat, c: set<nat>)
    requires i <= |nbs| && forall j :: 0 <= j < |nbs| ==> nbs[j] < |q.dist|
    requires s.seen <= c && forall j :: 0 <= j < |nbs| ==> nbs[j] in c
    ensures VisitFrom(s, q, nbs, i).seen <= c
    decreases |nbs| - i
  {
    if i < |nbs| {
      VisitFromStaysInside(Visit(s, q, nbs[i]), q, nbs, i + 1, c);
    }
  }

  lemma {:induction false} RunStaysInside(s: State, q: Query, adj: seq<seq<nat>>, c: set<nat>)
    requires InRange(adj, |q.dist|) && WellFormed(s, q)
    requires s.seen <= c && ClosedUnder(adj, c)
    ensures Run(s, q, adj).seen <= c
    decreases Work(s, |q.dist|)
  {
    if !Done(s, q) {
      var nbs := adj[s.cand[0].id];
      ExpandKeepsWellFormed(s, q, nbs);
      ExpandWork(s, q, nbs);
      VisitFromStaysInside(s.(cand := s.cand[1..]), q, nbs, 0, c);
      RunStaysInside(Expand(s, q, nbs), q, adj, c);
    }
  }

  lemma SearchStaysInside(adj: seq<seq<nat>>, q: Query, ep: nat, c: set<nat>)
    requires InRange(adj, |q.dist|) && ep < |q.dist| && 1 <= q.ef
    requires ep in c && ClosedUnder(adj, c)
    ensures SearchState(adj, q, ep).seen <= c
    ensures forall i :: 0 <= i < |Search(adj, q, ep)| ==> Search(adj, q, ep)[i].id in c
  {
    var q' := q.(ef := Width(q.ef, |q.dist|));
    StartWellFormed(q', ep);
    RunStaysInside(Start(q', ep), q', adj, c);
  }

  /** Only reachable nodes are ever seen. */
  lemma SeenIsReachable(adj: seq<seq<nat>>, q: Query, ep: nat, v: nat)
    requires InRange(adj, |q.dist|) && ep < |q.dist| && 1 <= q.ef
    requires v in SearchState(adj, q, ep).seen
    ensures Reachable(adj, ep, v)
  {
    var c := set u | u in Nodes(|adj|) && Reachable(adj, ep, u);
    ReachableSelf(adj, ep);
    forall u, x | u in c && u < |adj| && x in adj[u] ensures x in c {
      ReachableStep(adj, ep, u, x);
    }
    SearchStaysInside(adj, q, ep, c);
  }

  /** A search that does not fill its results returns exactly the reachable
  nodes, the skipped one left out. */
  lemma UnfilledIsReachableSet(adj: seq<seq<nat>>, q: Query, ep: nat, x: nat)
    requires InRange(adj, |q.dist|) && ep < |q.dist| && 1 <= q.ef && x < |q.dist|
    requires |Search(adj, q, ep)| < Width(q.ef, |q.dist|)
    ensures Scored(q, x) in Search(adj, q, ep) <==> Reachable(adj, ep, x) && x != q.skip
  {
    if Reachable(adj, ep, x) && x != q.skip {
      var p :| PathBetween(adj, ep, x, p);
      SearchIsComplete(adj, q, ep, p);
    }
    if Scored(q, x) in Search(adj, q, ep) {
      SeenIsReachable(adj, q, ep, x);
    }
  }

  /** A result is still queued, or all of its neighbours have been seen. */
  ghost predicate Exhausted(s: State, q: Query, adj: seq<seq<nat>>, v: nat)
    requires v < |q.dist| == |adj|
  {
    Scored(q, v) in s.cand || forall x :: x in adj[v] ==> x in s.seen
  }

  ghost predicate ResultsExhausted(s: State, q: Query, adj: seq<seq<nat>>, but: int)
    requires |q.dist| == |adj|
  {
    forall v: nat :: v < |adj| && v != but && Scored(q, v) in s.res ==> Exhausted(s, q, adj, v)
  }

  lemma VisitKeepsExhausted(s: State, q: Query, adj: seq<seq<nat>>, v: nat, but: int)
    requires WellFormed(s, q) && v < |q.dist| == |adj| && ResultsExhausted(s, q, adj, but)
    ensures ResultsExhausted(Visit(s, q, v), q, adj, but)
  {
    InsertContents(s.cand, Scored(q, v));
    InsertContents(s.res, Scored(q, v));
    var t := Visit(s, q, v);
    forall u: nat | u < |adj| && u != but && Scored(q, u) in t.res ensures Exhausted(t, q, adj, u) {
      if u != v || v in s.seen { assert Exhausted(s, q, adj, u); }
    }
  }

  lemma {:induction false} VisitFromKeepsExhausted(
      s: State, q: Query, adj: seq<seq<nat>>, nbs: seq<nat>, i: nat, but: int)
    requires WellFormed(s, q) && |q.dist| == |adj| && ResultsExhausted(s, q, adj, but)
    requires i <= |nbs| && forall j :: 0 <= j < |nbs| ==> nbs[j] < |q.dist|
    ensures ResultsExhausted(VisitFrom(s, q, nbs, i), q, adj, but)
    decreases |nbs| - i
  {
    hide Visit, ResultsExhausted, WellFormed;
    if i < |nbs| {
      VisitKeepsWellFormed(s, q, nbs[i]);
      VisitKeepsExhausted(s, q, adj, nbs[i], but);
      VisitFromKeepsExhausted(Visit(s, q, nbs[i]), q, adj, nbs, i + 1, but);
    }
  }

  lemma ExpandKeepsExhausted(s: State, q: Query, adj: seq<seq<nat>>)
    requires WellFormed(s, q) && InRange(adj, |q.dist|) && ResultsExhausted(s, q, adj, -1) && s.cand != []
    ensures ResultsExhausted(Expand(s, q, adj[s.cand[0].id]), q, adj, -1)
  {
    var c := s.cand[0].id;
    var p := s.(cand := s.cand[1..]);
    PopKeepsWellFormed(s, q);
    assert s.cand == [s.cand[0]] + p.cand;
    forall v: nat | v < |adj| && v != c && Scored(q, v) in p.res ensures Exhausted(p, q, adj, v) {
      assert Exhausted(s, q, adj, v);
    }
    VisitFromKeepsExhausted(p, q, adj, adj[c], 0, c);
    VisitFromSees(p, q, adj[c], 0);
  }

  lemma {:induction false} RunKeepsExhausted(s: State, q: Query, adj: seq<seq<nat>>)
    requires WellFormed(s, q) && InRange(adj, |q.dist|) && ResultsExhausted(s, q, adj, -1)
    ensures ResultsExhausted(Run(s, q, adj), q, adj, -1)
    decreases Work(s, |q.dist|)
  {
    hide ResultsExhausted;
    if !Done(s, q) {
      var nbs := adj[s.cand[0].id];
      ExpandKeepsWellFormed(s, q, nbs);
      ExpandWork(s, q, nbs);
      ExpandKeepsExhausted(s, q, adj);
      RunKeepsExhausted(Expand(s, q, nbs), q, adj);
    }
  }

  /** No result outranks what is still queued when the search is over. */
  lemma DoneMeansExhausted(s: State, q: Query, adj: seq<seq<nat>>, v: nat)
    requires WellFormed(s, q) && |q.dist| == |adj| && ResultsExhausted(s, q, adj, -1) && Done(s, q)
    requires v < |q.dist| && Scored(q, v) in s.res
    ensures forall x :: x in adj[v] ==> x in s.seen
  {
    assert Exhausted(s, q, adj, v);
  }

  /** Local optimality: a neighbour of any result is a result too, unless it is
  the skipped node, or the list is full and the neighbour no closer than its
  worst. */
  lemma NeighboursOfResults(adj: seq<seq<nat>>, q: Query, ep: nat, v: nat, x: nat)
    requires InRange(adj, |q.dist|) && ep < |q.dist| && 1 <= q.ef && v < |q.dist|
    requires x in adj[v] && x != q.skip && Scored(q, v) in Search(adj, q, ep)
    ensures var r := Search(adj, q, ep);
      Scored(q, x) in r || (|r| == Width(q.ef, |q.dist|) && q.dist[x] >= r[|r| - 1].dist)
  {
    hide Run, Expand, Start, ResultsExhausted;
    var q' := q.(ef := Width(q.ef, |q.dist|));
    var s := SearchState(adj, q, ep);
    EntryExpanded(q', adj, ep);
    OnlyEntryHeld(q', adj, ep);
    RunKeepsExhausted(Start(q', ep), q', adj);
    DoneMeansExhausted(s, q', adj, v);
    assert Kept(s, q', x);
  }

  lemma OnlyEntryHeld(q: Query, adj: seq<seq<nat>>, ep: nat)
    requires |q.dist| == |adj| && ep < |q.dist|
    ensures ResultsExhausted(Start(q, ep), q, adj, -1)
  {
    InsertContents([], Scored(q, ep));
  }

  // ---------- Every search answers ----------

  /** The best result is never lost: once x is held, the head ranks at least as high. */
  ghost predicate HeadBeats(s: State, x: Result) {
    s.res != [] && !Before(x, s.res[0])
  }

  lemma {:induction false} VisitFromKeepsHead(s: State, q: Query, nbs: seq<nat>, i: nat, x: Result)
    requires WellFormed(s, q) && HeadBeats(s, x)
    requires i <= |nbs| && forall j :: 0 <= j < |nbs| ==> nbs[j] < |q.dist|
    ensures HeadBeats(VisitFrom(s, q, nbs, i), x)
    decreases |nbs| - i
  {
    if i < |nbs| {
      VisitKeepsWellFormed(s, q, nbs[i]);
      OfferImproves(s.res, Scored(q, nbs[i]), q.ef);
      VisitFromKeepsHead(Visit(s, q, nbs[i]), q, nbs, i + 1, x);
    }
  }

  lemma {:induction false} RunKeepsHead(s: State, q: Query, adj: seq<seq<nat>>, x: Result)
    requires InRange(adj, |q.dist|) && WellFormed(s, q) && HeadBeats(s, x)
    ensures HeadBeats(Run(s, q, adj), x)
    decreases Work(s, |q.dist|)
  {
    if !Done(s, q) {
      var nbs := adj[s.cand[0].id];
      ExpandKeepsWellFormed(s, q, nbs);
      ExpandWork(s, q, nbs);
      PopKeepsWellFormed(s, q);
      VisitFromKeepsHead(s.(cand := s.cand[1..]), q, nbs, 0, x);
      RunKeepsHead(Expand(s, q, nbs), q, adj, x);
    }
  }

  /** Every search from an entry point that is not the skipped node returns
  something, nearest first, each node once and at its true distance, and its
  first result is no farther than the entry point. */
  lemma SearchAnswers(adj: seq<seq<nat>>, q: Query, ep: nat)
    requires InRange(adj, |q.dist|) && ep < |q.dist| && 1 <= q.ef && ep != q.skip
    ensures var r := Search(adj, q, ep);
      && 1 <= |r| <= Width(q.ef, |q.dist|)
      && Sorted(r) && DistinctIds(r) && TrueDistances(r, q)
      && (forall i :: 0 <= i < |r| ==> r[i].id != q.skip)
      && r[0].dist <= q.dist[ep]
  {
    var q' := q.(ef := Width(q.ef, |q.dist|));
    StartWellFormed(q', ep);
    RunKeepsHead(Start(q', ep), q', adj, Scored(q, ep));
  }
}
