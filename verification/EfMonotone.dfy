/** Raising the search width never makes any rank worse, when no two nodes the
entry leads to are equally far from the query. The wide run expands the same nodes in the same
order as the narrow one for as long as the narrow one goes on. */
module EfMonotone {
  import opened TopK
  import opened LayerSearch
  import opened Completeness

  /** No two nodes of c are equally far. */
  ghost predicate DistinctAmong(dist: seq<real>, c: set<nat>) {
    forall i, j :: i in c && j in c && i < j < |dist| ==> dist[i] != dist[j]
  }

  /** Two queries that differ only in width. */
  ghost predicate SameButWider(q1: Query, q2: Query) {
    q1.dist == q2.dist && q1.skip == q2.skip && 1 <= q1.ef <= q2.ef
  }

  /** The narrow run's frontier is the wide run's, less what the narrow run
  could never expand again. */
  ghost predicate FrontierWithin(c1: seq<Result>, c2: seq<Result>, s1: State, q1: Query) {
    && (forall r :: r in c1 ==> r in c2)
    && (forall r :: r in c2 ==> r in c1 || (Full(s1, q1) && r.dist > s1.res[q1.ef - 1].dist))
  }

  /** Both runs have seen the same nodes, all in c, and hold the same best ones. */
  ghost predicate InStep(s1: State, q1: Query, s2: State, q2: Query, c: set<nat>) {
    && SameButWider(q1, q2) && DistinctAmong(q1.dist, c) && s1.seen <= c
    && WellFormed(s1, q1) && WellFormed(s2, q2)
    && s1.seen == s2.seen
    && s1.res == Take(s2.res, q1.ef)
    && FrontierWithin(s1.cand, s2.cand, s1, q1)
  }

  lemma TakeOffer(s: seq<Result>, x: Result, k1: nat, k2: nat)
    requires k1 <= k2
    ensures Take(Offer(s, x, k2), k1) == Offer(Take(s, k1), x, k1)
  {
    TakeInsert(s, x, k1);
    var t := Insert(s, x);
    assert Take(Take(t, k2), k1) == Take(t, k1);
  }

  /** With distinct distances a node is turned away only when an offer of it
  would change nothing. */
  lemma VisitOffers(s: State, q: Query, v: nat, c: set<nat>)
    requires WellFormed(s, q) && v < |q.dist| && v !in s.seen
    requires DistinctAmong(q.dist, c) && s.seen <= c && v in c
    ensures Visit(s, q, v).res == if v == q.skip then s.res else Offer(s.res, Scored(q, v), q.ef)
    ensures Beaten(s, q, q.dist[v]) ==> q.dist[v] > s.res[q.ef - 1].dist
  {
    if Beaten(s, q, q.dist[v]) {
      var u := s.res[q.ef - 1].id;
      assert u in s.seen && q.dist[u] != q.dist[v];
      OfferRejects(s.res, Scored(q, v));
    }
  }

  lemma WiderIsBeatenLater(s1: State, q1: Query, s2: State, q2: Query, d: real, c: set<nat>)
    requires InStep(s1, q1, s2, q2, c) && Beaten(s2, q2, d)
    ensures Beaten(s1, q1, d)
    ensures s1.res[q1.ef - 1].dist <= s2.res[q2.ef - 1].dist
  {
    if q1.ef < q2.ef {
      assert !Before(s2.res[q2.ef - 1], s2.res[q1.ef - 1]);
    }
  }

  lemma VisitFrontier(s1: State, q1: Query, s2: State, q2: Query, v: nat, c: set<nat>)
    requires InStep(s1, q1, s2, q2, c) && v < |q1.dist| && v !in s1.seen && v in c
    ensures FrontierWithin(Visit(s1, q1, v).cand, Visit(s2, q2, v).cand, Visit(s1, q1, v), q1)
  {
    var t1, t2, x := Visit(s1, q1, v), Visit(s2, q2, v), Scored(q1, v);
    VisitOffers(s1, q1, v, c);
    InsertContents(s1.cand, x);
    InsertContents(s2.cand, x);
    OfferImproves(s1.res, x, q1.ef);
    if Beaten(s2, q2, q2.dist[v]) { WiderIsBeatenLater(s1, q1, s2, q2, q2.dist[v], c); }
    forall r | r in t2.cand ensures r in t1.cand || (Full(t1, q1) && r.dist > t1.res[q1.ef - 1].dist) {
      if r == x {
      } else {
        assert r in s2.cand;
      }
    }
  }

  lemma VisitSees(s: State, q: Query, v: nat)
    requires v < |q.dist|
    ensures Visit(s, q, v).seen == s.seen + {v}
    ensures v in s.seen ==> Visit(s, q, v) == s
  {}

  lemma VisitInStep(s1: State, q1: Query, s2: State, q2: Query, v: nat, c: set<nat>)
    requires InStep(s1, q1, s2, q2, c) && v < |q1.dist| && v in c
    ensures InStep(Visit(s1, q1, v), q1, Visit(s2, q2, v), q2, c)
  {
    hide Visit, WellFormed, Offer, FrontierWithin, DistinctAmong;
    VisitSees(s1, q1, v);
    VisitSees(s2, q2, v);
    VisitKeepsWellFormed(s1, q1, v);
    VisitKeepsWellFormed(s2, q2, v);
    if v !in s1.seen {
      VisitOffers(s1, q1, v, c);
      VisitOffers(s2, q2, v, c);
      TakeOffer(s2.res, Scored(q1, v), q1.ef, q2.ef);
      VisitFrontier(s1, q1, s2, q2, v, c);
    }
  }

  lemma {:induction false} VisitFromInStep(
      s1: State, q1: Query, s2: State, q2: Query, nbs: seq<nat>, i: nat, c: set<nat>)
    requires InStep(s1, q1, s2, q2, c) && forall j :: 0 <= j < |nbs| ==> nbs[j] in c
    requires i <= |nbs| && forall j :: 0 <= j < |nbs| ==> nbs[j] < |q1.dist|
    ensures InStep(VisitFrom(s1, q1, nbs, i), q1, VisitFrom(s2, q2, nbs, i), q2, c)
    decreases |nbs| - i
  {
    if i < |nbs| {
      VisitInStep(s1, q1, s2, q2, nbs[i], c);
      VisitFromInStep(Visit(s1, q1, nbs[i]), q1, Visit(s2, q2, nbs[i]), q2, nbs, i + 1, c);
    }
  }

  /** While the narrow run goes on, both take the same candidate. */
  lemma SameCandidate(s1: State, q1: Query, s2: State, q2: Query, c: set<nat>)
    requires InStep(s1, q1, s2, q2, c) && !Done(s1, q1)
    ensures !Done(s2, q2) && s2.cand[0] == s1.cand[0]
  {
    var c1 := s1.cand[0];
    assert c1 in s2.cand;
    HeadIsBest(s2.cand, c1);
    var c2 := s2.cand[0];
    assert c2 in s2.cand;
    assert c2 in s1.cand;
    HeadIsBest(s1.cand, c2);
    if Done(s2, q2) {
      WiderIsBeatenLater(s1, q1, s2, q2, c2.dist, c);
    }
  }

  lemma TailMembers(s: seq<Result>, r: Result)
    requires s != [] && DistinctIds(s)
    ensures r in s[1..] <==> r in s && r != s[0]
  {
    assert s == [s[0]] + s[1..];
    if r in s[1..] {
      var i :| 0 <= i < |s[1..]| && s[1..][i] == r;
      assert s[i + 1] == r;
    }
  }

  lemma PopInStep(s1: State, q1: Query, s2: State, q2: Query, c: set<nat>)
    requires InStep(s1, q1, s2, q2, c) && s1.cand != [] && s2.cand != [] && s1.cand[0] == s2.cand[0]
    ensures InStep(s1.(cand := s1.cand[1..]), q1, s2.(cand := s2.cand[1..]), q2, c)
  {
    PopKeepsWellFormed(s1, q1);
    PopKeepsWellFormed(s2, q2);
    forall r ensures r in s1.cand[1..] <==> r in s1.cand && r != s1.cand[0] {
      TailMembers(s1.cand, r);
    }
    forall r ensures r in s2.cand[1..] <==> r in s2.cand && r != s2.cand[0] {
      TailMembers(s2.cand, r);
    }
  }

  /** Rank by rank, r2 is at least as near as r1, and no shorter. */
  ghost predicate NoWorse(r1: seq<Result>, r2: seq<Result>) {
    |r1| <= |r2| && forall i :: 0 <= i < |r1| ==> r2[i].dist <= r1[i].dist
  }

  lemma {:induction false} VisitFromImproves(s: State, q: Query, nbs: seq<nat>, i: nat)
    requires WellFormed(s, q)
    requires i <= |nbs| && forall j :: 0 <= j < |nbs| ==> nbs[j] < |q.dist|
    ensures NoWorse(s.res, VisitFrom(s, q, nbs, i).res) && s.seen <= VisitFrom(s, q, nbs, i).seen
    decreases |nbs| - i
  {
    if i < |nbs| {
      VisitKeepsWellFormed(s, q, nbs[i]);
      OfferImproves(s.res, Scored(q, nbs[i]), q.ef);
      VisitFromImproves(Visit(s, q, nbs[i]), q, nbs, i + 1);
    }
  }

  /** A search never gives up ground as it goes on. */
  lemma {:induction false} RunImproves(s: State, q: Query, adj: seq<seq<nat>>)
    requires InRange(adj, |q.dist|) && WellFormed(s, q)
    ensures NoWorse(s.res, Run(s, q, adj).res) && s.seen <= Run(s, q, adj).seen
    decreases Work(s, |q.dist|)
  {
    if !Done(s, q) {
      var nbs := adj[s.cand[0].id];
      ExpandKeepsWellFormed(s, q, nbs);
      ExpandWork(s, q, nbs);
      PopKeepsWellFormed(s, q);
      VisitFromImproves(s.(cand := s.cand[1..]), q, nbs, 0);
      RunImproves(Expand(s, q, nbs), q, adj);
    }
  }

  /** Two runs in step: the wide one is no worse at the end and has seen no less. */
  lemma {:induction false} RunsInStep(
      s1: State, q1: Query, s2: State, q2: Query, adj: seq<seq<nat>>, c: set<nat>)
    requires InRange(adj, |q1.dist|) && InStep(s1, q1, s2, q2, c) && ClosedUnder(adj, c)
    ensures NoWorse(Run(s1, q1, adj).res, Run(s2, q2, adj).res)
    ensures Run(s1, q1, adj).seen <= Run(s2, q2, adj).seen
    decreases Work(s1, |q1.dist|)
  {
    if Done(s1, q1) {
      RunImproves(s2, q2, adj);
    } else {
      SameCandidate(s1, q1, s2, q2, c);
      var nbs := adj[s1.cand[0].id];
      assert s1.cand[0].id in s1.seen;
      forall j | 0 <= j < |nbs| ensures nbs[j] in c { assert nbs[j] in nbs; }
      ExpandKeepsWellFormed(s1, q1, nbs);
      ExpandKeepsWellFormed(s2, q2, nbs);
      ExpandWork(s1, q1, nbs);
      PopInStep(s1, q1, s2, q2, c);
      VisitFromInStep(s1.(cand := s1.cand[1..]), q1, s2.(cand := s2.cand[1..]), q2, nbs, 0, c);
      RunsInStep(Expand(s1, q1, nbs), q1, Expand(s2, q2, nbs), q2, adj, c);
    }
  }

  lemma StartInStep(q1: Query, q2: Query, ep: nat, c: set<nat>)
    requires SameButWider(q1, q2) && ep < |q1.dist| && ep in c && DistinctAmong(q1.dist, c)
    ensures InStep(Start(q1, ep), q1, Start(q2, ep), q2, c)
  {
    StartWellFormed(q1, ep);
    StartWellFormed(q2, ep);
  }

  /** Raising ef visits a superset and never worsens any rank, whatever node is
  skipped, if distances are distinct within some set that holds the entry and is
  closed under the lists. */
  lemma WiderIsNoWorse(adj: seq<seq<nat>>, q1: Query, q2: Query, ep: nat, c: set<nat>)
    requires SameButWider(q1, q2) && InRange(adj, |q1.dist|) && ep < |q1.dist|
    requires ep in c && ClosedUnder(adj, c) && DistinctAmong(q1.dist, c)
    ensures NoWorse(Search(adj, q1, ep), Search(adj, q2, ep))
    ensures SearchState(adj, q1, ep).seen <= SearchState(adj, q2, ep).seen
  {
    var n := |q1.dist|;
    StartInStep(q1.(ef := Width(q1.ef, n)), q2.(ef := Width(q2.ef, n)), ep, c);
    RunsInStep(Start(q1.(ef := Width(q1.ef, n)), ep), q1.(ef := Width(q1.ef, n)),
               Start(q2.(ef := Width(q2.ef, n)), ep), q2.(ef := Width(q2.ef, n)), adj, c);
  }

  // ---------- Without distinct distances it fails ----------

  /** Nodes 1 and 2 are equally far; only node 2 leads to the nearest node 5. */
  const TIED: seq<real> := [5.0, 3.0, 3.0, 1.0, 2.0, 0.0]
  const TIED_ADJ: seq<seq<nat>> := [[2, 1], [3, 4], [5], [], [], []]

  lemma RunUnfolds(s: State, q: Query, adj: seq<seq<nat>>)
    requires InRange(adj, |q.dist|) && WellFormed(s, q) && !Done(s, q)
    ensures var t := Expand(s, q, adj[s.cand[0].id]);
      WellFormed(t, q) && Run(s, q, adj) == Run(t, q, adj)
  {
    ExpandKeepsWellFormed(s, q, adj[s.cand[0].id]);
    ExpandWork(s, q, adj[s.cand[0].id]);
  }

  lemma InsertFront(x: Result, s: seq<Result>)
    requires s == [] || Before(x, s[0])
    ensures Insert(s, x) == [x] + s
  {
    assert s[..0] + [x] + s[0..] == [x] + s;
  }

  lemma InsertSecond(x: Result, s: seq<Result>)
    requires s != [] && !Before(x, s[0]) && (|s| == 1 || Before(x, s[1]))
    ensures Insert(s, x) == [s[0], x] + s[1..]
  {
    assert Place(s, x, 0) == Place(s, x, 1) == 1;
    assert s[..1] + [x] + s[1..] == [s[0], x] + s[1..];
  }

  lemma TwoVisits(s: State, q: Query, a: nat, b: nat)
    requires a < |q.dist| && b < |q.dist|
    ensures VisitFrom(s, q, [a, b], 0) == Visit(Visit(s, q, a), q, b)
  {
    assert VisitFrom(Visit(s, q, a), q, [a, b], 1) == VisitFrom(Visit(Visit(s, q, a), q, b), q, [a, b], 2);
  }

  lemma OneVisit(s: State, q: Query, a: nat)
    requires a < |q.dist|
    ensures VisitFrom(s, q, [a], 0) == Visit(s, q, a)
  {
    assert VisitFrom(Visit(s, q, a), q, [a], 1) == Visit(s, q, a);
  }

  const NARROW: Query := Query(TIED, 1, -1)
  const WIDE: Query := Query(TIED, 2, -1)

  function At(v: nat): (r: Result)
    requires v < 6
  {
    Result(v, TIED[v])
  }

  /** A visit that neither list turns away, on lists small enough to spell out. */
  lemma Push(s: State, q: Query, v: nat, cand: seq<Result>, res: seq<Result>)
    requires q.dist == TIED && q.skip == -1 && v < 6 && v !in s.seen && !Beaten(s, q, TIED[v])
    requires Insert(s.cand, At(v)) == cand
    requires Offer(s.res, At(v), q.ef) == res
    ensures Visit(s, q, v) == State(cand, res, s.seen + {v})
  {}

  /** An expansion along a list of one or two neighbours, visit by visit. */
  lemma ExpandOne(s: State, q: Query, a: nat, t: State)
    requires s.cand != [] && a < |q.dist| && Visit(s.(cand := s.cand[1..]), q, a) == t
    ensures Expand(s, q, [a]) == t
  {
    OneVisit(s.(cand := s.cand[1..]), q, a);
  }

  lemma ExpandTwo(s: State, q: Query, a: nat, b: nat, t: State, u: State)
    requires s.cand != [] && a < |q.dist| && b < |q.dist|
    requires Visit(s.(cand := s.cand[1..]), q, a) == t && Visit(t, q, b) == u
    ensures Expand(s, q, [a, b]) == u
  {
    TwoVisits(s.(cand := s.cand[1..]), q, a, b);
  }

  /** The states both runs pass through. */
  const S0 := State([At(0)], [At(0)], {0})
  const N1 := State([At(2)], [At(2)], {0, 2})
  const N2 := State([At(2)], [At(2)], {0, 2, 1})
  const N3 := State([At(5)], [At(5)], {0, 2, 1, 5})
  const W1 := State([At(2)], [At(2), At(0)], {0, 2})
  const W2 := State([At(1), At(2)], [At(1), At(2)], {0, 2, 1})
  const W3 := State([At(3), At(2)], [At(3), At(1)], {0, 2, 1, 3})
  const W4 := State([At(3), At(4), At(2)], [At(3), At(4)], {0, 2, 1, 3, 4})

  lemma NarrowVisit2()
    ensures Visit(S0.(cand := S0.cand[1..]), NARROW, 2) == N1
  {
    InsertFront(At(2), []);
    InsertFront(At(2), [At(0)]);
    assert [At(0)][1..] == [];
    assert Offer([At(0)], At(2), 1) == [At(2)];
    Push(State([], [At(0)], {0}), NARROW, 2, [At(2)], [At(2)]);
  }

  lemma NarrowVisit5()
    ensures Visit(N2.(cand := N2.cand[1..]), NARROW, 5) == N3
  {
    InsertFront(At(5), []);
    InsertFront(At(5), [At(2)]);
    assert [At(2)][1..] == [];
    assert Offer([At(2)], At(5), 1) == [At(5)];
    Push(State([], [At(2)], {0, 2, 1}), NARROW, 5, [At(5)], [At(5)]);
  }

  lemma WideVisit2()
    ensures Visit(S0.(cand := S0.cand[1..]), WIDE, 2) == W1
  {
    InsertFront(At(2), []);
    InsertFront(At(2), [At(0)]);
    assert [At(0)][1..] == [];
    assert Offer([At(0)], At(2), 2) == [At(2), At(0)];
    Push(State([], [At(0)], {0}), WIDE, 2, [At(2)], [At(2), At(0)]);
  }

  lemma WideVisit1()
    ensures Visit(W1, WIDE, 1) == W2
  {
    InsertFront(At(1), [At(2)]);
    InsertFront(At(1), [At(2), At(0)]);
    assert Offer([At(2), At(0)], At(1), 2) == [At(1), At(2)];
    Push(W1, WIDE, 1, [At(1), At(2)], [At(1), At(2)]);
  }

  lemma WideVisit3()
    ensures Visit(W2.(cand := W2.cand[1..]), WIDE, 3) == W3
  {
    InsertFront(At(3), [At(2)]);
    InsertFront(At(3), [At(1), At(2)]);
    assert [At(1), At(2)][1..] == [At(2)];
    assert Offer([At(1), At(2)], At(3), 2) == [At(3), At(1)];
    Push(State([At(2)], [At(1), At(2)], {0, 2, 1}), WIDE, 3, [At(3), At(2)], [At(3), At(1)]);
  }

  lemma WideVisit4()
    ensures Visit(W3, WIDE, 4) == W4
  {
    InsertSecond(At(4), [At(3), At(2)]);
    InsertSecond(At(4), [At(3), At(1)]);
    assert Offer([At(3), At(1)], At(4), 2) == [At(3), At(4)];
    Push(W3, WIDE, 4, [At(3), At(4), At(2)], [At(3), At(4)]);
  }

  lemma StartTied(ef: nat)
    requires 1 <= ef <= 2
    ensures WellFormed(Start(Query(TIED, ef, -1), 0), Query(TIED, ef, -1))
    ensures Start(Query(TIED, ef, -1), 0) == State([At(0)], [At(0)], {0})
  {
    StartWellFormed(Query(TIED, ef, -1), 0);
  }

  lemma TiedInRange()
    ensures InRange(TIED_ADJ, |TIED|)
  {}

  lemma RunStep(s: State, q: Query, adj: seq<seq<nat>>, t: State)
    requires InRange(adj, |q.dist|) && WellFormed(s, q) && !Done(s, q)
    requires Expand(s, q, adj[s.cand[0].id]) == t
    ensures WellFormed(t, q) && Run(s, q, adj) == Run(t, q, adj)
  {
    RunUnfolds(s, q, adj);
  }

  /** s is a sound state, and its run is the run of t. */
  ghost predicate RunsAs(s: State, q: Query, t: State)
    requires InRange(TIED_ADJ, |q.dist|) && WellFormed(s, q)
  {
    WellFormed(t, q) && Run(s, q, TIED_ADJ) == Run(t, q, TIED_ADJ)
  }

  lemma NarrowStep1()
    requires InRange(TIED_ADJ, |TIED|) && WellFormed(S0, NARROW)
    ensures RunsAs(S0, NARROW, N2)
  {
    NarrowVisit2();
    assert Visit(N1, NARROW, 1) == N2;
    ExpandTwo(S0, NARROW, 2, 1, N1, N2);
    RunStep(S0, NARROW, TIED_ADJ, N2);
  }

  lemma NarrowStep2()
    requires InRange(TIED_ADJ, |TIED|) && WellFormed(N2, NARROW)
    ensures RunsAs(N2, NARROW, N3)
  {
    NarrowVisit5();
    ExpandOne(N2, NARROW, 5, N3);
    RunStep(N2, NARROW, TIED_ADJ, N3);
  }

  lemma NarrowEnd()
    requires InRange(TIED_ADJ, |TIED|) && WellFormed(N3, NARROW)
    ensures Run(N3, NARROW, TIED_ADJ).res == [At(5)]
  {
    RunStep(N3, NARROW, TIED_ADJ, N3.(cand := N3.cand[1..]));
  }

  lemma NarrowFindsNearest()
    requires InRange(TIED_ADJ, |TIED|)
    ensures Search(TIED_ADJ, NARROW, 0) == [At(5)]
  {
    StartTied(1);
    NarrowStep1();
    NarrowStep2();
    NarrowEnd();
  }

  lemma WideStep1()
    requires InRange(TIED_ADJ, |TIED|) && WellFormed(S0, WIDE)
    ensures RunsAs(S0, WIDE, W2)
  {
    WideVisit2();
    WideVisit1();
    ExpandTwo(S0, WIDE, 2, 1, W1, W2);
    RunStep(S0, WIDE, TIED_ADJ, W2);
  }

  lemma WideStep2()
    requires InRange(TIED_ADJ, |TIED|) && WellFormed(W2, WIDE)
    ensures RunsAs(W2, WIDE, W4)
  {
    WideVisit3();
    WideVisit4();
    ExpandTwo(W2, WIDE, 3, 4, W3, W4);
    RunStep(W2, WIDE, TIED_ADJ, W4);
  }

  lemma WideEnd()
    requires InRange(TIED_ADJ, |TIED|) && WellFormed(W4, WIDE)
    ensures Run(W4, WIDE, TIED_ADJ).res == [At(3), At(4)]
  {
    var t := W4.(cand := [At(4), At(2)]);
    assert W4.cand[1..] == t.cand;
    RunStep(W4, WIDE, TIED_ADJ, t);
    var u := W4.(cand := [At(2)]);
    assert t.cand[1..] == u.cand;
    RunStep(t, WIDE, TIED_ADJ, u);
    assert Done(u, WIDE);
  }

  lemma WideMissesNearest()
    requires InRange(TIED_ADJ, |TIED|)
    ensures Search(TIED_ADJ, WIDE, 0) == [At(3), At(4)]
  {
    StartTied(2);
    WideStep1();
    WideStep2();
    WideEnd();
  }

  /** With two nodes equally far, raising ef from 1 to 2 can lose the nearest. */
  lemma TiesCanHurt()
    ensures InRange(TIED_ADJ, |TIED|)
    ensures !NoWorse(Search(TIED_ADJ, NARROW, 0), Search(TIED_ADJ, WIDE, 0))
  {
    TiedInRange();
    NarrowFindsNearest();
    WideMissesNearest();
  }
}
