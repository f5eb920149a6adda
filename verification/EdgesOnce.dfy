/** No list of a parallel build ever names a node twice, whatever the schedule.
`link` in `internal/index/hnsw.go` appends without looking, so two insertions
that found each other would record an edge twice; the point is that they never
do. Each layer falls into pieces joined only when a node that has searched the
layer is attached to the piece of its entry point, and a node that has not is
always the root of its own piece, which its search cannot enter. That the entry
points never lead in a circle is inherited from the layer above. */
module EdgesOnce {
  import opened Graph
  import opened Heuristic
  import opened LayerSearch
  import opened Completeness
  import opened Descent
  import opened Build
  import opened BuildInvariant
  import opened Locking
  import opened ParallelBuild
  import opened SoloRun

  // ---------- The history of one layer ----------

  /** Of every node: the piece it is in, counting the nodes that have finished
  searching the layer (c); the root its entry points lead to, counting also those
  that only know where they will start (r); and a rank falling towards it (k). */
  datatype Pieces = Pieces(c: seq<nat>, r: seq<nat>, k: seq<nat>)

  ghost predicate Rooted(p: Pieces, v: nat)
    requires v < |p.c| == |p.r|
  {
    p.c[v] < |p.r| && p.r[v] < |p.r| && p.r[v] == p.r[p.c[v]]
  }

  ghost predicate Sized(p: Pieces, n: nat) {
    |p.c| == |p.r| == |p.k| == n && forall v :: 0 <= v < n ==> Rooted(p, v)
  }

  /** Nothing has to do with node a on this layer yet. */
  ghost predicate Alone(p: Pieces, a: nat) {
    && a < |p.c| == |p.r| && p.c[a] == a && p.r[a] == a
    && forall v :: 0 <= v < |p.c| && v != a ==> p.c[v] != a && p.r[v] != a
  }

  /** Node b will start from node t, in a piece of lower rank. */
  ghost predicate Follows(p: Pieces, b: nat, t: nat)
  {
    && b < |p.c| == |p.r| == |p.k| && t < |p.c| && p.c[t] < |p.k|
    && p.r[b] == p.r[t] && p.k[b] > p.k[p.c[t]]
  }

  /** Node b learns that it will start from t. */
  ghost function Head(p: Pieces, n: nat, b: nat, t: nat): (q: Pieces)
    requires Sized(p, n) && b < n && t < n
    ensures |q.c| == |q.r| == |q.k| == n && q.c == p.c
    ensures forall v :: 0 <= v < n ==> q.r[v] == if p.r[v] == b then p.r[t] else p.r[v]
    ensures forall v :: 0 <= v < n ==> q.k[v] == if p.r[v] == b then p.k[v] + p.k[p.c[t]] + 1 else p.k[v]
  {
    assert Rooted(p, t);
    Pieces(p.c,
           seq(n, v requires 0 <= v < n => if p.r[v] == b then p.r[t] else p.r[v]),
           seq(n, v requires 0 <= v < n => if p.r[v] == b then p.k[v] + p.k[p.c[t]] + 1 else p.k[v]))
  }

  /** Node b has searched the layer from t: its piece joins that of t. */
  ghost function Join(p: Pieces, n: nat, b: nat, t: nat): (q: Pieces)
    requires Sized(p, n) && b < n && t < n
    ensures |q.c| == |q.r| == |q.k| == n && q.r == p.r && q.k == p.k
    ensures forall v :: 0 <= v < n ==> q.c[v] == if p.c[v] == b then p.c[t] else p.c[v]
  {
    Pieces(seq(n, v requires 0 <= v < n => if p.c[v] == b then p.c[t] else p.c[v]), p.r, p.k)
  }

  lemma HeadSized(p: Pieces, n: nat, b: nat, t: nat)
    requires Sized(p, n) && b < n && t < n
    ensures Sized(Head(p, n, b, t), n)
  {
    var q := Head(p, n, b, t);
    assert Rooted(p, t);
    forall v | 0 <= v < n ensures Rooted(q, v) {
      assert Rooted(p, v) && Rooted(p, p.c[v]);
    }
  }

  lemma JoinSized(p: Pieces, n: nat, b: nat, t: nat)
    requires Sized(p, n) && b < n && t < n && Follows(p, b, t)
    ensures Sized(Join(p, n, b, t), n)
  {
    var q := Join(p, n, b, t);
    assert Rooted(p, t);
    forall v | 0 <= v < n ensures Rooted(q, v) {
      assert Rooted(p, v);
    }
  }

  lemma HeadKeepsAlone(p: Pieces, n: nat, b: nat, t: nat, a: nat)
    requires Sized(p, n) && b < n && t < n && Alone(p, a) && a != b && a != t
    ensures Alone(Head(p, n, b, t), a)
  {}

  lemma JoinKeepsAlone(p: Pieces, n: nat, b: nat, t: nat, a: nat)
    requires Sized(p, n) && b < n && t < n && Alone(p, a) && a != b && a != t
    ensures Alone(Join(p, n, b, t), a)
  {}

  lemma HeadKeepsFollows(p: Pieces, n: nat, b: nat, t: nat, y: nat, e: nat)
    requires Sized(p, n) && b < n && t < n && Follows(p, y, e)
    ensures Follows(Head(p, n, b, t), y, e)
  {
    assert Rooted(p, e);
  }

  lemma HeadFollows(p: Pieces, n: nat, b: nat, t: nat)
    requires Sized(p, n) && b < n && t < n && p.r[b] == b && p.r[t] != b
    ensures Follows(Head(p, n, b, t), b, t)
  {
    assert Rooted(p, t);
  }

  lemma JoinKeepsFollows(p: Pieces, n: nat, b: nat, t: nat, y: nat, e: nat)
    requires Sized(p, n) && Follows(p, b, t) && Follows(p, y, e)
    ensures Follows(Join(p, n, b, t), y, e)
  {
    assert Rooted(p, t);
  }

  // ---------- What holds of a worker on one layer ----------

  /** Not attached on any layer yet. */
  ghost predicate Newcomer(w: Worker) {
    w.Claimed? || w.Reading? || w.Walking?
  }

  /** Has still to search layer L. */
  ghost predicate Unsettled(w: Worker, L: nat) {
    || (w.Searching? && L <= w.lc)
    || ((w.Chosen? || w.Linking?) && L < w.lc)
  }

  /** Layer L is the next one to be searched, or is being searched. */
  ghost predicate Heading(w: Worker, L: nat) {
    || (w.Searching? && L == w.lc)
    || (w.Chosen? && L + 1 == w.lc && w.found != [])
    || (w.Linking? && L + 1 == w.lc)
  }

  /** Where it starts there. */
  ghost function Target(w: Worker, L: nat): (t: nat)
    requires Heading(w, L)
  {
    if w.Chosen? then w.found[0].id else w.ep
  }

  ghost predicate AllIn(p: Pieces, nbs: seq<nat>, a: nat) {
    a < |p.c| && forall x :: x in nbs ==> x < |p.c| && p.c[x] == p.c[a]
  }

  ghost predicate SeenIn(p: Pieces, seen: set<nat>, a: nat) {
    a < |p.c| && forall x :: x in seen ==> x < |p.c| && p.c[x] == p.c[a]
  }

  ghost predicate WorkerAt(p: Pieces, L: nat, w: Worker) {
    && (Newcomer(w) ==> Alone(p, w.id))
    && (Unsettled(w, L) ==> w.id < |p.c| == |p.r| && p.c[w.id] == w.id)
    && (Unsettled(w, L) && Heading(w, L) ==> Follows(p, w.id, Target(w, L)))
    && (Unsettled(w, L) && !Heading(w, L) ==> p.r[w.id] == w.id)
    && (w.Searching? && L == w.lc ==> SeenIn(p, w.s.seen, w.ep))
    && (w.Chosen? && L == w.lc ==> AllIn(p, Ids(w.found), w.id))
    && (w.Linking? && L == w.lc ==> AllIn(p, w.keep, w.id))
  }

  ghost predicate ListsAgree(links: Links, p: Pieces, L: nat) {
    forall a: nat :: Occupies(links, a, L) ==> AllIn(p, links[a][L], a)
  }

  ghost predicate LayerOk(st: System, p: Pieces, L: nat) {
    && Sized(p, |st.sh.links|) && ListsAgree(st.sh.links, p, L)
    && (forall w :: 0 <= w < |st.workers| ==> WorkerAt(p, L, st.workers[w]))
    && (forall a :: st.sh.next <= a < |st.sh.links| ==> Alone(p, a))
  }

  /** Whatever leads to w's node on layer L, and is on the layer above, is in the
  node's piece there, as long as w has not searched the layer above. */
  ghost predicate RootsBelow(links: Links, lo: Pieces, hi: Pieces, L: nat, w: Worker) {
    && |links| <= |lo.r| && |links| <= |hi.c|
    && (Unsettled(w, L + 1) ==>
          forall v: nat :: Occupies(links, v, L + 1) && lo.r[v] == w.id ==> hi.c[v] == w.id)
  }

  lemma HeadKeepsWorker(p: Pieces, n: nat, b: nat, t: nat, L: nat, w: Worker)
    requires Sized(p, n) && b < n && t < n && WorkerAt(p, L, w)
    requires !w.Idle? ==> w.id != b
    requires Newcomer(w) ==> w.id != t
    ensures WorkerAt(Head(p, n, b, t), L, w)
  {
    hide Alone, Follows;
    if Newcomer(w) { HeadKeepsAlone(p, n, b, t, w.id); }
    if Unsettled(w, L) && Heading(w, L) { HeadKeepsFollows(p, n, b, t, w.id, Target(w, L)); }
  }

  lemma JoinKeepsWorker(p: Pieces, n: nat, b: nat, t: nat, L: nat, w: Worker)
    requires Sized(p, n) && Follows(p, b, t) && WorkerAt(p, L, w)
    requires !w.Idle? ==> w.id != b
    requires Newcomer(w) ==> w.id != t
    ensures WorkerAt(Join(p, n, b, t), L, w)
  {
    if Newcomer(w) { JoinKeepsAlone(p, n, b, t, w.id); }
    if Unsettled(w, L) && Heading(w, L) { JoinKeepsFollows(p, n, b, t, w.id, Target(w, L)); }
  }

  // ---------- What holds of the system ----------

  ghost predicate LinksOnce(links: Links) {
    forall a: nat, lc: nat :: Occupies(links, a, lc) ==> NoRepeats(links[a][lc])
  }

  /** A node that w is still to be linked into. */
  ghost predicate Wanted(w: Worker, x: nat) {
    (w.Chosen? && x in Ids(w.found)) || (w.Linking? && w.i <= |w.keep| && x in w.keep[w.i..])
  }

  /** None of them lists w's node yet. */
  ghost predicate NotListed(links: Links, w: Worker) {
    w.Chosen? || w.Linking? ==>
      forall x: nat :: Wanted(w, x) && Occupies(links, x, w.lc) ==> w.id !in links[x][w.lc]
  }

  /** Two insertions never find each other on the same layer. */
  ghost predicate NotMutual(u: Worker, w: Worker) {
    u.Chosen? && (w.Chosen? || w.Linking?) && u.lc == w.lc && Wanted(w, u.id) ==> w.id !in Ids(u.found)
  }

  /** No walk stands on a node that is not attached. */
  ghost predicate NotHeadedFor(u: Worker, v: Worker) {
    u.Walking? && Newcomer(v) ==> u.best != v.id
  }

  ghost predicate PairOk(u: Worker, v: Worker) {
    NotMutual(u, v) && NotHeadedFor(u, v)
  }

  ghost predicate WorkerOnce(sh: Shared, w: Worker) {
    && (w.Walking? || w.Searching? || w.Chosen? || w.Linking? ==> w.lc <= sh.maxLevel)
    && (w.Linking? ==> NoRepeats(w.keep))
    && NotListed(sh.links, w)
  }

  ghost predicate LayersOk(st: System, h: seq<Pieces>) {
    && (forall L :: 0 <= L < |h| ==> LayerOk(st, h[L], L))
    && (forall L, w :: 0 <= L < |h| - 1 && 0 <= w < |st.workers| ==>
          RootsBelow(st.sh.links, h[L], h[L + 1], L, st.workers[w]))
  }

  ghost predicate PairsOk(workers: seq<Worker>) {
    forall u, v :: 0 <= u < |workers| && 0 <= v < |workers| ==> PairOk(workers[u], workers[v])
  }

  ghost predicate Once(plan: Plan, st: System, h: seq<Pieces>) {
    && |st.sh.links| == |plan.levels|
    && st.sh.maxLevel < |h| && (forall a :: 0 <= a < |plan.levels| ==> plan.levels[a] < |h|)
    && LayersOk(st, h)
    && LinksOnce(st.sh.links)
    && (forall w :: 0 <= w < |st.workers| ==> WorkerOnce(st.sh, st.workers[w]))
    && PairsOk(st.workers)
  }

  // ---------- Steps that change no list and attach nothing ----------

  /** All that a replaced worker must show when no list changes. */
  ghost predicate Quiet(st: System, h: seq<Pieces>, w: nat, sh: Shared, x: Worker)
    requires w < |st.workers|
  {
    && sh.links == st.sh.links && st.sh.next <= sh.next && st.sh.maxLevel <= sh.maxLevel < |h|
    && !x.Chosen? && !x.Linking? && WorkerOnce(sh, x)
    && (forall L :: 0 <= L < |h| ==> WorkerAt(h[L], L, x))
    && (forall L :: Unsettled(x, L) ==> !st.workers[w].Idle? && x.id == st.workers[w].id && Unsettled(st.workers[w], L))
    && NotHeadedFor(x, x)
    && (forall v :: 0 <= v < |st.workers| && v != w ==>
      NotHeadedFor(x, st.workers[v]) && NotHeadedFor(st.workers[v], x))
  }

  lemma PairsAfter(workers: seq<Worker>, w: nat, x: Worker)
    requires PairsOk(workers) && w < |workers| && PairOk(x, x)
    requires forall v :: 0 <= v < |workers| && v != w ==> PairOk(x, workers[v]) && PairOk(workers[v], x)
    ensures PairsOk(workers[w := x])
  {
    hide PairOk;
  }

  lemma QuietMove(plan: Plan, st: System, h: seq<Pieces>, w: nat, sh: Shared, x: Worker)
    requires Once(plan, st, h) && w < |st.workers| && Quiet(st, h, w, sh, x)
    ensures Once(plan, System(sh, st.workers[w := x]), h)
  {
    hide WorkerAt, Sized, ListsAgree, LinksOnce, Alone, NotListed;
    var r := System(sh, st.workers[w := x]);
    forall L | 0 <= L < |h| ensures LayerOk(r, h[L], L) {
      assert LayerOk(st, h[L], L);
    }
    forall L, v | 0 <= L < |h| - 1 && 0 <= v < |r.workers|
      ensures RootsBelow(sh.links, h[L], h[L + 1], L, r.workers[v])
    {
      assert RootsBelow(st.sh.links, h[L], h[L + 1], L, st.workers[v]);
    }
    PairsAfter(st.workers, w, x);
  }

  /** What the safety invariant says of one worker. */
  lemma InvGives(plan: Plan, st: System, w: nat)
    requires Inv(plan, st) && w < |st.workers|
    ensures SharedOk(plan, st.sh) && WorkerOk(plan, st.sh, st.workers[w])
    ensures !st.workers[w].Idle? ==> st.workers[w].id != st.sh.entry && st.workers[w].id < |st.sh.links|
    ensures forall v :: 0 <= v < |st.workers| && v != w && !st.workers[v].Idle? && !st.workers[w].Idle? ==>
      st.workers[v].id != st.workers[w].id
    ensures Step(plan, st, w) ==
      System(Act(plan, st.sh, st.workers[w]).sh, st.workers[w := Act(plan, st.sh, st.workers[w]).w])
  {
    hide Act;
  }

  /** No walk stands on a node without levels. */
  lemma BestIsPublished(plan: Plan, st: System, v: nat)
    requires Inv(plan, st) && v < |st.workers| && st.workers[v].Walking?
    ensures st.workers[v].best < |st.sh.links| && |st.sh.links[st.workers[v].best]| > 0
  {
    assert WorkerOk(plan, st.sh, st.workers[v]);
  }

  lemma ClaimOnce(plan: Plan, st: System, h: seq<Pieces>, w: nat)
    requires Inv(plan, st) && Once(plan, st, h) && w < |st.workers| && st.workers[w].Idle?
    ensures Once(plan, Step(plan, st, w), h)
  {
    hide Inv, Step, Act, SharedOk, WorkerOk, LinksOnce, Sized, ListsAgree, PairsOk;
    InvGives(plan, st, w);
    ClaimActs(plan, st.sh);
    var m := Act(plan, st.sh, Idle);
    forall L | 0 <= L < |h| ensures WorkerAt(h[L], L, m.w) {
      assert LayerOk(st, h[L], L);
    }
    forall v | 0 <= v < |st.workers| && v != w ensures NotHeadedFor(st.workers[v], m.w) {
      if st.workers[v].Walking? { BestIsPublished(plan, st, v); }
    }
    QuietMove(plan, st, h, w, m.sh, m.w);
  }

  lemma ClaimActs(plan: Plan, sh: Shared)
    requires SharedOk(plan, sh)
    ensures var m := Act(plan, sh, Idle);
      if sh.next < |plan.levels| then m == Move(sh.(next := sh.next + 1), Claimed(sh.next)) else m == Move(sh, Idle)
    ensures sh.next < |plan.levels| ==> sh.next < |sh.links| && |sh.links[sh.next]| == 0
  {}

  lemma RaiseOnce(plan: Plan, st: System, h: seq<Pieces>, w: nat)
    requires Inv(plan, st) && Once(plan, st, h) && w < |st.workers| && st.workers[w].Raising?
    ensures Once(plan, Step(plan, st, w), h)
  {
    hide Inv, Step, Act, SharedOk, WorkerOk, LinksOnce, LayersOk, PairsOk;
    InvGives(plan, st, w);
    RaiseAct(plan, st.sh, st.workers[w].id);
    var m := Act(plan, st.sh, st.workers[w]);
    QuietMove(plan, st, h, w, m.sh, m.w);
  }

  /** Starting a walk from the entry. */
  lemma BeginWalkOnce(plan: Plan, st: System, h: seq<Pieces>, w: nat)
    requires Inv(plan, st) && Once(plan, st, h) && w < |st.workers| && st.workers[w].Reading?
    requires st.workers[w].id < |plan.levels| && st.sh.maxLevel > plan.levels[st.workers[w].id]
    ensures Once(plan, Step(plan, st, w), h)
  {
    hide Inv, Step, Act, SharedOk, WorkerOk, LinksOnce, PairsOk, Alone;
    InvGives(plan, st, w);
    ReadAct(plan, st.sh, st.workers[w].id);
    var m := Act(plan, st.sh, st.workers[w]);
    forall L | 0 <= L < |h| ensures WorkerAt(h[L], L, m.w) {
      assert LayerOk(st, h[L], L);
      assert WorkerAt(h[L], L, st.workers[w]);
    }
    forall v | 0 <= v < |st.workers| && v != w
      ensures NotHeadedFor(m.w, st.workers[v]) && NotHeadedFor(st.workers[v], m.w)
    {
      InvGives(plan, st, v);
      OldPair(st, v, w);
    }
    QuietMove(plan, st, h, w, m.sh, m.w);
  }

  lemma OldPair(st: System, u: nat, v: nat)
    requires PairsOk(st.workers) && u < |st.workers| && v < |st.workers|
    ensures PairOk(st.workers[u], st.workers[v])
  {}

  /** A list leads only to attached nodes from an attached one. */
  lemma ListsAvoidNewcomers(links: Links, p: Pieces, L: nat, a: nat, x: nat, b: nat)
    requires ListsAgree(links, p, L) && Occupies(links, a, L) && x in links[a][L]
    requires Alone(p, b) && a != b
    ensures x != b
  {
    assert AllIn(p, links[a][L], a);
  }

  lemma WalkOnce(plan: Plan, st: System, h: seq<Pieces>, w: nat)
    requires Inv(plan, st) && Once(plan, st, h) && w < |st.workers| && st.workers[w].Walking?
    requires Act(plan, st.sh, st.workers[w]).w.Walking?
    ensures Once(plan, Step(plan, st, w), h)
  {
    hide Inv, Step, Act, SharedOk, WorkerOk, LinksOnce, PairsOk, Alone, ScanBest, ListsAgree;
    InvGives(plan, st, w);
    var me := st.workers[w];
    WalkAct(plan, st.sh, me.id, me.lc, me.best);
    WalkingFacts(plan, st.sh, me.id, me.lc, me.best);
    var m := Act(plan, st.sh, me);
    assert m.sh == st.sh && m.w.id == me.id;
    assert m.w.best == me.best || m.w.best in st.sh.links[me.best][me.lc];
    forall L | 0 <= L < |h| ensures WorkerAt(h[L], L, m.w) {
      assert LayerOk(st, h[L], L);
      assert WorkerAt(h[L], L, me);
    }
    var L := me.lc;
    assert LayerOk(st, h[L], L);
    forall v | 0 <= v < |st.workers| ensures NotHeadedFor(m.w, st.workers[v]) && NotHeadedFor(st.workers[v], m.w) {
      OldPair(st, v, w);
      OldPair(st, w, v);
      assert WorkerAt(h[L], L, st.workers[v]);
      if Newcomer(st.workers[v]) && m.w.best != me.best {
        ListsAvoidNewcomers(st.sh.links, h[L], L, me.best, m.w.best, st.workers[v].id);
      }
    }
    QuietMove(plan, st, h, w, m.sh, m.w);
  }

  /** Expanding a candidate stays in the piece of the starting point. */
  lemma ExpandStaysIn(p: Pieces, links: Links, lc: nat, s: State, q: Query, ep: nat)
    requires WellFormed(s, q) && s.cand != [] && Occupies(links, s.cand[0].id, lc)
    requires AllBelow(links[s.cand[0].id][lc], |q.dist|)
    requires ListsAgree(links, p, lc) && SeenIn(p, s.seen, ep)
    ensures SeenIn(p, Expand(s, q, links[s.cand[0].id][lc]).seen, ep)
  {
    var v := s.cand[0].id;
    var nbs := links[v][lc];
    assert v in s.seen;
    assert AllIn(p, nbs, v);
    var piece := set x | x in Nodes(|p.c|) && p.c[x] == p.c[ep];
    forall j | 0 <= j < |nbs| ensures nbs[j] in piece { assert nbs[j] in nbs; }
    VisitFromStaysInside(s.(cand := s.cand[1..]), q, nbs, 0, piece);
  }

  lemma ExpandOnce(plan: Plan, st: System, h: seq<Pieces>, w: nat)
    requires Inv(plan, st) && Once(plan, st, h) && w < |st.workers| && st.workers[w].Searching?
    requires Act(plan, st.sh, st.workers[w]).w.Searching?
    ensures Once(plan, Step(plan, st, w), h)
  {
    hide Inv, Step, Act, SharedOk, LinksOnce, PairsOk, Alone, Expand, WellFormed, ListsAgree, Follows, SeenIn, AllBelow;
    InvGives(plan, st, w);
    var me := st.workers[w];
    SearchAct(plan, st.sh, me.id, me.lc, me.ep, me.s);
    SearchingFits(plan, st.sh, me);
    var m := Act(plan, st.sh, me);
    forall L | 0 <= L < |h| ensures WorkerAt(h[L], L, m.w) {
      assert LayerOk(st, h[L], L);
      assert WorkerAt(h[L], L, me);
      if L == me.lc { ExpandStaysIn(h[L], st.sh.links, L, me.s, plan.Q(me.id), me.ep); }
    }
    QuietMove(plan, st, h, w, m.sh, m.w);
  }

  lemma SearchingFits(plan: Plan, sh: Shared, w: Worker)
    requires SharedOk(plan, sh) && WorkerOk(plan, sh, w) && w.Searching?
    ensures plan.Valid() && w.id < plan.ds.Len() == |sh.links| && |plan.Q(w.id).dist| == |sh.links|
    ensures WellFormed(w.s, plan.Q(w.id)) && w.s.seen <= Occupants(sh.links, w.lc)
    ensures w.s.res != [] && w.id !in Ids(w.s.res) && NoRepeats(Ids(w.s.res))
    ensures Occupies(sh.links, w.id, w.lc) && Occupies(sh.links, w.ep, w.lc) && w.ep != w.id
    ensures forall x :: x in Ids(w.s.res) ==> x in w.s.seen && Occupies(sh.links, x, w.lc)
  {
    ResultsWithin(plan, sh, w.id, w.lc, w.s);
    forall x | x in Ids(w.s.res) ensures x in w.s.seen && Occupies(sh.links, x, w.lc) {
      var j :| 0 <= j < |w.s.res| && Ids(w.s.res)[j] == x;
      assert w.s.res[j].id in w.s.seen;
      assert x in Occupants(sh.links, w.lc);
    }
  }

  /** Done with a layer: down to the next, or on to the top. */
  lemma LayerDoneOnce(plan: Plan, st: System, h: seq<Pieces>, w: nat)
    requires Inv(plan, st) && Once(plan, st, h) && w < |st.workers| && st.workers[w].Linking?
    requires st.workers[w].i == |st.workers[w].keep|
    ensures Once(plan, Step(plan, st, w), h)
  {
    hide Inv, Step, Act, SharedOk, LinksOnce, PairsOk, Alone, LinkStep, ListsAgree, Start;
    InvGives(plan, st, w);
    var me := st.workers[w];
    LinkAct(plan, st.sh, me.id, me.lc, me.keep, me.i, me.ep);
    StartSees(plan, me.id, me.ep);
    var m := Act(plan, st.sh, me);
    forall L | 0 <= L < |h| ensures WorkerAt(h[L], L, m.w) {
      assert LayerOk(st, h[L], L);
      assert WorkerAt(h[L], L, me);
    }
    QuietMove(plan, st, h, w, m.sh, m.w);
  }

  lemma StartSees(plan: Plan, id: nat, ep: nat)
    requires plan.Valid() && id < plan.ds.Len() && ep < plan.ds.Len()
    ensures Start(plan.Q(id), ep).seen == {ep}
  {}

  // ---------- Publishing ----------

  lemma PublishOnce(plan: Plan, st: System, h: seq<Pieces>, w: nat)
    requires Inv(plan, st) && Once(plan, st, h) && w < |st.workers| && st.workers[w].Claimed?
    ensures Once(plan, Step(plan, st, w), h)
  {
    hide Inv, Step, Act, SharedOk, Sized, AllIn, SeenIn, Alone, NoRepeats;
    InvGives(plan, st, w);
    var me := st.workers[w];
    var id := me.id;
    PublishAct(plan, st.sh, id);
    var m := Act(plan, st.sh, me);
    var r := Step(plan, st, w);
    forall L | 0 <= L < |h| ensures LayerOk(r, h[L], L) {
      PublishLayer(plan, st, h[L], L, w, r);
    }
    forall L, v | 0 <= L < |h| - 1 && 0 <= v < |r.workers|
      ensures RootsBelow(r.sh.links, h[L], h[L + 1], L, r.workers[v])
    {
      assert RootsBelow(st.sh.links, h[L], h[L + 1], L, st.workers[v]);
      assert LayerOk(st, h[L], L) && WorkerAt(h[L], L, me);
      AloneRoots(h[L], id);
    }
    PublishedOnce(st.sh.links, id, plan.levels[id]);
    forall v | 0 <= v < |r.workers| ensures WorkerOnce(r.sh, r.workers[v]) {
      assert WorkerOnce(st.sh, st.workers[v]);
      PublishedNotListed(st.sh.links, id, plan.levels[id], st.workers[v]);
    }
    forall v | 0 <= v < |r.workers| && v != w ensures PairOk(m.w, r.workers[v]) && PairOk(r.workers[v], m.w) {
      OldPair(st, v, w);
    }
    PairsAfter(st.workers, w, m.w);
  }

  lemma AloneRoots(p: Pieces, a: nat)
    requires Alone(p, a)
    ensures a < |p.r| && p.r[a] == a
  {}

  lemma PublishLayer(plan: Plan, st: System, p: Pieces, L: nat, w: nat, r: System)
    requires w < |st.workers| && st.workers[w].Claimed? && st.workers[w].id < |st.sh.links|
    requires LayerOk(st, p, L) && st.workers[w].id < |plan.levels|
    requires r.workers == st.workers[w := Reading(st.workers[w].id)] && r.sh.next == st.sh.next
    requires r.sh.links == Publish(st.sh.links, st.workers[w].id, plan.levels[st.workers[w].id])
    ensures LayerOk(r, p, L)
  {
    hide Sized, Alone;
    var id := st.workers[w].id;
    assert WorkerAt(p, L, st.workers[w]);
    AloneRoots(p, id);
    forall a: nat | Occupies(r.sh.links, a, L) ensures AllIn(p, r.sh.links[a][L], a) {
      if a == id {
        assert r.sh.links[a][L] == [];
        AloneHas(p, id);
      } else {
        assert Occupies(st.sh.links, a, L);
      }
    }
  }

  lemma AloneHas(p: Pieces, a: nat)
    requires Alone(p, a)
    ensures a < |p.c|
  {}

  lemma PublishedOnce(links: Links, id: nat, level: nat)
    requires LinksOnce(links) && id < |links|
    ensures LinksOnce(Publish(links, id, level))
  {
    var r := Publish(links, id, level);
    forall a: nat, lc: nat | Occupies(r, a, lc) ensures NoRepeats(r[a][lc]) {
      if a != id { assert Occupies(links, a, lc); }
    }
  }

  lemma PublishedNotListed(links: Links, id: nat, level: nat, w: Worker)
    requires NotListed(links, w) && id < |links|
    ensures NotListed(Publish(links, id, level), w)
  {
    var r := Publish(links, id, level);
    if w.Chosen? || w.Linking? {
      forall x: nat | Wanted(w, x) && Occupies(r, x, w.lc) ensures w.id !in r[x][w.lc] {
        if x != id { assert Occupies(links, x, w.lc); }
      }
    }
  }

  // ---------- Changing one list ----------

  lemma ListChangeLayer(st: System, p: Pieces, L: nat, w: nat, r: System, a: nat, lc: nat, nbs: seq<nat>, x: Worker)
    requires LayerOk(st, p, L) && w < |st.workers| && Occupies(st.sh.links, a, lc)
    requires r.sh.links == SetList(st.sh.links, a, lc, nbs) && r.sh.next == st.sh.next
    requires r.workers == st.workers[w := x]
    requires WorkerAt(p, L, x) && (L == lc ==> AllIn(p, nbs, a))
    ensures LayerOk(r, p, L)
  {
    hide Sized, AllIn, Alone, WorkerAt;
    forall b: nat | Occupies(r.sh.links, b, L) ensures AllIn(p, r.sh.links[b][L], b) {
      assert Occupies(st.sh.links, b, L);
    }
  }

  lemma ListChangeOnce(links: Links, a: nat, lc: nat, nbs: seq<nat>)
    requires LinksOnce(links) && Occupies(links, a, lc) && NoRepeats(nbs)
    ensures LinksOnce(SetList(links, a, lc, nbs))
  {
    hide NoRepeats;
    var r := SetList(links, a, lc, nbs);
    forall b: nat, l: nat | Occupies(r, b, l) ensures NoRepeats(r[b][l]) {
      assert Occupies(links, b, l);
    }
  }

  lemma ListChangeNotListed(links: Links, a: nat, lc: nat, nbs: seq<nat>, v: Worker)
    requires Occupies(links, a, lc) && NotListed(links, v)
    requires (v.Chosen? || v.Linking?) && v.lc == lc && Wanted(v, a) ==> v.id !in nbs
    ensures NotListed(SetList(links, a, lc, nbs), v)
  {
    hide Wanted;
    var r := SetList(links, a, lc, nbs);
    if v.Chosen? || v.Linking? {
      forall x: nat | Wanted(v, x) && Occupies(r, x, v.lc) ensures v.id !in r[x][v.lc] {
        assert Occupies(links, x, v.lc);
      }
    }
  }

  lemma SameOccupants(l1: Links, l2: Links, L: nat)
    requires SameShape(l1, l2)
    ensures forall y: nat :: Occupies(l2, y, L) ==> Occupies(l1, y, L)
  {}

  lemma ListChangeRoots(st: System, h: seq<Pieces>, w: nat, r: System, x: Worker)
    requires LayersOk(st, h) && w < |st.workers| && SameShape(st.sh.links, r.sh.links)
    requires r.workers == st.workers[w := x]
    requires forall L :: Unsettled(x, L) ==>
      !st.workers[w].Idle? && x.id == st.workers[w].id && Unsettled(st.workers[w], L)
    ensures forall L, v :: 0 <= L < |h| - 1 && 0 <= v < |r.workers| ==>
      RootsBelow(r.sh.links, h[L], h[L + 1], L, r.workers[v])
  {
    hide LayerOk, Unsettled;
    forall L, v | 0 <= L < |h| - 1 && 0 <= v < |r.workers|
      ensures RootsBelow(r.sh.links, h[L], h[L + 1], L, r.workers[v])
    {
      assert RootsBelow(st.sh.links, h[L], h[L + 1], L, st.workers[v]);
      SameOccupants(st.sh.links, r.sh.links, L + 1);
    }
  }

  lemma OwnAct(plan: Plan, sh: Shared, w: Worker)
    requires SharedOk(plan, sh) && WorkerOk(plan, sh, w) && w.Chosen?
    ensures IdsWithin(plan.ds, w.found) && w.found != [] && Occupies(sh.links, w.id, w.lc) && w.id < |sh.floor|
    ensures w.id !in Ids(w.found)
    ensures Act(plan, sh, w)
      == Move(sh.(links := SetList(sh.links, w.id, w.lc, OwnList(plan, sh, w)), floor := sh.floor[w.id := w.lc]),
              Linking(w.id, w.lc, Keep(plan.ds, plan.par, w.found), 0, w.found[0].id))
  {
    hide ScanBest, StartOn, Keep, LinkStep, Expand, Publish, OwnList;
    FoundBelow(plan, sh, w.lc, w.found);
  }

  /** What `setOwn` leaves: found or listed before, and nothing twice. */
  lemma OwnListIsOnce(plan: Plan, sh: Shared, w: Worker)
    requires SharedOk(plan, sh) && WorkerOk(plan, sh, w) && w.Chosen?
    ensures IdsWithin(plan.ds, w.found) && Occupies(sh.links, w.id, w.lc)
    ensures NoRepeats(OwnList(plan, sh, w)) && NoRepeats(Keep(plan.ds, plan.par, w.found))
    ensures forall x :: x in OwnList(plan, sh, w) ==> x in Ids(w.found) || x in sh.links[w.id][w.lc]
    ensures forall x :: x in Keep(plan.ds, plan.par, w.found) ==> x in Ids(w.found)
  {
    hide Prune, Keep;
    FoundBelow(plan, sh, w.lc, w.found);
    KeepFacts(plan.ds, plan.par, w.found, w.id);
    var keep := Keep(plan.ds, plan.par, w.found);
    OwnBelow(plan, w.found, keep);
    var existing := sh.links[w.id][w.lc];
    ListsBelow(sh.links, w.id, w.lc);
    MergeBelow(keep, existing, plan.ds.Len());
    MergeFacts(keep, existing, 0);
    assert existing[0..] == existing;
    PruneFacts(plan.ds, plan.par, w.id, w.lc, MergeFrom(keep, existing, 0));
  }

  lemma OwnOnce(plan: Plan, st: System, h: seq<Pieces>, w: nat)
    requires Inv(plan, st) && Once(plan, st, h) && w < |st.workers| && st.workers[w].Chosen?
    ensures Once(plan, Step(plan, st, w), h)
  {
    hide Inv, Step, Act, SharedOk, WorkerOk, LinksOnce, PairsOk, Alone, OwnList, Keep, LayersOk, NoRepeats,
      NotListed, PairOk, SetList;
    InvGives(plan, st, w);
    var me := st.workers[w];
    var id, lc := me.id, me.lc;
    OwnAct(plan, st.sh, me);
    OwnListIsOnce(plan, st.sh, me);
    var m := Act(plan, st.sh, me);
    var own, r := OwnList(plan, st.sh, me), Step(plan, st, w);
    forall L | 0 <= L < |h| ensures LayerOk(r, h[L], L) {
      OwnLayer(plan, st, h, w, m.w, own, L);
      ListChangeLayer(st, h[L], L, w, r, id, lc, own, m.w);
    }
    ListChangeRoots(st, h, w, r, m.w);
    ListChangeOnce(st.sh.links, id, lc, own);
    forall v | 0 <= v < |r.workers| ensures WorkerOnce(r.sh, r.workers[v]) {
      if v == w {
        assert WorkerOnce(st.sh, st.workers[w]);
        OwnNotListed(st, w, m.w, own);
      } else {
        assert WorkerOnce(st.sh, st.workers[v]);
        OldPair(st, w, v);
        OwnSpares(st, w, v, own);
      }
    }
    forall v | 0 <= v < |st.workers| && v != w ensures PairOk(m.w, st.workers[v]) && PairOk(st.workers[v], m.w) {
      OldPair(st, v, w);
      OwnPair(st.workers[v], me, m.w);
    }
    OwnPair(Idle, me, m.w);
    PairsAfter(st.workers, w, m.w);
    assert LayersOk(r, h) by { LayersTogether(r, h); }
  }

  lemma LayersTogether(st: System, h: seq<Pieces>)
    requires forall L :: 0 <= L < |h| ==> LayerOk(st, h[L], L)
    requires forall L, w :: 0 <= L < |h| - 1 && 0 <= w < |st.workers| ==>
      RootsBelow(st.sh.links, h[L], h[L + 1], L, st.workers[w])
    ensures LayersOk(st, h)
  {
    hide LayerOk, RootsBelow;
  }

  lemma OwnLayer(plan: Plan, st: System, h: seq<Pieces>, w: nat, x: Worker, own: seq<nat>, L: nat)
    requires LayersOk(st, h) && L < |h| && w < |st.workers| && st.workers[w].Chosen? && st.workers[w].found != []
    requires var me := st.workers[w];
      && x.Linking? && x.id == me.id && x.lc == me.lc && x.ep == me.found[0].id && Occupies(st.sh.links, me.id, me.lc)
      && (forall y :: y in x.keep ==> y in Ids(me.found))
      && (forall y :: y in own ==> y in Ids(me.found) || y in st.sh.links[me.id][me.lc])
    ensures LayerOk(st, h[L], L) && WorkerAt(h[L], L, x) && (L == x.lc ==> AllIn(h[L], own, x.id))
  {
    hide Alone, Follows, Sized, RootsBelow;
    assert LayerOk(st, h[L], L);
    assert WorkerAt(h[L], L, st.workers[w]);
    if L == x.lc { assert AllIn(h[L], st.sh.links[x.id][L], x.id); }
  }

  lemma OwnNotListed(st: System, w: nat, x: Worker, own: seq<nat>)
    requires w < |st.workers| && WorkerOnce(st.sh, st.workers[w]) && st.workers[w].Chosen?
    requires var me := st.workers[w];
      && x.Linking? && x.id == me.id && x.lc == me.lc && x.i == 0 && Occupies(st.sh.links, me.id, me.lc)
      && (forall y :: y in x.keep ==> y in Ids(me.found)) && me.id !in Ids(me.found)
    ensures NotListed(SetList(st.sh.links, x.id, x.lc, own), x)
  {
    hide SetList;
    assert x.keep[0..] == x.keep;
    assert NotListed(st.sh.links, x) by {
      forall y: nat | Wanted(x, y) && Occupies(st.sh.links, y, x.lc) ensures x.id !in st.sh.links[y][x.lc] {
        assert Wanted(st.workers[w], y);
      }
    }
    ListChangeNotListed(st.sh.links, x.id, x.lc, own, x);
  }

  lemma OwnSpares(st: System, w: nat, v: nat, own: seq<nat>)
    requires w < |st.workers| && v < |st.workers| && WorkerOnce(st.sh, st.workers[v]) && st.workers[w].Chosen?
    requires PairOk(st.workers[w], st.workers[v])
    requires var me := st.workers[w];
      && Occupies(st.sh.links, me.id, me.lc)
      && (forall y :: y in own ==> y in Ids(me.found) || y in st.sh.links[me.id][me.lc])
    ensures NotListed(SetList(st.sh.links, st.workers[w].id, st.workers[w].lc, own), st.workers[v])
  {
    hide SetList;
    ListChangeNotListed(st.sh.links, st.workers[w].id, st.workers[w].lc, own, st.workers[v]);
  }

  lemma OwnPair(v: Worker, me: Worker, x: Worker)
    requires me.Chosen? && x.Linking? && x.id == me.id && x.lc == me.lc && x.i == 0
    requires forall y :: y in x.keep ==> y in Ids(me.found)
    requires v.Idle? || PairOk(v, me)
    ensures PairOk(x, v) && PairOk(v, x) && PairOk(x, x)
  {
    assert x.keep[0..] == x.keep;
  }

  lemma LinkOnce(plan: Plan, st: System, h: seq<Pieces>, w: nat)
    requires Inv(plan, st) && Once(plan, st, h) && w < |st.workers| && st.workers[w].Linking?
    requires st.workers[w].i < |st.workers[w].keep|
    ensures Once(plan, Step(plan, st, w), h)
  {
    hide Inv, Step, Act, SharedOk, WorkerOk, LinksOnce, PairsOk, Alone, LinkStep, LayersOk, NoRepeats, NotListed,
      PairOk, SetList;
    InvGives(plan, st, w);
    var me := st.workers[w];
    var id, lc, other := me.id, me.lc, me.keep[me.i];
    LinkAct(plan, st.sh, me.id, me.lc, me.keep, me.i, me.ep);
    var m := Act(plan, st.sh, me);
    var r := Step(plan, st, w);
    assert WorkerOnce(st.sh, me);
    StillToLink(st.sh.links, me);
    var nbs := LinkedOnce(plan, st.sh.links, other, id, lc);
    forall L | 0 <= L < |h| ensures LayerOk(r, h[L], L) {
      LinkLayer(st, h, w, m.w, nbs, L);
      ListChangeLayer(st, h[L], L, w, r, other, lc, nbs, m.w);
    }
    ListChangeShape(st.sh.links, other, lc, nbs);
    ListChangeRoots(st, h, w, r, m.w);
    ListChangeOnce(st.sh.links, other, lc, nbs);
    forall v | 0 <= v < |r.workers| ensures WorkerOnce(r.sh, r.workers[v]) {
      if v == w {
        LinkNotListed(st.sh.links, me, nbs);
      } else {
        assert WorkerOnce(st.sh, st.workers[v]);
        LinkSpares(st, w, v, nbs);
      }
    }
    forall v | 0 <= v < |st.workers| && v != w ensures PairOk(m.w, st.workers[v]) && PairOk(st.workers[v], m.w) {
      OldPair(st, v, w);
      LinkPair(st.workers[v], me);
    }
    LinkPair(Idle, me);
    PairsAfter(st.workers, w, m.w);
    assert LayersOk(r, h) by { LayersTogether(r, h); }
  }

  lemma ListChangeShape(links: Links, a: nat, lc: nat, nbs: seq<nat>)
    requires Occupies(links, a, lc)
    ensures SameShape(links, SetList(links, a, lc, nbs))
  {}

  lemma StillToLink(links: Links, w: Worker)
    requires w.Linking? && w.i < |w.keep| && NotListed(links, w) && NoRepeats(w.keep)
    ensures Wanted(w, w.keep[w.i])
    ensures Occupies(links, w.keep[w.i], w.lc) ==> w.id !in links[w.keep[w.i]][w.lc]
    ensures !Wanted(w.(i := w.i + 1), w.keep[w.i])
    ensures forall y :: Wanted(w.(i := w.i + 1), y) ==> Wanted(w, y)
  {
    assert w.keep[w.i] in w.keep[w.i..];
    assert forall y :: y in w.keep[w.i + 1..] ==> y in w.keep[w.i..];
  }

  lemma LinkedOnce(plan: Plan, links: Links, other: nat, id: nat, lc: nat) returns (nbs: seq<nat>)
    requires plan.Valid() && Buildable(plan.ds, plan.par, links) && Occupies(links, other, lc) && id < |links|
    requires LinksOnce(links) && id !in links[other][lc]
    ensures LinkStep(plan.ds, plan.par, links, other, id, lc) == SetList(links, other, lc, nbs)
    ensures NoRepeats(nbs) && forall x :: x in nbs ==> x in links[other][lc] || x == id
  {
    hide Linked, SetList;
    ListsBelow(links, other, lc);
    nbs := Linked(plan.ds, plan.par, other, lc, links[other][lc], id);
    LinkedFacts(plan.ds, plan.par, other, lc, links[other][lc], id);
  }

  lemma LinkLayer(st: System, h: seq<Pieces>, w: nat, x: Worker, nbs: seq<nat>, L: nat)
    requires LayersOk(st, h) && L < |h| && w < |st.workers| && st.workers[w].Linking?
    requires var me := st.workers[w];
      && me.i < |me.keep| && x == me.(i := me.i + 1) && Occupies(st.sh.links, me.keep[me.i], me.lc)
      && (forall y :: y in nbs ==> y in st.sh.links[me.keep[me.i]][me.lc] || y == me.id)
    ensures LayerOk(st, h[L], L) && WorkerAt(h[L], L, x)
    ensures L == x.lc ==> AllIn(h[L], nbs, st.workers[w].keep[st.workers[w].i])
  {
    hide Alone, Follows, Sized, RootsBelow;
    assert LayerOk(st, h[L], L);
    var me := st.workers[w];
    assert WorkerAt(h[L], L, me);
    if L == x.lc {
      assert me.keep[me.i] in me.keep;
      assert AllIn(h[L], st.sh.links[me.keep[me.i]][L], me.keep[me.i]);
    }
  }

  lemma LinkNotListed(links: Links, w: Worker, nbs: seq<nat>)
    requires w.Linking? && w.i < |w.keep| && NotListed(links, w) && NoRepeats(w.keep)
    requires Occupies(links, w.keep[w.i], w.lc)
    ensures NotListed(SetList(links, w.keep[w.i], w.lc, nbs), w.(i := w.i + 1))
  {
    hide SetList;
    StillToLink(links, w);
    ListChangeNotListed(links, w.keep[w.i], w.lc, nbs, w.(i := w.i + 1));
  }

  lemma LinkSpares(st: System, w: nat, v: nat, nbs: seq<nat>)
    requires w < |st.workers| && v < |st.workers| && WorkerOnce(st.sh, st.workers[v]) && st.workers[w].Linking?
    requires st.workers[v].Idle? || st.workers[v].id != st.workers[w].id
    requires var me := st.workers[w];
      && me.i < |me.keep| && Occupies(st.sh.links, me.keep[me.i], me.lc)
      && (forall y :: y in nbs ==> y in st.sh.links[me.keep[me.i]][me.lc] || y == me.id)
    ensures NotListed(SetList(st.sh.links, st.workers[w].keep[st.workers[w].i], st.workers[w].lc, nbs), st.workers[v])
  {
    hide SetList;
    ListChangeNotListed(st.sh.links, st.workers[w].keep[st.workers[w].i], st.workers[w].lc, nbs, st.workers[v]);
  }

  lemma LinkPair(v: Worker, me: Worker)
    requires me.Linking? && me.i < |me.keep| && (v.Idle? || PairOk(v, me))
    ensures var x := me.(i := me.i + 1);
      PairOk(x, v) && PairOk(v, x) && PairOk(x, x)
  {
    assert forall y :: y in me.keep[me.i + 1..] ==> y in me.keep[me.i..];
  }

  // ---------- Pieces only grow ----------

  /** Whatever was in one piece still is. */
  ghost predicate Coarser(p: Pieces, q: Pieces) {
    |p.c| == |q.c| && forall x, y :: 0 <= x < |p.c| && 0 <= y < |p.c| && p.c[x] == p.c[y] ==> q.c[x] == q.c[y]
  }

  ghost predicate AllCoarser(h: seq<Pieces>, g: seq<Pieces>) {
    |h| == |g| && forall L :: 0 <= L < |h| ==> Coarser(h[L], g[L])
  }

  /** What a step does to the pieces of layer L: nothing, unless w has searched
  the layer; then its node's piece joins that of its starting point. */
  ghost predicate PiecesMove(p: Pieces, q: Pieces, L: nat, me: Worker, next: Worker) {
    if me.Searching? && next.Chosen? && L == me.lc then
      && me.id < |p.c| && me.ep < |p.c| && |q.c| == |p.c| && p.c[me.ep] != me.id
      && forall v :: 0 <= v < |p.c| ==> q.c[v] == if p.c[v] == me.id then p.c[me.ep] else p.c[v]
    else q.c == p.c
  }

  /** Every layer moves so. */
  ghost predicate Moves(h: seq<Pieces>, g: seq<Pieces>, me: Worker, next: Worker) {
    |g| == |h| && forall L :: 0 <= L < |h| ==> PiecesMove(h[L], g[L], L, me, next)
  }

  lemma MovesIsCoarser(h: seq<Pieces>, g: seq<Pieces>, me: Worker, next: Worker)
    requires Moves(h, g, me, next)
    ensures AllCoarser(h, g)
  {
    forall L | 0 <= L < |h| ensures Coarser(h[L], g[L]) {
      assert PiecesMove(h[L], g[L], L, me, next);
    }
  }

  lemma NothingMoves(h: seq<Pieces>, me: Worker, next: Worker)
    requires !(me.Searching? && next.Chosen?)
    ensures Moves(h, h, me, next)
  {}

  lemma CoarserTrans(f: seq<Pieces>, g: seq<Pieces>, h: seq<Pieces>)
    requires AllCoarser(f, g) && AllCoarser(g, h)
    ensures AllCoarser(f, h)
  {
    forall L | 0 <= L < |f| ensures Coarser(f[L], h[L]) {
      assert Coarser(f[L], g[L]) && Coarser(g[L], h[L]);
    }
  }

  // ---------- Beginning to search a layer ----------

  /** A newcomer enters layer L at t. */
  ghost predicate Enters(st: System, w: nat, L: nat, t: nat, r: System) {
    && w < |st.workers| && Newcomer(st.workers[w])
    && var id := st.workers[w].id;
    && id < st.sh.next <= |st.sh.links| && t != id && t < |st.sh.links| && |st.sh.links[t]| > 0
    && r.sh.links == st.sh.links && r.sh.next == st.sh.next && r.sh.maxLevel == st.sh.maxLevel >= L
    && |r.workers| == |st.workers| && r.workers == st.workers[w := r.workers[w]]
    && r.workers[w].Searching? && r.workers[w].id == id && r.workers[w].lc == L && r.workers[w].ep == t
    && r.workers[w].s.seen == {t}
    && (forall a :: st.sh.next <= a < |st.sh.links| ==> |st.sh.links[a]| == 0)
    && (forall v :: 0 <= v < |st.workers| && v != w && !st.workers[v].Idle? ==> st.workers[v].id != id)
    && (forall v :: 0 <= v < |st.workers| && Newcomer(st.workers[v]) ==> st.workers[v].id != t)
    && (Occupies(st.sh.links, id, L + 1) ==> forall v :: 0 <= v < |st.workers| ==> !Unsettled(st.workers[v], L + 1))
  }

  lemma EnterLayer(st: System, p: Pieces, w: nat, L: nat, t: nat, r: System)
    requires Enters(st, w, L, t, r) && LayerOk(st, p, L)
    ensures var n, id := |st.sh.links|, st.workers[w].id;
      LayerOk(r, Head(p, n, id, t), L)
  {
    hide Alone, Follows;
    var n, id := |st.sh.links|, st.workers[w].id;
    var q := Head(p, n, id, t);
    HeadSized(p, n, id, t);
    forall a: nat | Occupies(r.sh.links, a, L) ensures AllIn(q, r.sh.links[a][L], a) {
      assert AllIn(p, st.sh.links[a][L], a);
    }
    assert WorkerAt(p, L, st.workers[w]);
    AloneIs(p, id, t);
    HeadFollows(p, n, id, t);
    forall v | 0 <= v < |r.workers| ensures WorkerAt(q, L, r.workers[v]) {
      if v != w { HeadKeepsWorker(p, n, id, t, L, st.workers[v]); }
    }
    forall a | r.sh.next <= a < |r.sh.links| ensures Alone(q, a) {
      HeadKeepsAlone(p, n, id, t, a);
    }
  }

  lemma AloneIs(p: Pieces, a: nat, t: nat)
    requires Alone(p, a) && t < |p.c| && t != a
    ensures a < |p.c| == |p.r| && p.c[a] == a && p.r[a] == a && p.r[t] != a && p.c[t] != a
  {}

  /** The other layers are none the wiser. */
  lemma EnterElsewhere(st: System, p: Pieces, w: nat, L: nat, t: nat, r: System, M: nat)
    requires Enters(st, w, L, t, r) && LayerOk(st, p, M) && M != L
    ensures LayerOk(r, p, M)
  {
    hide Sized, ListsAgree;
    assert WorkerAt(p, M, st.workers[w]);
  }

  lemma EnterRoots(st: System, w: nat, L: nat, t: nat, r: System, lo: Pieces, hi: Pieces, v: nat)
    requires Enters(st, w, L, t, r) && LayerOk(st, lo, L) && v < |st.workers|
    requires RootsBelow(st.sh.links, lo, hi, L, st.workers[v])
    ensures RootsBelow(r.sh.links, Head(lo, |st.sh.links|, st.workers[w].id, t), hi, L, r.workers[v])
  {
    assert WorkerAt(lo, L, st.workers[w]);
  }

  lemma EnterRootsBelow(st: System, w: nat, L: nat, t: nat, r: System, lo: Pieces, hi: Pieces, M: nat, v: nat)
    requires Enters(st, w, L, t, r) && LayerOk(st, lo, M) && LayerOk(st, hi, M + 1) && M != L && v < |st.workers|
    requires RootsBelow(st.sh.links, lo, hi, M, st.workers[v])
    ensures RootsBelow(r.sh.links, lo, hi, M, r.workers[v])
  {
    hide ListsAgree;
    assert WorkerAt(lo, M, st.workers[w]) && WorkerAt(hi, M + 1, st.workers[w]);
  }

  /** RootsBelow looks at the upper layer's pieces only. */
  lemma RootsSame(links: Links, lo: Pieces, hi: Pieces, hi2: Pieces, L: nat, w: Worker)
    requires RootsBelow(links, lo, hi, L, w) && hi2.c == hi.c
    ensures RootsBelow(links, lo, hi2, L, w)
  {}

  lemma EnterOnce(plan: Plan, st: System, h: seq<Pieces>, w: nat, L: nat, t: nat, r: System) returns (g: seq<Pieces>)
    requires Once(plan, st, h) && Enters(st, w, L, t, r)
    ensures |g| == |h| && Once(plan, r, g) && Moves(h, g, st.workers[w], r.workers[w])
  {
    hide LayerOk, RootsBelow, LinksOnce, PairsOk, PairOk, NotListed;
    var n, id := |st.sh.links|, st.workers[w].id;
    assert LayerOk(st, h[L], L);
    LayerSized(st, h[L], L);
    g := h[L := Head(h[L], n, id, t)];
    forall M | 0 <= M < |g| ensures LayerOk(r, g[M], M) {
      assert LayerOk(st, h[M], M);
      if M == L { EnterLayer(st, h[L], w, L, t, r); } else { EnterElsewhere(st, h[M], w, L, t, r, M); }
    }
    forall M, v | 0 <= M < |g| - 1 && 0 <= v < |r.workers|
      ensures RootsBelow(r.sh.links, g[M], g[M + 1], M, r.workers[v])
    {
      assert LayerOk(st, h[M], M) && LayerOk(st, h[M + 1], M + 1);
      assert RootsBelow(st.sh.links, h[M], h[M + 1], M, st.workers[v]);
      if M == L {
        EnterRoots(st, w, L, t, r, h[M], h[M + 1], v);
      } else {
        EnterRootsBelow(st, w, L, t, r, h[M], h[M + 1], M, v);
        RootsSame(r.sh.links, h[M], h[M + 1], g[M + 1], M, r.workers[v]);
      }
    }
    LayersTogether(r, g);
    forall v | 0 <= v < |r.workers| ensures WorkerOnce(r.sh, r.workers[v]) {
      assert WorkerOnce(st.sh, st.workers[v]);
      if v == w { SearcherOnce(r.sh, r.workers[w]); }
    }
    forall v | 0 <= v < |st.workers| && v != w
      ensures PairOk(r.workers[w], st.workers[v]) && PairOk(st.workers[v], r.workers[w])
    {
      SearcherPair(r.workers[w], st.workers[v]);
    }
    SearcherPair(r.workers[w], r.workers[w]);
    PairsAfter(st.workers, w, r.workers[w]);
  }

  lemma LayerSized(st: System, p: Pieces, L: nat)
    requires LayerOk(st, p, L)
    ensures Sized(p, |st.sh.links|)
  {}

  lemma SearcherOnce(sh: Shared, w: Worker)
    requires w.Searching? && w.lc <= sh.maxLevel
    ensures WorkerOnce(sh, w)
  {}

  lemma SearcherPair(x: Worker, v: Worker)
    requires x.Searching?
    ensures PairOk(x, v) && PairOk(v, x)
  {}

  lemma StartFromEntry(plan: Plan, st: System, h: seq<Pieces>, w: nat)
    requires Inv(plan, st) && Once(plan, st, h) && w < |st.workers| && st.workers[w].Reading?
    requires st.workers[w].id < |plan.levels| && st.sh.maxLevel <= plan.levels[st.workers[w].id]
    ensures Enters(st, w, st.sh.maxLevel, st.sh.entry, Step(plan, st, w))
  {
    hide Inv, Step, Act, SharedOk, LinksOnce, PairsOk, LayersOk, Start;
    InvGives(plan, st, w);
    var me := st.workers[w];
    ReadAct(plan, st.sh, me.id);
    StartSees(plan, me.id, st.sh.entry);
    UnclaimedAreEmpty(plan, st.sh);
    forall v | 0 <= v < |st.workers| && Newcomer(st.workers[v]) ensures st.workers[v].id != st.sh.entry {
      InvGives(plan, st, v);
    }
    forall v | 0 <= v < |st.workers| ensures !Unsettled(st.workers[v], st.sh.maxLevel + 1) {
      assert WorkerOnce(st.sh, st.workers[v]);
    }
  }

  lemma UnclaimedAreEmpty(plan: Plan, sh: Shared)
    requires SharedOk(plan, sh)
    ensures sh.next <= |sh.links| == |plan.levels| && forall a :: sh.next <= a < |sh.links| ==> |sh.links[a]| == 0
  {}

  lemma StartFromWalk(plan: Plan, st: System, h: seq<Pieces>, w: nat)
    requires Inv(plan, st) && Once(plan, st, h) && w < |st.workers| && st.workers[w].Walking?
    requires !Act(plan, st.sh, st.workers[w]).w.Walking?
    ensures st.workers[w].lc > 0
    ensures Enters(st, w, st.workers[w].lc - 1, st.workers[w].best, Step(plan, st, w))
  {
    hide Inv, Step, Act, SharedOk, LinksOnce, PairsOk, LayersOk, Start, ScanBest;
    InvGives(plan, st, w);
    var me := st.workers[w];
    WalkAct(plan, st.sh, me.id, me.lc, me.best);
    WalkingFacts(plan, st.sh, me.id, me.lc, me.best);
    StartSees(plan, me.id, me.best);
    UnclaimedAreEmpty(plan, st.sh);
    LevelsDrawn(plan, st.sh, me.id);
    assert WorkerOnce(st.sh, me);
    forall v | 0 <= v < |st.workers| && Newcomer(st.workers[v]) ensures st.workers[v].id != me.best {
      OldPair(st, w, v);
    }
  }

  lemma LevelsDrawn(plan: Plan, sh: Shared, id: nat)
    requires SharedOk(plan, sh) && id < |sh.links|
    ensures |sh.links| == |plan.levels| && |sh.links[id]| <= plan.levels[id] + 1
  {}

  // ---------- Having searched a layer ----------

  /** Worker w has searched layer lc from ep and found what it found. */
  ghost predicate Settles(st: System, w: nat, r: System) {
    && w < |st.workers| && st.workers[w].Searching?
    && var me := st.workers[w];
    && me.id < st.sh.next <= |st.sh.links| && me.ep < |st.sh.links| && me.ep != me.id
    && r.sh == st.sh && |r.workers| == |st.workers| && r.workers == st.workers[w := Chosen(me.id, me.lc, me.s.res)]
    && me.s.res != [] && me.id !in Ids(me.s.res) && NoRepeats(Ids(me.s.res))
    && (forall x :: x in Ids(me.s.res) ==> x in me.s.seen && Occupies(st.sh.links, x, me.lc))
    && (forall v :: 0 <= v < |st.workers| && v != w && !st.workers[v].Idle? ==> st.workers[v].id != me.id)
  }

  lemma SearchSettles(plan: Plan, st: System, w: nat)
    requires Inv(plan, st) && w < |st.workers| && st.workers[w].Searching?
    requires Act(plan, st.sh, st.workers[w]).w.Chosen?
    ensures Settles(st, w, Step(plan, st, w))
  {
    hide Inv, Step, Act, SharedOk, Done, Expand;
    InvGives(plan, st, w);
    var me := st.workers[w];
    SearchAct(plan, st.sh, me.id, me.lc, me.ep, me.s);
    SearchingFits(plan, st.sh, me);
    SearchingIsClaimed(plan, st.sh, me);
  }

  lemma SearchingIsClaimed(plan: Plan, sh: Shared, w: Worker)
    requires SharedOk(plan, sh) && WorkerOk(plan, sh, w) && w.Searching?
    ensures w.id < sh.next <= |sh.links|
  {}

  /** The starting point is in another piece, and so is all that was found; none
  of it is a node with which nothing has to do. */
  lemma FoundElsewhere(st: System, p: Pieces, w: nat, r: System)
    requires Settles(st, w, r) && LayerOk(st, p, st.workers[w].lc)
    ensures var me := st.workers[w];
      && Sized(p, |st.sh.links|) && Follows(p, me.id, me.ep) && p.c[me.id] == me.id && p.c[me.ep] != me.id
      && (forall x :: x in Ids(me.s.res) ==> x < |p.c| && p.c[x] == p.c[me.ep])
  {
    assert WorkerAt(p, st.workers[w].lc, st.workers[w]);
  }

  lemma NotAlone(p: Pieces, n: nat, b: nat, t: nat, x: nat, a: nat)
    requires Sized(p, n) && Follows(p, b, t) && t != b && Alone(p, a)
    requires x < n && p.c[x] == p.c[t]
    ensures a != t && a != x
  {}

  lemma SettleLayer(st: System, p: Pieces, w: nat, r: System)
    requires Settles(st, w, r) && LayerOk(st, p, st.workers[w].lc)
    ensures Sized(p, |st.sh.links|)
    ensures LayerOk(r, Join(p, |st.sh.links|, st.workers[w].id, st.workers[w].ep), st.workers[w].lc)
  {
    hide Alone, Follows, Sized;
    FoundElsewhere(st, p, w, r);
    var n, me := |st.sh.links|, st.workers[w];
    var id, L := me.id, me.lc;
    var q := Join(p, n, id, me.ep);
    JoinSized(p, n, id, me.ep);
    forall a: nat | Occupies(r.sh.links, a, L) ensures AllIn(q, r.sh.links[a][L], a) {
      assert AllIn(p, st.sh.links[a][L], a);
    }
    forall v | 0 <= v < |r.workers| ensures WorkerAt(q, L, r.workers[v]) {
      if v != w {
        assert WorkerAt(p, L, st.workers[v]);
        if Newcomer(st.workers[v]) { NotAlone(p, n, id, me.ep, me.ep, st.workers[v].id); }
        JoinKeepsWorker(p, n, id, me.ep, L, st.workers[v]);
      }
    }
    forall a | r.sh.next <= a < |r.sh.links| ensures Alone(q, a) {
      NotAlone(p, n, id, me.ep, me.ep, a);
      JoinKeepsAlone(p, n, id, me.ep, a);
    }
  }

  /** The layer below learns where the node will start. */
  lemma SettleBelow(st: System, lo: Pieces, p: Pieces, w: nat, r: System)
    requires Settles(st, w, r) && st.workers[w].lc > 0
    requires LayerOk(st, p, st.workers[w].lc) && LayerOk(st, lo, st.workers[w].lc - 1)
    requires RootsBelow(st.sh.links, lo, p, st.workers[w].lc - 1, st.workers[w])
    ensures var f := st.workers[w].s.res[0].id;
      && Sized(lo, |st.sh.links|) && f < |st.sh.links| && lo.r[f] != st.workers[w].id
      && LayerOk(r, Head(lo, |st.sh.links|, st.workers[w].id, f), st.workers[w].lc - 1)
  {
    hide Alone, Follows;
    FoundElsewhere(st, p, w, r);
    var n, me := |st.sh.links|, st.workers[w];
    var id, L, f := me.id, me.lc - 1, me.s.res[0].id;
    assert Ids(me.s.res)[0] == f;
    assert Occupies(st.sh.links, f, L + 1);
    assert WorkerAt(lo, L, me);
    var q := Head(lo, n, id, f);
    HeadSized(lo, n, id, f);
    HeadFollows(lo, n, id, f);
    forall a: nat | Occupies(r.sh.links, a, L) ensures AllIn(q, r.sh.links[a][L], a) {
      assert AllIn(lo, st.sh.links[a][L], a);
    }
    forall v | 0 <= v < |r.workers| ensures WorkerAt(q, L, r.workers[v]) {
      if v != w {
        if Newcomer(st.workers[v]) {
          assert WorkerAt(p, me.lc, st.workers[v]);
          NotAlone(p, n, id, me.ep, f, st.workers[v].id);
        }
        HeadKeepsWorker(lo, n, id, f, L, st.workers[v]);
      }
    }
    forall a | r.sh.next <= a < |r.sh.links| ensures Alone(q, a) {
      NotAlone(p, n, id, me.ep, f, a);
      HeadKeepsAlone(lo, n, id, f, a);
    }
  }

  lemma SettleElsewhere(st: System, p: Pieces, w: nat, r: System, M: nat)
    requires Settles(st, w, r) && LayerOk(st, p, M) && M != st.workers[w].lc && M + 1 != st.workers[w].lc
    ensures LayerOk(r, p, M)
  {
    hide Sized, ListsAgree, Alone, Follows;
    assert WorkerAt(p, M, st.workers[w]);
  }

  /** Where the node's two layers meet. */
  lemma SettleRoots(st: System, lo: Pieces, p: Pieces, w: nat, r: System, v: nat)
    requires Settles(st, w, r) && st.workers[w].lc > 0 && v < |st.workers|
    requires LayerOk(st, p, st.workers[w].lc) && LayerOk(st, lo, st.workers[w].lc - 1)
    requires RootsBelow(st.sh.links, lo, p, st.workers[w].lc - 1, st.workers[w])
    requires RootsBelow(st.sh.links, lo, p, st.workers[w].lc - 1, st.workers[v])
    requires Sized(lo, |st.sh.links|) && Sized(p, |st.sh.links|) && st.workers[w].s.res[0].id < |st.sh.links|
    ensures RootsBelow(r.sh.links, Head(lo, |st.sh.links|, st.workers[w].id, st.workers[w].s.res[0].id),
                       Join(p, |st.sh.links|, st.workers[w].id, st.workers[w].ep), st.workers[w].lc - 1, r.workers[v])
  {
    hide LayerOk, Follows;
    FoundElsewhere(st, p, w, r);
    assert Ids(st.workers[w].s.res)[0] == st.workers[w].s.res[0].id;
  }

  /** Elsewhere only pieces joined, or only roots changed, matter. */
  lemma SettleRootsElsewhere(
      st: System, lo: Pieces, hi: Pieces, lo2: Pieces, hi2: Pieces, M: nat, w: nat, r: System, v: nat)
    requires Settles(st, w, r) && v < |st.workers| && RootsBelow(st.sh.links, lo, hi, M, st.workers[v])
    requires lo2.r == lo.r && hi2.c == hi.c && M + 1 != st.workers[w].lc
    ensures RootsBelow(r.sh.links, lo2, hi2, M, r.workers[v])
  {}

  lemma SettlePair(st: System, p: Pieces, w: nat, r: System, v: nat)
    requires Settles(st, w, r) && LayerOk(st, p, st.workers[w].lc) && v < |st.workers| && v != w
    ensures PairOk(r.workers[w], st.workers[v]) && PairOk(st.workers[v], r.workers[w])
  {
    hide Alone, Follows, Sized, ListsAgree;
    FoundElsewhere(st, p, w, r);
    assert WorkerAt(p, st.workers[w].lc, st.workers[v]);
    if st.workers[v].Linking? && st.workers[v].i <= |st.workers[v].keep| {
      assert forall y :: y in st.workers[v].keep[st.workers[v].i..] ==> y in st.workers[v].keep;
    }
  }

  lemma SettledOnce(st: System, p: Pieces, w: nat, r: System)
    requires Settles(st, w, r) && LayerOk(st, p, st.workers[w].lc) && WorkerOnce(st.sh, st.workers[w])
    ensures WorkerOnce(r.sh, r.workers[w]) && PairOk(r.workers[w], r.workers[w])
  {
    hide Alone, Follows, Sized;
    FoundElsewhere(st, p, w, r);
    var me := st.workers[w];
    forall x: nat | x in Ids(me.s.res) ensures me.id !in st.sh.links[x][me.lc] {
      assert AllIn(p, st.sh.links[x][me.lc], x);
    }
  }

  /** The histories of the layers after a worker has searched one. */
  lemma SettledLayers(st: System, h: seq<Pieces>, w: nat, r: System) returns (g: seq<Pieces>)
    requires Settles(st, w, r) && LayersOk(st, h) && st.workers[w].lc < |h|
    ensures |g| == |h| && LayersOk(r, g) && Moves(h, g, st.workers[w], r.workers[w])
  {
    hide LayerOk, RootsBelow, Sized;
    var n, me := |st.sh.links|, st.workers[w];
    var lc := me.lc;
    assert LayerOk(st, h[lc], lc);
    SettleLayer(st, h[lc], w, r);
    g := h[lc := Join(h[lc], n, me.id, me.ep)];
    if lc > 0 {
      assert LayerOk(st, h[lc - 1], lc - 1);
      assert RootsBelow(st.sh.links, h[lc - 1], h[lc - 1 + 1], lc - 1, me);
      SettleBelow(st, h[lc - 1], h[lc], w, r);
      g := g[lc - 1 := Head(h[lc - 1], n, me.id, me.s.res[0].id)];
    }
    FoundElsewhere(st, h[lc], w, r);
    assert PiecesMove(h[lc], g[lc], lc, me, r.workers[w]);
    forall M | 0 <= M < |g| ensures LayerOk(r, g[M], M) {
      assert LayerOk(st, h[M], M);
      if M != lc && M + 1 != lc { SettleElsewhere(st, h[M], w, r, M); }
    }
    forall M, v | 0 <= M < |g| - 1 && 0 <= v < |r.workers|
      ensures RootsBelow(r.sh.links, g[M], g[M + 1], M, r.workers[v])
    {
      assert RootsBelow(st.sh.links, h[M], h[M + 1], M, st.workers[v]);
      if M + 1 == lc {
        LayerSized(st, h[lc], lc);
        SettleRoots(st, h[lc - 1], h[lc], w, r, v);
      } else {
        SettleRootsElsewhere(st, h[M], h[M + 1], g[M], g[M + 1], M, w, r, v);
      }
    }
    LayersTogether(r, g);
  }

  lemma SettleOnce(plan: Plan, st: System, h: seq<Pieces>, w: nat, r: System) returns (g: seq<Pieces>)
    requires Once(plan, st, h) && Settles(st, w, r)
    ensures |g| == |h| && Once(plan, r, g) && Moves(h, g, st.workers[w], r.workers[w])
  {
    hide LayerOk, RootsBelow, LinksOnce, PairsOk, PairOk, NotListed;
    assert WorkerOnce(st.sh, st.workers[w]);
    var lc := st.workers[w].lc;
    g := SettledLayers(st, h, w, r);
    assert LayerOk(st, h[lc], lc);
    SettledOnce(st, h[lc], w, r);
    forall v | 0 <= v < |r.workers| ensures WorkerOnce(r.sh, r.workers[v]) {
      assert WorkerOnce(st.sh, st.workers[v]);
    }
    forall v | 0 <= v < |st.workers| && v != w
      ensures PairOk(r.workers[w], st.workers[v]) && PairOk(st.workers[v], r.workers[w])
    {
      SettlePair(st, h[lc], w, r, v);
    }
    PairsAfter(st.workers, w, r.workers[w]);
  }

  // ---------- Every step, every run ----------

  /** How the phases follow one another. */
  lemma Phases(plan: Plan, sh: Shared, w: Worker)
    requires SharedOk(plan, sh) && WorkerOk(plan, sh, w)
    ensures w.Walking? ==> Act(plan, sh, w).w.Walking? || Act(plan, sh, w).w.Searching?
    ensures w.Searching? ==> Act(plan, sh, w).w.Searching? || Act(plan, sh, w).w.Chosen?
    ensures w.Reading? ==> w.id < |plan.levels|
    ensures w.Linking? ==> w.i <= |w.keep|
    ensures Act(plan, sh, w).w.Chosen? ==> w.Searching?
  {
    hide ScanBest, OwnList, Keep, LinkStep, Expand, Done, Publish;
  }

  lemma StepOnce(plan: Plan, st: System, h: seq<Pieces>, w: nat) returns (g: seq<Pieces>)
    requires Inv(plan, st) && Once(plan, st, h) && w < |st.workers|
    ensures |g| == |h| && Once(plan, Step(plan, st, w), g) && Moves(h, g, st.workers[w], Step(plan, st, w).workers[w])
  {
    hide Inv, Once, Step, Act, SharedOk, WorkerOk, Enters, Settles, Moves;
    InvGives(plan, st, w);
    var me := st.workers[w];
    Phases(plan, st.sh, me);
    g := h;
    if !(me.Searching? && Act(plan, st.sh, me).w.Chosen?) { NothingMoves(h, me, Act(plan, st.sh, me).w); }
    match me
    case Idle => ClaimOnce(plan, st, h, w);
    case Claimed(_) => PublishOnce(plan, st, h, w);
    case Reading(id) =>
      if st.sh.maxLevel > plan.levels[id] {
        BeginWalkOnce(plan, st, h, w);
      } else {
        StartFromEntry(plan, st, h, w);
        g := EnterOnce(plan, st, h, w, st.sh.maxLevel, st.sh.entry, Step(plan, st, w));
      }
    case Walking(_, _, _) =>
      if Act(plan, st.sh, me).w.Walking? {
        WalkOnce(plan, st, h, w);
      } else {
        StartFromWalk(plan, st, h, w);
        g := EnterOnce(plan, st, h, w, me.lc - 1, me.best, Step(plan, st, w));
      }
    case Searching(_, _, _, _) =>
      if Act(plan, st.sh, me).w.Searching? {
        ExpandOnce(plan, st, h, w);
      } else {
        SearchSettles(plan, st, w);
        g := SettleOnce(plan, st, h, w, Step(plan, st, w));
      }
    case Chosen(_, _, _) => OwnOnce(plan, st, h, w);
    case Linking(_, _, keep, i, _) =>
      if i < |keep| { LinkOnce(plan, st, h, w); } else { LayerDoneOnce(plan, st, h, w); }
    case Raising(_) => RaiseOnce(plan, st, h, w);
  }

  lemma CoarserSelf(h: seq<Pieces>)
    ensures AllCoarser(h, h)
  {}

  lemma {:induction false} ExecOnce(plan: Plan, st: System, h: seq<Pieces>, sched: seq<nat>) returns (g: seq<Pieces>)
    requires Inv(plan, st) && Once(plan, st, h) && forall i :: 0 <= i < |sched| ==> sched[i] < |st.workers|
    ensures Once(plan, Exec(plan, st, sched), g) && AllCoarser(h, g)
  {
    hide Inv, Once, Step, AllCoarser, Moves;
    g := h;
    CoarserSelf(h);
    if sched != [] {
      var n := |sched| - 1;
      var mid := ExecOnce(plan, st, h, sched[..n]);
      g := StepOnce(plan, Exec(plan, st, sched[..n]), mid, sched[n]);
      var before := Exec(plan, st, sched[..n]);
      InvGives(plan, before, sched[n]);
      MovesIsCoarser(mid, g, before.workers[sched[n]], Step(plan, before, sched[n]).workers[sched[n]]);
      CoarserTrans(h, mid, g);
    }
  }

  ghost function Height(levels: seq<nat>): (n: nat)
    ensures n > 0 && forall a :: 0 <= a < |levels| ==> levels[a] < n
  {
    if levels == [] then 1 else
      var n := Height(levels[..|levels| - 1]);
      if levels[|levels| - 1] < n then n else levels[|levels| - 1] + 1
  }

  ghost function Apart(n: nat): (p: Pieces)
    ensures |p.c| == |p.r| == |p.k| == n && forall v :: 0 <= v < n ==> p.c[v] == v && p.r[v] == v
  {
    var each := seq(n, v requires 0 <= v < n => v);
    Pieces(each, each, each)
  }

  lemma ApartOk(plan: Plan, workers: nat, L: nat)
    requires plan.Valid()
    ensures LayerOk(Init(plan, workers), Apart(plan.ds.Len()), L)
  {
    var st, p := Init(plan, workers), Apart(plan.ds.Len());
    forall v | 0 <= v < plan.ds.Len() ensures Rooted(p, v) {}
    forall a: nat | Occupies(st.sh.links, a, L) ensures AllIn(p, st.sh.links[a][L], a) {
      assert st.sh.links[a][L] == [];
    }
  }

  lemma InitOnce(plan: Plan, workers: nat) returns (h: seq<Pieces>)
    requires plan.Valid()
    ensures Once(plan, Init(plan, workers), h) && |h| > 0 && h[0] == Apart(plan.ds.Len())
  {
    hide LayerOk;
    var n, top := plan.ds.Len(), Height(plan.levels);
    h := seq(top, _ => Apart(n));
    var st := Init(plan, workers);
    forall L | 0 <= L < |h| ensures LayerOk(st, h[L], L) { ApartOk(plan, workers, L); }
    forall a: nat, lc: nat | Occupies(st.sh.links, a, lc) ensures NoRepeats(st.sh.links[a][lc]) {
      assert st.sh.links[a][lc] == [];
    }
  }

  /** The state a run from the start has reached. */
  ghost function Reached(plan: Plan, workers: nat, sched: seq<nat>): (st: System)
    requires plan.Valid() && forall i :: 0 <= i < |sched| ==> sched[i] < workers
    ensures Inv(plan, st)
  {
    InitInv(plan, workers);
    Exec(plan, Init(plan, workers), sched)
  }

  lemma RunIsOnce(plan: Plan, workers: nat, sched: seq<nat>) returns (h: seq<Pieces>)
    requires plan.Valid() && forall i :: 0 <= i < |sched| ==> sched[i] < workers
    ensures Once(plan, Reached(plan, workers, sched), h)
  {
    hide Exec, Inv, Init, Once;
    InitInv(plan, workers);
    h := InitOnce(plan, workers);
    h := ExecOnce(plan, Init(plan, workers), h, sched);
  }

  /** In every run, however the workers interleave, every list is within its cap
  and names no node twice and never its own. */
  lemma NoEdgeTwice(plan: Plan, workers: nat, sched: seq<nat>)
    requires plan.Valid() && forall i :: 0 <= i < |sched| ==> sched[i] < workers
    ensures Tidy(plan.par, Reached(plan, workers, sched).sh.links)
  {
    hide Inv, LayersOk, Reached;
    var h := RunIsOnce(plan, workers, sched);
    var st := Reached(plan, workers, sched);
    InvIsCapped(plan, st);
    forall a: nat, lc: nat | Occupies(st.sh.links, a, lc) ensures TidyList(plan.par, a, lc, st.sh.links[a][lc]) {}
  }

  // ---------- Two insertions never find each other ----------

  /** Nodes a and b are in one piece of layer lc, and b was not found to list a. */
  ghost predicate Parted(h: seq<Pieces>, workers: seq<Worker>, a: nat, b: nat, lc: nat) {
    && lc < |h| && a < |h[lc].c| && b < |h[lc].c| && h[lc].c[a] == h[lc].c[b]
    && forall v :: 0 <= v < |workers| && workers[v].Chosen? && workers[v].lc == lc && workers[v].id == b ==>
         a !in Ids(workers[v].found)
  }

  /** A node searching the layer does not meet what is in its own piece. */
  lemma SearchAvoidsOwnPiece(plan: Plan, st: System, h: seq<Pieces>, v: nat, a: nat)
    requires Once(plan, st, h) && v < |st.workers| && st.workers[v].Searching?
    ensures st.workers[v].lc < |h|
    ensures var p := h[st.workers[v].lc];
      a < |p.c| && st.workers[v].id < |p.c| && p.c[a] == p.c[st.workers[v].id] ==> a !in st.workers[v].s.seen
  {
    hide Sized, Alone, ListsAgree;
    var me := st.workers[v];
    assert WorkerOnce(st.sh, me);
    assert LayerOk(st, h[me.lc], me.lc);
    assert WorkerAt(h[me.lc], me.lc, me);
  }

  lemma PartedBegins(plan: Plan, st: System, h: seq<Pieces>, u: nat, b: nat)
    requires Once(plan, st, h) && u < |st.workers| && st.workers[u].Chosen? && b in Ids(st.workers[u].found)
    ensures Parted(h, st.workers, st.workers[u].id, b, st.workers[u].lc)
  {
    hide Sized, Alone, ListsAgree;
    var me := st.workers[u];
    assert WorkerOnce(st.sh, me);
    assert LayerOk(st, h[me.lc], me.lc);
    assert WorkerAt(h[me.lc], me.lc, me);
    forall v | 0 <= v < |st.workers| && st.workers[v].Chosen? && st.workers[v].lc == me.lc && st.workers[v].id == b
      ensures me.id !in Ids(st.workers[v].found)
    {
      OldPair(st, v, u);
    }
  }

  lemma PartedStays(plan: Plan, st: System, h: seq<Pieces>, w: nat, g: seq<Pieces>, a: nat, b: nat, lc: nat)
    requires Inv(plan, st) && Once(plan, st, h) && w < |st.workers| && AllCoarser(h, g)
    requires Parted(h, st.workers, a, b, lc)
    ensures Parted(g, Step(plan, st, w).workers, a, b, lc)
  {
    hide Inv, Once, Step, Act, SharedOk, WorkerOk;
    InvGives(plan, st, w);
    Phases(plan, st.sh, st.workers[w]);
    assert Coarser(h[lc], g[lc]);
    if st.workers[w].Searching? {
      SearchAvoidsOwnPiece(plan, st, h, w, a);
      if Act(plan, st.sh, st.workers[w]).w.Chosen? { SearchSettles(plan, st, w); }
    }
  }

  lemma {:induction false} PartedForever(
      plan: Plan, st: System, h: seq<Pieces>, sched: seq<nat>, a: nat, b: nat, lc: nat) returns (g: seq<Pieces>)
    requires Inv(plan, st) && Once(plan, st, h) && forall i :: 0 <= i < |sched| ==> sched[i] < |st.workers|
    requires Parted(h, st.workers, a, b, lc)
    ensures Once(plan, Exec(plan, st, sched), g) && Parted(g, Exec(plan, st, sched).workers, a, b, lc)
  {
    hide Inv, Once, Step, AllCoarser, Parted, Moves;
    g := h;
    if sched != [] {
      var n := |sched| - 1;
      var mid := PartedForever(plan, st, h, sched[..n], a, b, lc);
      var before := Exec(plan, st, sched[..n]);
      g := StepOnce(plan, before, mid, sched[n]);
      InvGives(plan, before, sched[n]);
      MovesIsCoarser(mid, g, before.workers[sched[n]], Step(plan, before, sched[n]).workers[sched[n]]);
      PartedStays(plan, before, mid, sched[n], g, a, b, lc);
    }
  }

  /** In every run, two insertions never find each other on the same layer: once
  one has found b there, the insertion of b, then or at any later time, neither
  meets the finder while it searches that layer nor has found it. */
  lemma NeverMutual(plan: Plan, workers: nat, s1: seq<nat>, s2: seq<nat>, u: nat, v: nat)
    requires plan.Valid()
    requires (forall i :: 0 <= i < |s1| ==> s1[i] < workers) && (forall i :: 0 <= i < |s2| ==> s2[i] < workers)
    requires u < |Reached(plan, workers, s1).workers| && v < |Reached(plan, workers, s1 + s2).workers|
    requires var x, y := Reached(plan, workers, s1).workers[u], Reached(plan, workers, s1 + s2).workers[v];
      x.Chosen? && (y.Searching? || y.Chosen?) && x.lc == y.lc && y.id in Ids(x.found)
    ensures var x, y := Reached(plan, workers, s1).workers[u], Reached(plan, workers, s1 + s2).workers[v];
      if y.Searching? then x.id !in y.s.seen else x.id !in Ids(y.found)
  {
    hide Exec, Inv, Init, Once, Parted;
    InitInv(plan, workers);
    var h := RunIsOnce(plan, workers, s1);
    var st := Reached(plan, workers, s1);
    ExecAppend(plan, Init(plan, workers), s1, s2);
    var r := Reached(plan, workers, s1 + s2);
    var x, y := st.workers[u], r.workers[v];
    PartedBegins(plan, st, h, u, y.id);
    var g := PartedForever(plan, st, h, s2, x.id, y.id, x.lc);
    PartedMeans(plan, r, g, v, x.id);
  }

  lemma PartedMeans(plan: Plan, st: System, h: seq<Pieces>, v: nat, a: nat)
    requires Once(plan, st, h) && v < |st.workers| && (st.workers[v].Searching? || st.workers[v].Chosen?)
    requires Parted(h, st.workers, a, st.workers[v].id, st.workers[v].lc)
    ensures var y := st.workers[v]; if y.Searching? then a !in y.s.seen else a !in Ids(y.found)
  {
    hide Once;
    if st.workers[v].Searching? { SearchAvoidsOwnPiece(plan, st, h, v, a); }
  }

  /** In every run, no insertion's search meets the node being inserted, though
  it has been visible since before the search began. */
  lemma SearchNeverMeetsItself(plan: Plan, workers: nat, sched: seq<nat>, w: nat)
    requires plan.Valid() && forall i :: 0 <= i < |sched| ==> sched[i] < workers
    ensures var ws := Reached(plan, workers, sched).workers;
      w < |ws| && ws[w].Searching? ==> ws[w].id !in ws[w].s.seen
  {
    hide Inv, Reached, Sized, Alone, ListsAgree;
    var h := RunIsOnce(plan, workers, sched);
    var st := Reached(plan, workers, sched);
    if w < |st.workers| && st.workers[w].Searching? {
      var me := st.workers[w];
      assert WorkerOnce(st.sh, me);
      assert LayerOk(st, h[me.lc], me.lc);
      assert WorkerAt(h[me.lc], me.lc, me);
    }
  }

  lemma InvIsCapped(plan: Plan, st: System)
    requires Inv(plan, st)
    ensures Capped(plan.par, st.sh.links)
  {}
}
