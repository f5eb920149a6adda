/** A small index is exact however it was built: with at most MMax0 + 1 vectors no
interleaving of a parallel build ever prunes a bottom list, so every edge comes to
be matched by its reverse, the pieces of the bottom layer are in truth connected,
and in the end there is only one. */
module SmallParallel {
  import opened Graph
  import opened Heuristic
  import opened LayerSearch
  import opened Completeness
  import opened Descent
  import opened Build
  import opened BuildInvariant
  import opened Locking
  import opened Querying
  import opened FlatSearch
  import opened Exactness
  import opened ParallelBuild
  import opened SoloRun
  import opened EdgesOnce

  // ---------- The bottom layer between two steps ----------

  /** w has put b in a's list and has still to put a in b's. */
  ghost predicate Owes(w: Worker, a: nat, b: nat) {
    w.Linking? && w.lc == 0 && w.id == a && w.i <= |w.keep| && b in w.keep[w.i..]
  }

  ghost predicate Owed(workers: seq<Worker>, a: nat, b: nat) {
    exists w :: 0 <= w < |workers| && Owes(workers[w], a, b)
  }

  ghost predicate Edge(links: Links, a: nat, b: nat) {
    Occupies(links, a, 0) && b in links[a][0]
  }

  /** Every edge has its reverse, or a worker owes it. */
  ghost predicate BothWays(st: System) {
    forall a: nat, b: nat :: Edge(st.sh.links, a, b) ==> Edge(st.sh.links, b, a) || Owed(st.workers, a, b)
  }

  /** What a worker has kept is in its node's list. */
  ghost predicate KeepListed(links: Links, w: Worker) {
    w.Linking? && w.lc == 0 ==> forall x: nat :: x in w.keep ==> Edge(links, w.id, x)
  }

  /** w is about to list the nearest it found. */
  ghost predicate Chooses(w: Worker) {
    w.Chosen? && w.lc == 0 && w.found != []
  }

  /** No edge, present or about to be set, leaves s or enters it. */
  ghost predicate CutBy(st: System, s: set<nat>) {
    && (forall a: nat, b: nat :: Edge(st.sh.links, a, b) ==> (a in s <==> b in s))
    && (forall w :: 0 <= w < |st.workers| && Chooses(st.workers[w]) ==>
          (st.workers[w].id in s <==> st.workers[w].found[0].id in s))
  }

  ghost predicate Uniform(p: Pieces, s: set<nat>) {
    forall u, v :: 0 <= u < |p.c| && 0 <= v < |p.c| && p.c[u] == p.c[v] ==> (u in s <==> v in s)
  }

  /** Pieces are connected: no cut goes through one. */
  ghost predicate Connected(st: System, p: Pieces) {
    forall s: set<nat> :: CutBy(st, s) ==> Uniform(p, s)
  }

  /** The worker has still to search the bottom layer. */
  ghost predicate Rooting(w: Worker) {
    Newcomer(w) || Unsettled(w, 0)
  }

  ghost predicate Active(st: System, l: nat) {
    l == 0 || l >= st.sh.next || exists w :: 0 <= w < |st.workers| && Rooting(st.workers[w]) && st.workers[w].id == l
  }

  ghost predicate LabelOk(st: System, p: Pieces, v: nat)
    requires v < |p.c|
  {
    p.c[v] < |p.c| && p.c[p.c[v]] == p.c[v] && Active(st, p.c[v])
  }

  /** Each piece is named after a member that is node 0, not received yet, or has
  still to search the layer. */
  ghost predicate Labelled(st: System, p: Pieces) {
    forall v :: 0 <= v < |p.c| ==> LabelOk(st, p, v)
  }

  ghost predicate Whole(st: System, p: Pieces) {
    && BothWays(st) && Connected(st, p) && Labelled(st, p)
    && forall w :: 0 <= w < |st.workers| ==> KeepListed(st.sh.links, st.workers[w])
  }

  // ---------- What a step can do ----------

  /** How a worker's phases follow one another. */
  ghost predicate NextPhase(w: Worker, x: Worker, next: nat) {
    match w
    case Idle => x.Idle? || x == Claimed(next)
    case Claimed(id) => x == Reading(id)
    case Reading(id) => (x.Walking? || x.Searching?) && x.id == id
    case Walking(id, _, _) => (x.Walking? || x.Searching?) && x.id == id
    case Searching(id, lc, ep, s) =>
      (x.Searching? && x.id == id && x.lc == lc) || (x == Chosen(id, lc, s.res) && s.res != [])
    case Chosen(id, lc, found) =>
      x.Linking? && x.id == id && x.lc == lc && x.i == 0 && found != [] && x.ep == found[0].id
    case Linking(id, lc, keep, i, ep) =>
      if i < |keep| then x == Linking(id, lc, keep, i + 1, ep)
      else i == |keep| && if lc == 0 then x == Raising(id) else x.Searching? && x.id == id && x.lc == lc - 1
    case Raising(_) => x.Idle?
  }

  lemma ActNextPhase(plan: Plan, sh: Shared, w: Worker)
    requires SharedOk(plan, sh) && WorkerOk(plan, sh, w)
    ensures NextPhase(w, Act(plan, sh, w).w, sh.next)
  {
    hide ScanBest, OwnList, Keep, LinkStep, Expand, Done, Publish;
    if w.Searching? { SearchingFits(plan, sh, w); }
  }

  /** The bottom lists are what they were; nodes new to the layer have none. */
  ghost predicate SameBottoms(l1: Links, l2: Links) {
    && (forall a: nat :: Occupies(l1, a, 0) ==> Occupies(l2, a, 0) && l2[a][0] == l1[a][0])
    && (forall a: nat :: Occupies(l2, a, 0) && !Occupies(l1, a, 0) ==> l2[a][0] == [])
  }

  /** Steps that do not touch a bottom list. */
  ghost predicate LeavesBottom(w: Worker) {
    !(w.Chosen? && w.lc == 0) && !(w.Linking? && w.lc == 0 && w.i < |w.keep|)
  }

  lemma LinksAreLeft(plan: Plan, sh: Shared, w: Worker)
    requires SharedOk(plan, sh) && WorkerOk(plan, sh, w)
    requires !w.Claimed? && !w.Chosen? && !(w.Linking? && w.i < |w.keep|)
    ensures Act(plan, sh, w).sh.links == sh.links
  {
    hide ScanBest, OwnList, Keep, LinkStep, Expand, Done, Publish;
  }

  lemma UpperListChange(links: Links, a: nat, lc: nat, nbs: seq<nat>)
    requires Occupies(links, a, lc) && lc > 0
    ensures SameBottoms(links, SetList(links, a, lc, nbs))
  {
    hide SetList;
  }

  lemma NewLists(links: Links, id: nat, level: nat)
    requires id < |links| && links[id] == []
    ensures SameBottoms(links, Publish(links, id, level))
  {
    hide Publish;
  }

  lemma StepIsSetList(plan: Plan, links: Links, other: nat, id: nat, lc: nat) returns (nbs: seq<nat>)
    requires plan.Valid() && Buildable(plan.ds, plan.par, links) && Occupies(links, other, lc) && id < |links|
    ensures LinkStep(plan.ds, plan.par, links, other, id, lc) == SetList(links, other, lc, nbs)
  {
    hide Linked, SetList;
    ListsBelow(links, other, lc);
    nbs := Linked(plan.ds, plan.par, other, lc, links[other][lc], id);
  }

  lemma ClaimedIsEmpty(plan: Plan, sh: Shared, w: Worker)
    requires SharedOk(plan, sh) && WorkerOk(plan, sh, w) && w.Claimed?
    ensures w.id < |sh.links| && sh.links[w.id] == []
  {}

  lemma BottomIsLeft(plan: Plan, sh: Shared, w: Worker)
    requires SharedOk(plan, sh) && WorkerOk(plan, sh, w) && LeavesBottom(w)
    ensures SameBottoms(sh.links, Act(plan, sh, w).sh.links)
  {
    hide *;
    if w.Claimed? {
      PublishAct(plan, sh, w.id);
      ClaimedIsEmpty(plan, sh, w);
      NewLists(sh.links, w.id, plan.levels[w.id]);
    } else if w.Chosen? {
      OwnAct(plan, sh, w);
      LeftAbove(w);
      UpperListChange(sh.links, w.id, w.lc, OwnList(plan, sh, w));
    } else if w.Linking? && w.i < |w.keep| {
      LinkAct(plan, sh, w.id, w.lc, w.keep, w.i, w.ep);
      LeftAbove(w);
      InLinking(plan, sh, w);
      var nbs := StepIsSetList(plan, sh.links, w.keep[w.i], w.id, w.lc);
      UpperListChange(sh.links, w.keep[w.i], w.lc, nbs);
    } else {
      LinksAreLeft(plan, sh, w);
      NothingChanges(sh.links);
    }
  }

  lemma InLinking(plan: Plan, sh: Shared, w: Worker)
    requires SharedOk(plan, sh) && WorkerOk(plan, sh, w) && w.Linking?
    ensures plan.Valid() && Buildable(plan.ds, plan.par, sh.links) && w.id < |sh.links| == plan.ds.Len()
  {}

  lemma LeftAbove(w: Worker)
    requires LeavesBottom(w) && (w.Chosen? || (w.Linking? && w.i < |w.keep|))
    ensures w.lc > 0
  {}

  lemma NothingChanges(links: Links)
    ensures SameBottoms(links, links)
  {}

  // ---------- Nothing is pruned ----------

  ghost predicate Small(plan: Plan) {
    plan.Valid() && plan.ds.Len() <= plan.par.mMax0 + 1
  }

  /** A list without repeats or its owner is never over the bottom cap. */
  lemma RoomForAll(plan: Plan, nbs: seq<nat>, a: nat)
    requires Small(plan) && NoRepeats(nbs) && a !in nbs && a < plan.ds.Len() && AllBelow(nbs, plan.ds.Len())
    ensures |nbs| <= plan.par.CapAt(0)
  {
    RoomForOneMore(nbs, a, plan.ds.Len());
  }

  /** `setOwn` on the bottom layer keeps everything, and the nearest found. */
  lemma OwnKeepsAll(plan: Plan, sh: Shared, w: Worker)
    requires Small(plan) && SharedOk(plan, sh) && WorkerOk(plan, sh, w) && w.Chosen? && w.lc == 0
    requires LinksOnce(sh.links)
    ensures IdsWithin(plan.ds, w.found) && Occupies(sh.links, w.id, 0) && w.found != []
    ensures var own, keep := OwnList(plan, sh, w), Keep(plan.ds, plan.par, w.found);
      && (forall x :: x in own <==> x in keep || x in sh.links[w.id][0])
      && keep != [] && keep[0] == w.found[0].id && w.id !in keep
  {
    hide Prune, Keep;
    FoundBelow(plan, sh, w.lc, w.found);
    KeepFacts(plan.ds, plan.par, w.found, w.id);
    var keep := Keep(plan.ds, plan.par, w.found);
    OwnBelow(plan, w.found, keep);
    var existing := sh.links[w.id][0];
    ListsBelow(sh.links, w.id, 0);
    MergeBelow(keep, existing, plan.ds.Len());
    MergeFacts(keep, existing, 0);
    assert existing[0..] == existing;
    var merged := MergeFrom(keep, existing, 0);
    RoomForAll(plan, merged, w.id);
    PruneFacts(plan.ds, plan.par, w.id, 0, merged);
  }

  /** `link` on the bottom layer only appends. */
  lemma LinkAppends(plan: Plan, sh: Shared, other: nat, id: nat)
    requires Small(plan) && SharedOk(plan, sh) && Occupies(sh.links, other, 0) && id < plan.ds.Len() && other != id
    requires LinksOnce(sh.links) && id !in sh.links[other][0]
    ensures LinkStep(plan.ds, plan.par, sh.links, other, id, 0)
      == SetList(sh.links, other, 0, sh.links[other][0] + [id])
  {
    hide Prune, SetList;
    ListsBelow(sh.links, other, 0);
    var nbs := sh.links[other][0] + [id];
    assert NoRepeats(nbs);
    assert forall j :: 0 <= j < |nbs| ==> nbs[j] < plan.ds.Len();
    RoomForAll(plan, nbs, other);
    PruneFacts(plan.ds, plan.par, other, 0, nbs);
  }

  // ---------- The step and the bottom layer ----------

  /** Everything the proofs below need to know of worker w's step from st to r;
  x is what the worker has become. */
  ghost predicate Steps(st: System, w: nat, r: System, p: Pieces, q: Pieces) {
    && w < |st.workers| && |r.workers| == |st.workers| && r.workers == st.workers[w := r.workers[w]]
    && NextPhase(st.workers[w], r.workers[w], st.sh.next)
    && (r.sh.next == st.sh.next || (r.sh.next == st.sh.next + 1 && r.workers[w] == Claimed(st.sh.next)))
    && (r.sh.next == st.sh.next || st.workers[w].Idle?)
    && (forall v :: 0 <= v < |st.workers| && v != w && !st.workers[v].Idle? && !st.workers[w].Idle? ==>
          st.workers[v].id != st.workers[w].id)
    && PiecesMove(p, q, 0, st.workers[w], r.workers[w])
  }

  // ----- Labels -----

  lemma ActiveStays(st: System, w: nat, r: System, p: Pieces, q: Pieces, l: nat)
    requires Steps(st, w, r, p, q) && Active(st, l)
    requires !(st.workers[w].Searching? && r.workers[w].Chosen? && st.workers[w].lc == 0 && st.workers[w].id == l)
    ensures Active(r, l)
  {
    if l != 0 && l < st.sh.next {
      var v :| 0 <= v < |st.workers| && Rooting(st.workers[v]) && st.workers[v].id == l;
      if v == w {
        assert Rooting(r.workers[w]) && r.workers[w].id == l;
      } else {
        assert r.workers[v] == st.workers[v];
      }
    } else if l != 0 && l < r.sh.next {
      assert Rooting(r.workers[w]) && r.workers[w].id == l;
    }
  }

  lemma LabelsStay(st: System, w: nat, r: System, p: Pieces, q: Pieces)
    requires Steps(st, w, r, p, q) && Labelled(st, p)
    ensures Labelled(r, q)
  {
    hide NextPhase, Active;
    var me := st.workers[w];
    var joins := me.Searching? && r.workers[w].Chosen? && me.lc == 0;
    forall v | 0 <= v < |q.c| ensures LabelOk(r, q, v) {
      assert LabelOk(st, p, v);
      if joins && p.c[v] == me.id {
        assert LabelOk(st, p, me.ep);
        ActiveStays(st, w, r, p, q, p.c[me.ep]);
      } else {
        ActiveStays(st, w, r, p, q, p.c[v]);
      }
    }
  }

  // ----- Connection -----

  /** The step took no edge away, and replaced a choice by the edge chosen. */
  ghost predicate Grown(st: System, w: nat, r: System)
    requires w < |st.workers|
  {
    && (forall a: nat, b: nat :: Edge(st.sh.links, a, b) ==> Edge(r.sh.links, a, b))
    && (Chooses(st.workers[w]) ==> Edge(r.sh.links, st.workers[w].id, st.workers[w].found[0].id))
  }

  lemma CutBefore(st: System, w: nat, r: System, p: Pieces, q: Pieces, s: set<nat>)
    requires Steps(st, w, r, p, q) && Grown(st, w, r) && CutBy(r, s)
    ensures CutBy(st, s)
  {
    hide Edge, NextPhase, PiecesMove;
    forall v | 0 <= v < |st.workers| && Chooses(st.workers[v])
      ensures st.workers[v].id in s <==> st.workers[v].found[0].id in s
    {
      if v != w { assert r.workers[v] == st.workers[v]; }
    }
  }

  lemma ConnectionStays(st: System, w: nat, r: System, p: Pieces, q: Pieces)
    requires Steps(st, w, r, p, q) && Grown(st, w, r) && Connected(st, p)
    requires st.workers[w].Searching? && r.workers[w].Chosen? && st.workers[w].lc == 0 ==>
      var f := st.workers[w].s.res[0].id;
        f < |p.c| && p.c[f] == p.c[st.workers[w].ep] && p.c[st.workers[w].id] == st.workers[w].id
    ensures Connected(r, q)
  {
    forall s: set<nat> | CutBy(r, s) ensures Uniform(q, s) {
      CutBefore(st, w, r, p, q, s);
      assert Uniform(p, s);
      UniformStays(st, w, r, p, q, s);
    }
  }

  lemma UniformStays(st: System, w: nat, r: System, p: Pieces, q: Pieces, s: set<nat>)
    requires Steps(st, w, r, p, q) && CutBy(r, s) && Uniform(p, s)
    requires st.workers[w].Searching? && r.workers[w].Chosen? && st.workers[w].lc == 0 ==>
      var f := st.workers[w].s.res[0].id;
        f < |p.c| && p.c[f] == p.c[st.workers[w].ep] && p.c[st.workers[w].id] == st.workers[w].id
    ensures Uniform(q, s)
  {
    var me := st.workers[w];
    if me.Searching? && r.workers[w].Chosen? && me.lc == 0 {
      assert Chooses(r.workers[w]);
      assert me.id in s <==> me.s.res[0].id in s;
    }
  }

  // ----- Reverses -----

  lemma OthersOwe(st: System, w: nat, r: System, p: Pieces, q: Pieces, a: nat, b: nat)
    requires Steps(st, w, r, p, q) && Owed(st.workers, a, b) && !Owes(st.workers[w], a, b)
    ensures Owed(r.workers, a, b)
  {
    var v :| 0 <= v < |st.workers| && Owes(st.workers[v], a, b);
    assert r.workers[v] == st.workers[v];
  }

  /** A step that leaves the bottom lists alone. */
  lemma QuietBottom(st: System, w: nat, r: System, p: Pieces, q: Pieces)
    requires Steps(st, w, r, p, q) && LeavesBottom(st.workers[w]) && SameBottoms(st.sh.links, r.sh.links)
    requires BothWays(st) && forall v :: 0 <= v < |st.workers| ==> KeepListed(st.sh.links, st.workers[v])
    ensures BothWays(r) && Grown(st, w, r)
    ensures forall v :: 0 <= v < |r.workers| ==> KeepListed(r.sh.links, r.workers[v])
  {
    hide PiecesMove;
    var me := st.workers[w];
    forall a: nat, b: nat | Edge(r.sh.links, a, b) ensures Edge(r.sh.links, b, a) || Owed(r.workers, a, b) {
      assert Edge(st.sh.links, a, b);
      if !Edge(st.sh.links, b, a) {
        assert !Owes(me, a, b);
        OthersOwe(st, w, r, p, q, a, b);
      }
    }
    forall v | 0 <= v < |r.workers| ensures KeepListed(r.sh.links, r.workers[v]) {
      assert KeepListed(st.sh.links, st.workers[v]);
    }
  }

  /** `setOwn` on the bottom layer: what is kept is listed and owed. */
  lemma OwnBottom(st: System, w: nat, r: System, p: Pieces, q: Pieces, own: seq<nat>)
    requires Steps(st, w, r, p, q) && st.workers[w].Chosen? && st.workers[w].lc == 0
    requires BothWays(st) && forall v :: 0 <= v < |st.workers| ==> KeepListed(st.sh.links, st.workers[v])
    requires var me, keep := st.workers[w], r.workers[w].keep;
      && Occupies(st.sh.links, me.id, 0) && r.sh.links == SetList(st.sh.links, me.id, 0, own)
      && (forall x :: x in own <==> x in keep || x in st.sh.links[me.id][0])
      && keep != [] && me.found != [] && keep[0] == me.found[0].id && me.id !in keep
    ensures BothWays(r) && Grown(st, w, r)
    ensures forall v :: 0 <= v < |r.workers| ==> KeepListed(r.sh.links, r.workers[v])
  {
    hide PiecesMove, SetList;
    var me, x := st.workers[w], r.workers[w];
    assert x.keep[0..] == x.keep;
    forall a: nat, b: nat | Edge(r.sh.links, a, b) ensures Edge(r.sh.links, b, a) || Owed(r.workers, a, b) {
      if a == me.id && b in x.keep {
        assert Owes(r.workers[w], a, b);
      } else {
        assert Edge(st.sh.links, a, b);
        if Edge(st.sh.links, b, a) {
          assert Edge(r.sh.links, b, a);
        } else {
          OthersOwe(st, w, r, p, q, a, b);
        }
      }
    }
    forall v | 0 <= v < |r.workers| ensures KeepListed(r.sh.links, r.workers[v]) {
      assert KeepListed(st.sh.links, st.workers[v]);
    }
  }

  /** `link` on the bottom layer: one reverse is no longer owed. */
  lemma LinkBottom(st: System, w: nat, r: System, p: Pieces, q: Pieces)
    requires Steps(st, w, r, p, q) && st.workers[w].Linking? && st.workers[w].lc == 0
    requires st.workers[w].i < |st.workers[w].keep|
    requires BothWays(st) && forall v :: 0 <= v < |st.workers| ==> KeepListed(st.sh.links, st.workers[v])
    requires var me := st.workers[w];
      var other := me.keep[me.i];
      Occupies(st.sh.links, other, 0)
      && r.sh.links == SetList(st.sh.links, other, 0, st.sh.links[other][0] + [me.id])
    ensures BothWays(r) && Grown(st, w, r)
    ensures forall v :: 0 <= v < |r.workers| ==> KeepListed(r.sh.links, r.workers[v])
  {
    hide PiecesMove, SetList;
    var me := st.workers[w];
    var other := me.keep[me.i];
    assert other in me.keep;
    assert KeepListed(st.sh.links, me);
    forall a: nat, b: nat | Edge(st.sh.links, a, b) ensures Edge(r.sh.links, a, b) {}
    forall a: nat, b: nat | Edge(r.sh.links, a, b) ensures Edge(r.sh.links, b, a) || Owed(r.workers, a, b) {
      if !Edge(st.sh.links, a, b) {
        assert a == other && b == me.id;
      } else if Edge(st.sh.links, b, a) {
      } else if Owes(me, a, b) {
        if b != other {
          assert me.keep[me.i..] == [other] + me.keep[me.i + 1..];
          assert Owes(r.workers[w], a, b);
        }
      } else {
        OthersOwe(st, w, r, p, q, a, b);
      }
    }
    forall v | 0 <= v < |r.workers| ensures KeepListed(r.sh.links, r.workers[v]) {
      assert KeepListed(st.sh.links, st.workers[v]);
    }
  }

  // ---------- Every step, every run ----------

  lemma StepsHere(plan: Plan, st: System, w: nat, p: Pieces, q: Pieces)
    requires Inv(plan, st) && w < |st.workers|
    requires PiecesMove(p, q, 0, st.workers[w], Step(plan, st, w).workers[w])
    ensures Steps(st, w, Step(plan, st, w), p, q)
  {
    hide Act, NextPhase, PiecesMove, SharedOk, WorkerOk, Inv, Step;
    InvGives(plan, st, w);
    ActNextPhase(plan, st.sh, st.workers[w]);
    MoveShape(plan, st.sh, st.workers[w]);
    ClaimShape(plan, st, w);
  }

  lemma ClaimShape(plan: Plan, st: System, w: nat)
    requires Inv(plan, st) && w < |st.workers|
    ensures var r := Step(plan, st, w);
      r.sh.next == st.sh.next
      || (r.sh.next == st.sh.next + 1 && r.workers[w] == Claimed(st.sh.next) && st.workers[w].Idle?)
  {
    hide SharedOk, WorkerOk;
    MoveShape(plan, st.sh, st.workers[w]);
    hide Act;
  }

  /** What joined, if anything did. */
  lemma FoundThere(plan: Plan, st: System, h: seq<Pieces>, w: nat)
    requires Inv(plan, st) && Once(plan, st, h) && w < |st.workers| && |h| > 0
    requires st.workers[w].Searching? && Act(plan, st.sh, st.workers[w]).w.Chosen? && st.workers[w].lc == 0
    ensures var me, p := st.workers[w], h[0];
      me.s.res != [] && me.s.res[0].id < |p.c| && me.ep < |p.c| && me.id < |p.c|
      && p.c[me.s.res[0].id] == p.c[me.ep] && p.c[me.id] == me.id
  {
    hide Inv, Act, Step, SharedOk, WorkerOk, Alone, Sized, ListsAgree;
    SearchSettles(plan, st, w);
    assert LayerOk(st, h[0], 0);
    FoundElsewhere(st, h[0], w, Step(plan, st, w));
    var ids := Ids(st.workers[w].s.res);
    assert ids[0] == st.workers[w].s.res[0].id && ids[0] in ids;
  }

  lemma BottomGrows(plan: Plan, st: System, h: seq<Pieces>, w: nat, q: Pieces)
    requires Small(plan) && Inv(plan, st) && Once(plan, st, h) && w < |st.workers| && |h| > 0
    requires BothWays(st) && forall v :: 0 <= v < |st.workers| ==> KeepListed(st.sh.links, st.workers[v])
    requires Steps(st, w, Step(plan, st, w), h[0], q)
    ensures var r := Step(plan, st, w);
      BothWays(r) && Grown(st, w, r) && forall v :: 0 <= v < |r.workers| ==> KeepListed(r.sh.links, r.workers[v])
  {
    hide Inv, Act, Step, SharedOk, WorkerOk, Steps, BothWays, Grown, KeepListed, LayersOk, PairsOk, OwnList, Keep,
      LinkStep, SetList, Edge;
    InvGives(plan, st, w);
    var me, r := st.workers[w], Step(plan, st, w);
    if LeavesBottom(me) {
      BottomIsLeft(plan, st.sh, me);
      QuietBottom(st, w, r, h[0], q);
    } else if me.Chosen? {
      OwnAct(plan, st.sh, me);
      OwnKeepsAll(plan, st.sh, me);
      OwnBottom(st, w, r, h[0], q, OwnList(plan, st.sh, me));
    } else {
      LinkAct(plan, st.sh, me.id, me.lc, me.keep, me.i, me.ep);
      InLinking(plan, st.sh, me);
      assert WorkerOnce(st.sh, me);
      StillToLink(st.sh.links, me);
      NotItself(plan, st.sh, me);
      LinkAppends(plan, st.sh, me.keep[me.i], me.id);
      LinkBottom(st, w, r, h[0], q);
    }
  }

  lemma NotItself(plan: Plan, sh: Shared, w: Worker)
    requires SharedOk(plan, sh) && WorkerOk(plan, sh, w) && w.Linking? && w.i < |w.keep|
    ensures w.keep[w.i] != w.id
  {
    assert w.keep[w.i] in w.keep;
  }

  lemma StepWhole(plan: Plan, st: System, h: seq<Pieces>, w: nat, g: seq<Pieces>)
    requires Small(plan) && Inv(plan, st) && Once(plan, st, h) && w < |st.workers| && |h| > 0 && Whole(st, h[0])
    requires Moves(h, g, st.workers[w], Step(plan, st, w).workers[w])
    ensures |g| > 0 && Whole(Step(plan, st, w), g[0])
  {
    hide Inv, Once, Act, Step, Steps, BothWays, Connected, Labelled, KeepListed, Grown, PiecesMove;
    InvGives(plan, st, w);
    var r := Step(plan, st, w);
    assert PiecesMove(h[0], g[0], 0, st.workers[w], r.workers[w]);
    StepsHere(plan, st, w, h[0], g[0]);
    BottomGrows(plan, st, h, w, g[0]);
    LabelsStay(st, w, r, h[0], g[0]);
    if st.workers[w].Searching? && r.workers[w].Chosen? && st.workers[w].lc == 0 {
      FoundThere(plan, st, h, w);
    }
    ConnectionStays(st, w, r, h[0], g[0]);
  }

  lemma {:induction false} ExecWhole(plan: Plan, st: System, h: seq<Pieces>, sched: seq<nat>) returns (g: seq<Pieces>)
    requires Small(plan) && Inv(plan, st) && Once(plan, st, h) && |h| > 0 && Whole(st, h[0])
    requires forall i :: 0 <= i < |sched| ==> sched[i] < |st.workers|
    ensures Once(plan, Exec(plan, st, sched), g) && |g| > 0 && Whole(Exec(plan, st, sched), g[0])
  {
    hide Inv, Once, Step, Moves, Whole;
    g := h;
    if sched != [] {
      var n := |sched| - 1;
      var mid := ExecWhole(plan, st, h, sched[..n]);
      var before := Exec(plan, st, sched[..n]);
      g := StepOnce(plan, before, mid, sched[n]);
      StepWhole(plan, before, mid, sched[n], g);
    }
  }

  lemma InitWhole(plan: Plan, workers: nat)
    requires plan.Valid()
    ensures Whole(Init(plan, workers), Apart(plan.ds.Len()))
  {
    var st, p := Init(plan, workers), Apart(plan.ds.Len());
    forall a: nat, b: nat ensures !Edge(st.sh.links, a, b) {
      if Occupies(st.sh.links, a, 0) { assert st.sh.links[a][0] == []; }
    }
    forall v | 0 <= v < |p.c| ensures LabelOk(st, p, v) {}
  }

  /** When all is done every edge has its reverse ... */
  lemma FinishedIsSymmetric(plan: Plan, st: System)
    requires Inv(plan, st) && Finished(plan, st) && BothWays(st)
    ensures |Layer(st.sh.links, 0)| == |st.sh.links| && Symmetric(Layer(st.sh.links, 0))
  {
    hide Inv, Owed;
    var adj := Layer(st.sh.links, 0);
    FinishedShape(plan, st);
    forall a, b | 0 <= a < |adj| && 0 <= b < |adj| ensures b in adj[a] <==> a in adj[b] {
      assert b in adj[a] <==> Edge(st.sh.links, a, b);
      assert a in adj[b] <==> Edge(st.sh.links, b, a);
      NobodyOwes(st, a, b);
      NobodyOwes(st, b, a);
    }
  }

  /** ... there is only one piece ... */
  lemma FinishedIsOne(plan: Plan, st: System, p: Pieces)
    requires Inv(plan, st) && Finished(plan, st) && Labelled(st, p) && |p.c| == |st.sh.links|
    ensures forall v :: 0 <= v < |p.c| ==> p.c[v] == 0
  {
    hide Inv;
    FinishedShape(plan, st);
    forall v | 0 <= v < |p.c| ensures p.c[v] == 0 {
      assert LabelOk(st, p, v);
    }
  }

  /** ... and no cut goes through it: what node 0 reaches is everything. */
  lemma FinishedIsOnePiece(plan: Plan, st: System, p: Pieces)
    requires Inv(plan, st) && Finished(plan, st) && Whole(st, p) && |p.c| == |st.sh.links|
    ensures |Layer(st.sh.links, 0)| == |st.sh.links|
    ensures Symmetric(Layer(st.sh.links, 0)) && OnePiece(Layer(st.sh.links, 0), |st.sh.links|)
  {
    hide Inv, Reachable, Symmetric, BothWays, Labelled, KeepListed, ClosedUnder;
    FinishedShape(plan, st);
    FinishedIsSymmetric(plan, st);
    FinishedIsOne(plan, st, p);
    var adj := Layer(st.sh.links, 0);
    var s := ReachableFrom(adj, 0);
    ReachableIsClosed(adj, 0);
    ClosedIsCut(st, adj, s);
    assert Uniform(p, s);
    forall v | 0 <= v < |adj| ensures Reachable(adj, 0, v) {
      assert p.c[v] == p.c[0];
      assert v in s;
    }
  }

  lemma ClosedIsCut(st: System, adj: seq<seq<nat>>, s: set<nat>)
    requires adj == Layer(st.sh.links, 0) && ClosedUnder(adj, s) && Symmetric(adj)
    requires forall w :: 0 <= w < |st.workers| ==> st.workers[w].Idle?
    requires forall a: nat, b: nat :: Edge(st.sh.links, a, b) ==> b < |st.sh.links|
    ensures CutBy(st, s)
  {
    forall a: nat, b: nat | Edge(st.sh.links, a, b) ensures a in s <==> b in s {
      assert b in adj[a] && a in adj[b];
    }
  }

  lemma NobodyOwes(st: System, a: nat, b: nat)
    requires forall w :: 0 <= w < |st.workers| ==> st.workers[w].Idle?
    ensures !Owed(st.workers, a, b)
  {}

  lemma FinishedShape(plan: Plan, st: System)
    requires Inv(plan, st) && Finished(plan, st)
    ensures st.sh.next == |st.sh.links| == |plan.levels| == plan.ds.Len() > 0 && WellLinked(st.sh.links)
    ensures InRange(Layer(st.sh.links, 0), |st.sh.links|)
    ensures forall a: nat :: a < |st.sh.links| ==> Occupies(st.sh.links, a, 0)
    ensures forall a: nat, b: nat :: Edge(st.sh.links, a, b) ==> b < |st.sh.links|
    ensures forall w :: 0 <= w < |st.workers| ==> st.workers[w].Idle?
  {
    LayerIsClosed(st.sh.links, 0);
    forall a: nat | a < |st.sh.links| ensures Occupies(st.sh.links, a, 0) { NodeFinished(plan, st, a); }
    forall a: nat, b: nat | Edge(st.sh.links, a, b) ensures b < |st.sh.links| {
      ListsBelow(st.sh.links, a, 0);
    }
  }

  /** End to end, in parallel: for at most MMax0 + 1 vectors, whatever levels were
  drawn and however the workers interleaved, a finished build answers every query
  exactly as exact search does, IDs and distances both, once the query's width
  covers the index. */
  lemma SmallParallelIsExact(plan: Plan, workers: nat, sched: seq<nat>, efSearch: int, q: seq<real>, k: int)
    requires Small(plan) && forall i :: 0 <= i < |sched| ==> sched[i] < workers
    requires Finished(plan, EdgesOnce.Reached(plan, workers, sched))
    requires plan.ds.Len() <= efSearch || plan.ds.Len() <= k
    ensures var ix := ResultOf(plan, EdgesOnce.Reached(plan, workers, sched));
      Sound(ix) && Knn(ix, efSearch, q, k) == Nearest(plan.ds, q, k)
  {
    hide Exec, Inv, Init, Once, Whole, Finished, Knn, Nearest, ReachesAll;
    InitInv(plan, workers);
    var h := InitOnce(plan, workers);
    InitWhole(plan, workers);
    h := ExecWhole(plan, Init(plan, workers), h, sched);
    var st := EdgesOnce.Reached(plan, workers, sched);
    var ix := ResultOf(plan, st);
    FinishedIsSound(plan, st);
    OnceSized(plan, st, h);
    FinishedIsOnePiece(plan, st, h[0]);
    forall ep: nat | ep < |ix.links| ensures ReachesAll(ix, ep) {
      OnePieceReachesAll(ix, ep);
    }
    ReachingAllIsExact(ix, efSearch, q, k);
  }

  lemma OnceSized(plan: Plan, st: System, h: seq<Pieces>)
    requires Once(plan, st, h) && |h| > 0
    ensures |h[0].c| == |st.sh.links| == |plan.levels|
  {
    assert LayerOk(st, h[0], 0);
  }

  lemma OnePieceReachesAll(ix: Index, ep: nat)
    requires Sound(ix) && ep < |ix.links|
    requires |Layer(ix.links, 0)| == |ix.links|
    requires Symmetric(Layer(ix.links, 0)) && OnePiece(Layer(ix.links, 0), |ix.links|)
    ensures ReachesAll(ix, ep)
  {
    hide Reachable, Symmetric, OnePiece;
    forall x: nat | x < |Bottom(ix)| ensures Reachable(Bottom(ix), ep, x) {
      AnyReachesAny(Layer(ix.links, 0), ep, x);
    }
  }
}
