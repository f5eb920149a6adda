/** A parallel build in which no two insertions overlap is a sequential build:
run from start to finish by one worker, the steps of an insertion add up to
inserting the node, and run so in ID order they build the identical graph. */
module SoloRun {
  import opened TopK
  import opened Graph
  import opened Heuristic
  import opened LayerSearch
  import opened Descent
  import opened Build
  import opened Locking
  import opened Steps
  import opened ParallelBuild

  ghost predicate TurnsOf(t: seq<nat>, w: nat) {
    forall i :: 0 <= i < |t| ==> t[i] == w
  }

  /** Turns of worker w alone take the system from one state to the other. */
  ghost predicate Leads(plan: Plan, st: System, w: nat, t: seq<nat>, r: System)
    requires Inv(plan, st) && w < |st.workers|
  {
    TurnsOf(t, w) && Exec(plan, st, t) == r
  }

  lemma {:induction false} ExecAppend(plan: Plan, st: System, a: seq<nat>, b: seq<nat>)
    requires Inv(plan, st)
    requires forall i :: 0 <= i < |a| ==> a[i] < |st.workers|
    requires forall i :: 0 <= i < |b| ==> b[i] < |st.workers|
    ensures Exec(plan, st, a + b) == Exec(plan, Exec(plan, st, a), b)
  {
    hide Inv, Step;
    if b == [] {
      assert a + b == a;
    } else {
      var n := |b| - 1;
      assert (a + b)[..|a + b| - 1] == a + b[..n];
      ExecAppend(plan, st, a, b[..n]);
    }
  }

  lemma LeadsTrans(plan: Plan, st: System, w: nat, t1: seq<nat>, mid: System, t2: seq<nat>, r: System)
    requires Inv(plan, st) && w < |st.workers| && Leads(plan, st, w, t1, mid)
    requires Inv(plan, mid) && w < |mid.workers| && Leads(plan, mid, w, t2, r)
    ensures Leads(plan, st, w, t1 + t2, r)
  {
    hide Inv, Exec;
    ExecAppend(plan, st, t1, t2);
  }

  /** The system with worker w in the given phase. */
  ghost function At(sh: Shared, workers: seq<Worker>, w: nat, x: Worker): (st: System)
    requires w < |workers|
  {
    System(sh, workers[w := x])
  }

  /** One turn of worker w. */
  lemma LeadsStep(plan: Plan, sh: Shared, workers: seq<Worker>, w: nat, x: Worker)
    requires w < |workers| && Inv(plan, At(sh, workers, w, x))
    ensures SharedOk(plan, sh) && WorkerOk(plan, sh, x)
    ensures var m := Act(plan, sh, x);
      Leads(plan, At(sh, workers, w, x), w, [w], At(m.sh, workers, w, m.w)) && Inv(plan, At(m.sh, workers, w, m.w))
  {
    var st := At(sh, workers, w, x);
    assert st.workers[w] == x;
    assert WorkerOk(plan, sh, st.workers[w]);
    hide Act, Inv, SharedOk, WorkerOk;
    var t := [w];
    assert t[..0] == [];
    assert Exec(plan, st, t[..0]) == st;
    assert Exec(plan, st, t) == Step(plan, st, w);
    StepKeepsInv(plan, st, w);
    var m := Act(plan, sh, x);
    assert workers[w := x][w := m.w] == workers[w := m.w];
  }

  // ---------- The descent ----------

  ghost function AfterWalk(plan: Plan, id: nat, lc: nat, h: nat): (x: Worker)
    requires plan.Valid() && id < plan.ds.Len() && h < plan.ds.Len() && plan.levels[id] < lc
  {
    if lc - 1 > plan.levels[id] then Walking(id, lc - 1, h) else StartOn(plan, id, lc - 1, h)
  }

  lemma WalkAct(plan: Plan, sh: Shared, id: nat, lc: nat, best: nat)
    requires SharedOk(plan, sh) && WorkerOk(plan, sh, Walking(id, lc, best))
    ensures AllBelow(sh.links[best][lc], plan.ds.Len())
    ensures var next := ScanBest(plan.Q(id).dist, sh.links[best][lc], 0, best);
      Act(plan, sh, Walking(id, lc, best))
        == Move(sh, if next != best then Walking(id, lc, next) else AfterWalk(plan, id, lc, best))
  {
    hide ScanBest, StartOn, OwnList, Keep, LinkStep, Expand, Done, Publish;
    ListsBelow(sh.links, best, lc);
  }

  /** A greedy walk, scan by scan, ends where the specified walk does. */
  lemma {:induction false} WalkLeads(plan: Plan, sh: Shared, ws: seq<Worker>, w: nat, id: nat, lc: nat, best: nat)
    returns (t: seq<nat>)
    requires w < |ws| && Inv(plan, At(sh, ws, w, Walking(id, lc, best)))
    ensures WorkerOk(plan, sh, Walking(id, lc, best)) && SharedOk(plan, sh)
    ensures var h := Hop(sh.links, plan.Q(id).dist, best, lc);
      && Leads(plan, At(sh, ws, w, Walking(id, lc, best)), w, t, At(sh, ws, w, AfterWalk(plan, id, lc, h)))
      && Inv(plan, At(sh, ws, w, AfterWalk(plan, id, lc, h)))
    decreases if best < |sh.links| && plan.Valid() && id < plan.ds.Len() && plan.ds.Len() == |sh.links|
      then |Nearer(plan.Q(id).dist, best)| else 0
  {
    var x := Walking(id, lc, best);
    LeadsStep(plan, sh, ws, w, x);
    WalkAct(plan, sh, id, lc, best);
    var dist, adj := plan.Q(id).dist, Layer(sh.links, lc);
    LayerIsClosed(sh.links, lc);
    LayerEntry(sh.links, lc, best);
    WalkUnfolds(adj, dist, best);
    var next := ScanBest(dist, sh.links[best][lc], 0, best);
    if next == best {
      t := [w];
    } else {
      hide Act, Inv, Exec, SharedOk, WorkerOk;
      var m := At(sh, ws, w, Walking(id, lc, next));
      var t2 := WalkLeads(plan, sh, ws, w, id, lc, next);
      t := [w] + t2;
      LeadsTrans(plan, At(sh, ws, w, x), w, [w],
        m, t2, At(sh, ws, w, AfterWalk(plan, id, lc, Hop(sh.links, dist, next, lc))));
    }
  }

  lemma WalkingFacts(plan: Plan, sh: Shared, id: nat, lc: nat, best: nat)
    requires SharedOk(plan, sh) && WorkerOk(plan, sh, Walking(id, lc, best))
    ensures plan.Valid() && id < plan.ds.Len()
    ensures WellLinked(sh.links) && |plan.Q(id).dist| == |sh.links| && Occupies(sh.links, best, lc)
    ensures id < |plan.levels| && plan.levels[id] < lc
  {}

  lemma DownUnfolds(links: Links, dist: seq<real>, ep: nat, lc: nat, level: nat)
    requires WellLinked(links) && |dist| == |links| && Occupies(links, ep, lc) && level < lc
    ensures var h := Hop(links, dist, ep, lc);
      && Occupies(links, h, lc) && Occupies(links, h, lc - 1)
      && Down(links, dist, ep, lc, level) == if lc - 1 > level then Down(links, dist, h, lc - 1, level) else h
  {
    hide Hop;
  }

  /** The descent, layer by layer. */
  lemma {:induction false} DownLeads(plan: Plan, sh: Shared, ws: seq<Worker>, w: nat, id: nat, lc: nat, best: nat)
    returns (t: seq<nat>)
    requires w < |ws| && Inv(plan, At(sh, ws, w, Walking(id, lc, best)))
    ensures WorkerOk(plan, sh, Walking(id, lc, best)) && SharedOk(plan, sh)
    ensures var ep := Down(sh.links, plan.Q(id).dist, best, lc, plan.levels[id]);
      var r := At(sh, ws, w, StartOn(plan, id, plan.levels[id], ep));
      && Leads(plan, At(sh, ws, w, Walking(id, lc, best)), w, t, r) && Inv(plan, r)
    decreases lc
  {
    hide Act, Inv, Exec, SharedOk, WorkerOk, Hop, Down, StartOn, Leads;
    var x := Walking(id, lc, best);
    var t1 := WalkLeads(plan, sh, ws, w, id, lc, best);
    WalkingFacts(plan, sh, id, lc, best);
    var h, level := Hop(sh.links, plan.Q(id).dist, best, lc), plan.levels[id];
    DownUnfolds(sh.links, plan.Q(id).dist, best, lc, level);
    if lc - 1 > level {
      var t2 := DownLeads(plan, sh, ws, w, id, lc - 1, h);
      t := t1 + t2;
      LeadsTrans(plan, At(sh, ws, w, x), w, t1, At(sh, ws, w, Walking(id, lc - 1, h)), t2,
                 At(sh, ws, w, StartOn(plan, id, level, Down(sh.links, plan.Q(id).dist, h, lc - 1, level))));
    } else {
      t := t1;
    }
  }

  // ---------- One layer ----------

  lemma SearchAct(plan: Plan, sh: Shared, id: nat, lc: nat, ep: nat, s: State)
    requires SharedOk(plan, sh) && WorkerOk(plan, sh, Searching(id, lc, ep, s))
    ensures Done(s, plan.Q(id)) ==> Act(plan, sh, Searching(id, lc, ep, s)) == Move(sh, Chosen(id, lc, s.res))
    ensures !Done(s, plan.Q(id)) ==>
      && Occupies(sh.links, s.cand[0].id, lc) && AllBelow(sh.links[s.cand[0].id][lc], plan.ds.Len())
      && Act(plan, sh, Searching(id, lc, ep, s))
         == Move(sh, Searching(id, lc, ep, Expand(s, plan.Q(id), sh.links[s.cand[0].id][lc])))
  {
    hide ScanBest, StartOn, OwnList, Keep, LinkStep, Expand, Publish;
    if !Done(s, plan.Q(id)) { CandidateOccupies(plan, sh, id, lc, s); }
  }

  lemma SearchingIsLive(plan: Plan, sh: Shared, id: nat, lc: nat, ep: nat, s: State)
    requires SharedOk(plan, sh) && WorkerOk(plan, sh, Searching(id, lc, ep, s))
    ensures Live(sh.links, lc, s, plan.Q(id)) && WellFormed(s, plan.Q(id))
    ensures InRange(Layer(sh.links, lc), |plan.Q(id).dist|)
  {
    LayerIsClosed(sh.links, lc);
  }

  /** A layer search, copy by copy, ends with the specified results. */
  lemma {:induction false} SearchLeads(
      plan: Plan, sh: Shared, ws: seq<Worker>, w: nat, id: nat, lc: nat, ep: nat, s: State, q: Query)
    returns (t: seq<nat>)
    requires w < |ws| && Inv(plan, At(sh, ws, w, Searching(id, lc, ep, s)))
    requires plan.Valid() && id < plan.ds.Len() && q == plan.Q(id)
    ensures InRange(Layer(sh.links, lc), |q.dist|) && WellFormed(s, q)
    ensures var r := At(sh, ws, w, Chosen(id, lc, Run(s, q, Layer(sh.links, lc)).res));
      && Leads(plan, At(sh, ws, w, Searching(id, lc, ep, s)), w, t, r) && Inv(plan, r)
    decreases Work(s, |q.dist|)
  {
    var x := Searching(id, lc, ep, s);
    LeadsStep(plan, sh, ws, w, x);
    SearchAct(plan, sh, id, lc, ep, s);
    SearchingIsLive(plan, sh, id, lc, ep, s);
    if Done(s, q) {
      t := [w];
    } else {
      hide Act, Inv, Exec, SharedOk, WorkerOk, Expand, Run, Live, Layer, Leads, WellFormed, Done;
      StepInLayer(sh.links, lc, s, q);
      var next := Expand(s, q, sh.links[s.cand[0].id][lc]);
      var t2 := SearchLeads(plan, sh, ws, w, id, lc, ep, next, q);
      t := [w] + t2;
      LeadsTrans(plan, At(sh, ws, w, x), w, [w], At(sh, ws, w, Searching(id, lc, ep, next)), t2,
                 At(sh, ws, w, Chosen(id, lc, Run(next, q, Layer(sh.links, lc)).res)));
    }
  }

  lemma LinkAct(plan: Plan, sh: Shared, id: nat, lc: nat, keep: seq<nat>, i: nat, ep: nat)
    requires SharedOk(plan, sh) && WorkerOk(plan, sh, Linking(id, lc, keep, i, ep))
    ensures plan.Valid() && id < plan.ds.Len() && ep < plan.ds.Len()
    ensures Buildable(plan.ds, plan.par, sh.links) && i <= |keep|
    ensures ListWithin(sh.links, keep, lc) && Occupies(sh.links, id, lc)
    ensures i == |keep| ==> Act(plan, sh, Linking(id, lc, keep, i, ep)) == Move(sh, NextLayer(plan, id, lc, ep))
    ensures i < |keep| ==> Occupies(sh.links, keep[i], lc)
    ensures i < |keep| ==> Act(plan, sh, Linking(id, lc, keep, i, ep)) == Move(
      sh.(links := LinkStep(plan.ds, plan.par, sh.links, keep[i], id, lc)), Linking(id, lc, keep, i + 1, ep))
  {
    hide ScanBest, StartOn, OwnList, Keep, LinkStep, Expand, Publish, NextLayer;
    if i < |keep| { assert Occupies(sh.links, keep[i], lc); }
  }

  lemma LinkAllUnfolds(ds: Dataset, par: Params, links: Links, ids: seq<nat>, i: nat, id: nat, lc: nat)
    requires Buildable(ds, par, links) && i <= |ids| && ListWithin(links, ids, lc) && Occupies(links, id, lc)
    ensures i == |ids| ==> LinkAll(ds, par, links, ids, i, id, lc) == links
    ensures i < |ids| ==>
      var next := LinkStep(ds, par, links, ids[i], id, lc);
      && Buildable(ds, par, next) && ListWithin(next, ids, lc) && Occupies(next, id, lc)
      && LinkAll(ds, par, links, ids, i, id, lc) == LinkAll(ds, par, next, ids, i + 1, id, lc)
  {
    hide LinkStep;
    if i < |ids| {
      assert Occupies(links, ids[i], lc);
      LinkStepKeeps(ds, par, links, ids[i], id, lc);
      var next := LinkStep(ds, par, links, ids[i], id, lc);
      forall j | 0 <= j < |ids| ensures Occupies(next, ids[j], lc) {
        assert Occupies(links, ids[j], lc);
      }
    }
  }

  /** The reverse links, lock by lock, add up to linking them all. */
  lemma {:induction false} LinkLeads(
      plan: Plan, sh: Shared, ws: seq<Worker>, w: nat, id: nat, lc: nat, keep: seq<nat>, i: nat, ep: nat)
    returns (t: seq<nat>)
    requires w < |ws| && Inv(plan, At(sh, ws, w, Linking(id, lc, keep, i, ep)))
    ensures plan.Valid() && id < plan.ds.Len() && ep < plan.ds.Len()
    ensures Buildable(plan.ds, plan.par, sh.links) && i <= |keep|
    ensures ListWithin(sh.links, keep, lc) && Occupies(sh.links, id, lc)
    ensures var r := At(sh.(links := LinkAll(plan.ds, plan.par, sh.links, keep, i, id, lc)),
      ws, w, NextLayer(plan, id, lc, ep));
      && Leads(plan, At(sh, ws, w, Linking(id, lc, keep, i, ep)), w, t, r) && Inv(plan, r)
    decreases |keep| - i
  {
    hide Act, Inv, Exec, SharedOk, WorkerOk, Leads, LinkAll, LinkStep, NextLayer, Buildable, ListWithin;
    var x := Linking(id, lc, keep, i, ep);
    LeadsStep(plan, sh, ws, w, x);
    LinkAct(plan, sh, id, lc, keep, i, ep);
    LinkAllUnfolds(plan.ds, plan.par, sh.links, keep, i, id, lc);
    if i == |keep| {
      t := [w];
    } else {
      var next := sh.(links := LinkStep(plan.ds, plan.par, sh.links, keep[i], id, lc));
      var t2 := LinkLeads(plan, next, ws, w, id, lc, keep, i + 1, ep);
      t := [w] + t2;
      LeadsTrans(plan, At(sh, ws, w, x), w, [w], At(next, ws, w, Linking(id, lc, keep, i + 1, ep)), t2,
                 At(sh.(links := LinkAll(plan.ds, plan.par, next.links, keep, i + 1, id, lc)),
                   ws, w, NextLayer(plan, id, lc, ep)));
    }
  }

  /** With nothing linked to it on this layer yet, a node's list is its selection. */
  lemma ChosenAct(plan: Plan, sh: Shared, id: nat, lc: nat, found: seq<Result>)
    requires SharedOk(plan, sh) && WorkerOk(plan, sh, Chosen(id, lc, found)) && sh.links[id][lc] == []
    ensures IdsWithin(plan.ds, found) && found != []
    ensures Act(plan, sh, Chosen(id, lc, found))
      == Move(sh.(links := SetList(sh.links, id, lc, Keep(plan.ds, plan.par, found)), floor := sh.floor[id := lc]),
              Linking(id, lc, Keep(plan.ds, plan.par, found), 0, found[0].id))
  {
    hide ScanBest, StartOn, Keep, LinkStep, Expand, Publish, LockedOwn;
    FoundBelow(plan, sh, lc, found);
    var own := Keep(plan.ds, plan.par, found);
    OwnBelow(plan, found, own);
    KeepIsShort(plan.ds, plan.par, found);
    LockedOwnFresh(plan.ds, plan.par, id, lc, own);
  }

  /** What the search of one layer ends with is what the specification finds. */
  lemma RunIsFound(plan: Plan, links: Links, id: nat, lc: nat, ep: nat)
    requires plan.Valid() && Buildable(plan.ds, plan.par, links) && id < |links| && Occupies(links, ep, lc)
    ensures InRange(Layer(links, lc), |plan.Q(id).dist|) && WellFormed(Start(plan.Q(id), ep), plan.Q(id))
    ensures Run(Start(plan.Q(id), ep), plan.Q(id), Layer(links, lc)).res
         == Found(plan.ds, plan.par, links, id, lc, ep)
  {
    hide Layer, Run, Start;
    StartWellFormed(plan.Q(id), ep);
    FoundUnfolds(plan.ds, plan.par, links, id, lc, ep);
  }

  lemma StartOnFacts(plan: Plan, sh: Shared, id: nat, lc: nat, ep: nat)
    requires plan.Valid() && id < plan.ds.Len() && ep < plan.ds.Len()
    requires SharedOk(plan, sh) && WorkerOk(plan, sh, StartOn(plan, id, lc, ep))
    ensures Buildable(plan.ds, plan.par, sh.links) && id < |sh.links| == plan.ds.Len()
    ensures Occupies(sh.links, id, lc) && Occupies(sh.links, ep, lc) && ep != id && id < |sh.floor|
  {}

  /** What worker w's system looks like once layer lc is connected. */
  ghost function LayerDone(plan: Plan, sh: Shared, id: nat, lc: nat, links: Links): (r: Shared)
    requires id < |sh.floor|
  {
    sh.(links := links, floor := sh.floor[id := lc])
  }

  /** From the results of the search on: own list, then the reverse links. */
  lemma AttachLeads(plan: Plan, sh: Shared, ws: seq<Worker>, w: nat, id: nat, lc: nat, ep: nat, found: seq<Result>)
    returns (t: seq<nat>)
    requires w < |ws| && Inv(plan, At(sh, ws, w, Chosen(id, lc, found)))
    requires plan.Valid() && Buildable(plan.ds, plan.par, sh.links)
    requires id < |sh.links| == plan.ds.Len() && id < |sh.floor|
    requires Occupies(sh.links, id, lc) && Occupies(sh.links, ep, lc) && sh.links[id][lc] == []
    requires found == Found(plan.ds, plan.par, sh.links, id, lc, ep)
    ensures var p := ConnectLayer(plan.ds, plan.par, sh.links, id, lc, ep);
      && p.ep < plan.ds.Len()
      && var r := At(LayerDone(plan, sh, id, lc, p.links), ws, w, NextLayer(plan, id, lc, p.ep));
      && Leads(plan, At(sh, ws, w, Chosen(id, lc, found)), w, t, r) && Inv(plan, r)
  {
    hide Act, Inv, Exec, SharedOk, WorkerOk, Leads, LinkAll, Found, Keep, NextLayer, Buildable, ListWithin, SetList,
      ConnectLayer;
    var x := Chosen(id, lc, found);
    LeadsStep(plan, sh, ws, w, x);
    ChosenAct(plan, sh, id, lc, found);
    ConnectSomething(plan.ds, plan.par, sh.links, id, lc, ep);
    var keep := Keep(plan.ds, plan.par, found);
    var mid := LayerDone(plan, sh, id, lc, SetList(sh.links, id, lc, keep));
    var t2 := LinkLeads(plan, mid, ws, w, id, lc, keep, 0, found[0].id);
    var done := mid.(links := LinkAll(plan.ds, plan.par, mid.links, keep, 0, id, lc));
    t := [w] + t2;
    LeadsTrans(plan, At(sh, ws, w, x), w, [w], At(mid, ws, w, Linking(id, lc, keep, 0, found[0].id)), t2,
               At(done, ws, w, NextLayer(plan, id, lc, found[0].id)));
  }

  /** One layer of an insertion, turn by turn, does what the specification says. */
  lemma LayerLeads(plan: Plan, sh: Shared, ws: seq<Worker>, w: nat, id: nat, lc: nat, ep: nat)
    returns (t: seq<nat>)
    requires plan.Valid() && id < plan.ds.Len() && ep < plan.ds.Len()
    requires w < |ws| && Inv(plan, At(sh, ws, w, StartOn(plan, id, lc, ep)))
    requires Occupies(sh.links, id, lc) && sh.links[id][lc] == []
    ensures Buildable(plan.ds, plan.par, sh.links) && Occupies(sh.links, ep, lc) && id < |sh.floor|
    ensures var p := ConnectLayer(plan.ds, plan.par, sh.links, id, lc, ep);
      && p.ep < plan.ds.Len()
      && var r := At(LayerDone(plan, sh, id, lc, p.links), ws, w, NextLayer(plan, id, lc, p.ep));
      && Leads(plan, At(sh, ws, w, StartOn(plan, id, lc, ep)), w, t, r) && Inv(plan, r)
  {
    hide Act, Inv, Exec, SharedOk, WorkerOk, Leads, Found, NextLayer, Buildable, ConnectLayer, Start, Run, Layer;
    LeadsStep(plan, sh, ws, w, StartOn(plan, id, lc, ep));
    StartOnFacts(plan, sh, id, lc, ep);
    RunIsFound(plan, sh.links, id, lc, ep);
    var t1 := SearchLeads(plan, sh, ws, w, id, lc, ep, Start(plan.Q(id), ep), plan.Q(id));
    var found := Found(plan.ds, plan.par, sh.links, id, lc, ep);
    var t2 := AttachLeads(plan, sh, ws, w, id, lc, ep, found);
    var p := ConnectLayer(plan.ds, plan.par, sh.links, id, lc, ep);
    t := t1 + t2;
    LeadsTrans(plan, At(sh, ws, w, StartOn(plan, id, lc, ep)), w, t1, At(sh, ws, w, Chosen(id, lc, found)), t2,
               At(LayerDone(plan, sh, id, lc, p.links), ws, w, NextLayer(plan, id, lc, p.ep)));
  }

  ghost predicate EmptyUpTo(links: Links, id: nat, lc: nat) {
    id < |links| && lc < |links[id]| && forall l :: 0 <= l <= lc ==> links[id][l] == []
  }

  lemma NextLayerDown(plan: Plan, sh: Shared, id: nat, lc: nat, ep: nat, p: Placed)
    requires plan.Valid() && id < plan.ds.Len() && id < |sh.floor| && p.ep < plan.ds.Len()
    requires Buildable(plan.ds, plan.par, sh.links) && Occupies(sh.links, id, lc) && Occupies(sh.links, ep, lc)
    requires p == ConnectLayer(plan.ds, plan.par, sh.links, id, lc, ep) && EmptyUpTo(sh.links, id, lc)
    ensures lc == 0 ==> NextLayer(plan, id, lc, p.ep) == Raising(id)
    ensures lc > 0 ==>
      NextLayer(plan, id, lc, p.ep) == StartOn(plan, id, lc - 1, p.ep) && EmptyUpTo(p.links, id, lc - 1)
    ensures lc > 0 ==> Occupies(p.links, id, lc - 1) && p.links[id][lc - 1] == []
  {
    hide ConnectLayer, StartOn, Buildable;
    ConnectLeavesBelow(plan.ds, plan.par, sh.links, id, lc, ep);
    var q := ConnectDownStep(plan.ds, plan.par, sh.links, id, lc, ep);
  }

  /** Layer lc and everything below it. */
  lemma {:induction false} AllLayersLead(plan: Plan, sh: Shared, ws: seq<Worker>, w: nat, id: nat, lc: nat, ep: nat)
    returns (t: seq<nat>)
    requires plan.Valid() && id < plan.ds.Len() && ep < plan.ds.Len()
    requires w < |ws| && Inv(plan, At(sh, ws, w, StartOn(plan, id, lc, ep)))
    requires EmptyUpTo(sh.links, id, lc)
    ensures Buildable(plan.ds, plan.par, sh.links) && Occupies(sh.links, id, lc) && Occupies(sh.links, ep, lc)
    ensures id < |sh.floor|
    ensures var p := ConnectDown(plan.ds, plan.par, sh.links, id, lc, ep);
      var r := At(LayerDone(plan, sh, id, 0, p.links), ws, w, Raising(id));
      && Leads(plan, At(sh, ws, w, StartOn(plan, id, lc, ep)), w, t, r) && Inv(plan, r)
    decreases lc
  {
    hide Act, Inv, Exec, SharedOk, WorkerOk, Leads, NextLayer, StartOn, Buildable, ConnectLayer, ConnectDown;
    var t1 := LayerLeads(plan, sh, ws, w, id, lc, ep);
    var p := ConnectDownStep(plan.ds, plan.par, sh.links, id, lc, ep);
    NextLayerDown(plan, sh, id, lc, ep, p);
    var mid := LayerDone(plan, sh, id, lc, p.links);
    if lc == 0 {
      t := t1;
    } else {
      var t2 := AllLayersLead(plan, mid, ws, w, id, lc - 1, p.ep);
      var links := ConnectDown(plan.ds, plan.par, p.links, id, lc - 1, p.ep).links;
      t := t1 + t2;
      assert sh.floor[id := lc][id := 0] == sh.floor[id := 0];
      LeadsTrans(plan, At(sh, ws, w, StartOn(plan, id, lc, ep)), w, t1,
                 At(mid, ws, w, StartOn(plan, id, lc - 1, p.ep)), t2,
                 At(LayerDone(plan, mid, id, 0, links), ws, w, Raising(id)));
    }
  }

  // ---------- A whole insertion ----------

  ghost predicate AllIdle(workers: seq<Worker>) {
    forall w :: 0 <= w < |workers| ==> workers[w].Idle?
  }

  /** Between insertions the shared index is sound and the next node untouched. */
  lemma IdleIsSound(plan: Plan, st: System)
    requires Inv(plan, st) && AllIdle(st.workers)
    ensures Sound(ResultOf(plan, st)) && plan.Valid() && |st.sh.links| == |plan.levels| == plan.ds.Len()
    ensures st.sh.next <= |plan.levels| && |st.sh.floor| == |plan.levels|
    ensures st.sh.next < |plan.levels| ==> st.sh.links[st.sh.next] == []
  {
    forall a | 0 <= a < |st.sh.links| ensures |st.sh.links[a]| <= st.sh.maxLevel + 1 {
      if a < st.sh.next {
        assert !Busy(st.workers, a);
        assert FinishedOk(plan, st.sh, a);
      }
    }
  }

  lemma FirstActs(plan: Plan, sh: Shared)
    requires SharedOk(plan, sh) && sh.next < |plan.levels|
    ensures Act(plan, sh, Idle) == Move(sh.(next := sh.next + 1), Claimed(sh.next))
  {}

  lemma PublishAct(plan: Plan, sh: Shared, id: nat)
    requires SharedOk(plan, sh) && WorkerOk(plan, sh, Claimed(id))
    ensures id < |plan.levels| == |sh.links|
    ensures Act(plan, sh, Claimed(id)) == Move(sh.(links := Publish(sh.links, id, plan.levels[id])), Reading(id))
  {}

  lemma ReadAct(plan: Plan, sh: Shared, id: nat)
    requires SharedOk(plan, sh) && WorkerOk(plan, sh, Reading(id))
    ensures plan.Valid() && id < |plan.levels| == |sh.floor| == |sh.ceil| && plan.ds.Len() == |plan.levels|
    ensures sh.entry < plan.ds.Len() && WellLinked(sh.links) && Occupies(sh.links, sh.entry, sh.maxLevel)
    ensures |sh.links| == plan.ds.Len()
    ensures Act(plan, sh, Reading(id)) ==
      if sh.maxLevel > plan.levels[id]
      then Move(Enter(sh, id, plan.levels[id]), Walking(id, sh.maxLevel, sh.entry))
      else Move(Enter(sh, id, sh.maxLevel), StartOn(plan, id, sh.maxLevel, sh.entry))
  {
    hide StartOn;
  }

  lemma RaiseAct(plan: Plan, sh: Shared, id: nat)
    requires SharedOk(plan, sh) && WorkerOk(plan, sh, Raising(id))
    ensures id < |plan.levels|
    ensures Act(plan, sh, Raising(id))
      == Move(if plan.levels[id] > sh.maxLevel then sh.(entry := id, maxLevel := plan.levels[id]) else sh, Idle)
  {}

  /** The level an insertion starts linking on. */
  ghost function StartLevel(plan: Plan, sh: Shared, id: nat): (l: nat)
    requires id < |plan.levels|
  {
    if plan.levels[id] > sh.maxLevel then sh.maxLevel else plan.levels[id]
  }

  /** From reading the top to the first layer search. */
  lemma ReadLeads(plan: Plan, sh: Shared, ws: seq<Worker>, w: nat, id: nat) returns (t: seq<nat>)
    requires w < |ws| && Inv(plan, At(sh, ws, w, Reading(id)))
    ensures plan.Valid() && id < |plan.levels| == |sh.floor| == |sh.ceil|
    ensures plan.ds.Len() == |plan.levels| == |sh.links|
    ensures WellLinked(sh.links) && Occupies(sh.links, sh.entry, sh.maxLevel)
    ensures var ep := Down(sh.links, plan.Q(id).dist, sh.entry, sh.maxLevel, plan.levels[id]);
      var start := StartLevel(plan, sh, id);
      var r := At(Enter(sh, id, start), ws, w, StartOn(plan, id, start, ep));
      && Leads(plan, At(sh, ws, w, Reading(id)), w, t, r) && Inv(plan, r)
  {
    hide Act, Inv, Exec, SharedOk, WorkerOk, Leads, StartOn, Down, WellLinked;
    LeadsStep(plan, sh, ws, w, Reading(id));
    ReadAct(plan, sh, id);
    var start := StartLevel(plan, sh, id);
    if sh.maxLevel > plan.levels[id] {
      var e := Enter(sh, id, start);
      var t2 := DownLeads(plan, e, ws, w, id, sh.maxLevel, sh.entry);
      t := [w] + t2;
      LeadsTrans(plan, At(sh, ws, w, Reading(id)), w, [w], At(e, ws, w, Walking(id, sh.maxLevel, sh.entry)), t2,
                 At(e, ws, w,
                   StartOn(plan, id, start, Down(sh.links, plan.Q(id).dist, sh.entry, sh.maxLevel, plan.levels[id]))));
    } else {
      DownNothing(sh.links, plan.Q(id).dist, sh.entry, sh.maxLevel, plan.levels[id]);
      t := [w];
    }
  }

  lemma DownNothing(links: Links, dist: seq<real>, ep: nat, lc: nat, level: nat)
    requires WellLinked(links) && |dist| == |links| && Occupies(links, ep, lc) && lc <= level
    ensures Down(links, dist, ep, lc, level) == ep
  {}

  /** What `InsertNode` is made of. */
  lemma InsertUnfolds(ix: Index, id: nat, level: nat) returns (links: Links, ep: nat, start: nat, p: Placed)
    requires Sound(ix) && id < |ix.links| && ix.links[id] == []
    ensures links == Publish(ix.links, id, level) && WellLinked(links)
    ensures Occupies(links, ix.entry, ix.maxLevel) && |links| == ix.ds.Len()
    ensures ep == Down(links, ix.ds.From(ix.ds.vecs[id]), ix.entry, ix.maxLevel, level)
    ensures start == (if level > ix.maxLevel then ix.maxLevel else level) && EmptyUpTo(links, id, start)
    ensures Buildable(ix.ds, ix.par, links) && Occupies(links, id, start) && Occupies(links, ep, start)
    ensures p == ConnectDown(ix.ds, ix.par, links, id, start, ep)
    ensures InsertNode(ix, id, level)
      == if level > ix.maxLevel then ix.(links := p.links, entry := id, maxLevel := level) else ix.(links := p.links)
  {
    hide ConnectDown, Down;
    PublishKeepsWellLinked(ix.links, id, level);
    links := Publish(ix.links, id, level);
    ep := Down(links, ix.ds.From(ix.ds.vecs[id]), ix.entry, ix.maxLevel, level);
    start := if level > ix.maxLevel then ix.maxLevel else level;
    p := ConnectDown(ix.ds, ix.par, links, id, start, ep);
  }

  /** Receiving and publishing. */
  lemma BeginLeads(plan: Plan, sh: Shared, ws: seq<Worker>, w: nat)
    requires w < |ws| && Inv(plan, At(sh, ws, w, Idle)) && sh.next < |plan.levels| == |sh.links|
    ensures var r := At(sh.(next := sh.next + 1, links := Publish(sh.links, sh.next, plan.levels[sh.next])),
      ws, w, Reading(sh.next));
      Leads(plan, At(sh, ws, w, Idle), w, [w] + [w], r) && Inv(plan, r)
  {
    hide Act, Inv, Exec, SharedOk, WorkerOk, Leads, Publish;
    LeadsStep(plan, sh, ws, w, Idle);
    FirstActs(plan, sh);
    var id, sh1 := sh.next, sh.(next := sh.next + 1);
    LeadsStep(plan, sh1, ws, w, Claimed(id));
    PublishAct(plan, sh1, id);
    var sh2 := sh1.(links := Publish(sh1.links, id, plan.levels[id]));
    LeadsTrans(plan, At(sh, ws, w, Idle), w, [w], At(sh1, ws, w, Claimed(id)), [w], At(sh2, ws, w, Reading(id)));
  }

  /** From the published node to its lists being in place on every layer. */
  lemma ConnectLeads(plan: Plan, sh: Shared, ws: seq<Worker>, w: nat, id: nat, ep: nat, start: nat, p: Placed)
    returns (t: seq<nat>)
    requires w < |ws| && Inv(plan, At(sh, ws, w, Reading(id)))
    requires plan.Valid() && id < |plan.levels| == |sh.floor| == |sh.ceil|
    requires plan.ds.Len() == |plan.levels| == |sh.links|
    requires WellLinked(sh.links) && Occupies(sh.links, sh.entry, sh.maxLevel)
    requires ep == Down(sh.links, plan.Q(id).dist, sh.entry, sh.maxLevel, plan.levels[id])
    requires start == StartLevel(plan, sh, id) && EmptyUpTo(sh.links, id, start)
    requires Buildable(plan.ds, plan.par, sh.links) && Occupies(sh.links, id, start) && Occupies(sh.links, ep, start)
    requires p == ConnectDown(plan.ds, plan.par, sh.links, id, start, ep)
    ensures var r := At(LayerDone(plan, Enter(sh, id, start), id, 0, p.links), ws, w, Raising(id));
      && Leads(plan, At(sh, ws, w, Reading(id)), w, t, r) && Inv(plan, r)
  {
    hide Act, Inv, Exec, SharedOk, WorkerOk, Leads, StartOn, Down, WellLinked, ConnectDown, Buildable, EmptyUpTo;
    var t1 := ReadLeads(plan, sh, ws, w, id);
    var e := Enter(sh, id, start);
    var t2 := AllLayersLead(plan, e, ws, w, id, start, ep);
    t := t1 + t2;
    LeadsTrans(plan, At(sh, ws, w, Reading(id)), w, t1, At(e, ws, w, StartOn(plan, id, start, ep)), t2,
               At(LayerDone(plan, e, id, 0, p.links), ws, w, Raising(id)));
  }

  /** One worker left to itself inserts the next node exactly as a sequential
  build does. */
  lemma InsertLeads(plan: Plan, st: System, w: nat) returns (t: seq<nat>, r: System)
    requires Inv(plan, st) && AllIdle(st.workers) && w < |st.workers| && st.sh.next < |plan.levels|
    ensures Leads(plan, st, w, t, r) && Inv(plan, r)
    ensures r.workers == st.workers && r.sh.next == st.sh.next + 1
    ensures Sound(ResultOf(plan, st)) && st.sh.next < |st.sh.links| && st.sh.links[st.sh.next] == []
    ensures ResultOf(plan, r) == InsertNode(ResultOf(plan, st), st.sh.next, plan.levels[st.sh.next])
  {
    hide Act, Inv, Exec, SharedOk, WorkerOk, Leads, StartOn, Down, WellLinked, ConnectDown, Buildable, EmptyUpTo,
      InsertNode, Sound, Publish, Occupies;
    IdleIsSound(plan, st);
    var sh, ws, id := st.sh, st.workers, st.sh.next;
    var level := plan.levels[id];
    assert At(sh, ws, w, Idle) == st;
    var links, ep, start, p := InsertUnfolds(ResultOf(plan, st), id, level);
    BeginLeads(plan, sh, ws, w);
    var sh2 := sh.(next := id + 1, links := links);
    ReadingFacts(plan, sh2, ws, w, id);
    var t2 := ConnectLeads(plan, sh2, ws, w, id, ep, start, p);
    var sh4 := LayerDone(plan, Enter(sh2, id, start), id, 0, p.links);
    LeadsTrans(plan, st, w, [w] + [w], At(sh2, ws, w, Reading(id)), t2, At(sh4, ws, w, Raising(id)));
    LeadsStep(plan, sh4, ws, w, Raising(id));
    RaiseAct(plan, sh4, id);
    var sh5 := if level > sh4.maxLevel then sh4.(entry := id, maxLevel := level) else sh4;
    r := At(sh5, ws, w, Idle);
    t := [w] + [w] + t2 + [w];
    LeadsTrans(plan, st, w, [w] + [w] + t2, At(sh4, ws, w, Raising(id)), [w], r);
  }

  lemma ReadingFacts(plan: Plan, sh: Shared, ws: seq<Worker>, w: nat, id: nat)
    requires w < |ws| && Inv(plan, At(sh, ws, w, Reading(id)))
    ensures plan.Valid() && id < |plan.levels| == |sh.floor| == |sh.ceil|
    ensures plan.ds.Len() == |plan.levels| == |sh.links|
  {
    assert At(sh, ws, w, Reading(id)).workers[w] == Reading(id);
    assert WorkerOk(plan, sh, Reading(id));
  }
}
