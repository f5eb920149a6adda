/** A parallel build finishes. A worker searches lists that others are changing
under it, but each of its turns lowers a measure that no other worker's turn
raises, so rounds in which everyone gets a turn end the build. */
module Progress {
  import opened LayerSearch
  import opened Descent
  import opened Build
  import opened BuildInvariant
  import opened ParallelBuild
  import opened SoloRun
  import opened EdgesOnce

  // ---------- How many turns are left ----------

  /** The turns one layer can take: expansions, settling, setting the own list,
  linking back, moving on. */
  ghost function LayerTurns(plan: Plan): (n: nat)
    requires plan.Valid()
  {
    plan.ds.Len() + plan.par.m + 3
  }

  ghost function Layers(plan: Plan, k: nat): (n: nat)
    requires plan.Valid()
  {
    if k == 0 then 0 else Layers(plan, k - 1) + LayerTurns(plan)
  }

  lemma {:induction false} LayersRise(plan: Plan, k: nat, l: nat)
    requires plan.Valid() && k <= l
    ensures Layers(plan, k) <= Layers(plan, l)
  {
    if k < l { LayersRise(plan, k, l - 1); }
  }

  ghost function Level(plan: Plan, id: nat): (l: nat) {
    if id < |plan.levels| then plan.levels[id] else 0
  }

  /** How many nodes are nearer than where the walk stands. */
  ghost function Closer(plan: Plan, id: nat, best: nat): (n: nat)
    requires plan.Valid()
  {
    if id < plan.ds.Len() && best < plan.ds.Len() then |Nearer(plan.Q(id).dist, best)| else 0
  }

  /** From reading the top to the end. */
  ghost function Whole(plan: Plan, id: nat): (n: nat)
    requires plan.Valid()
  {
    plan.ds.Len() + Height(plan.levels) + Layers(plan, Level(plan, id) + 1) + 2
  }

  /** An upper bound on the turns a worker still needs for its node. */
  ghost function Left(plan: Plan, w: Worker): (n: nat)
    requires plan.Valid()
  {
    match w
    case Idle => 0
    case Claimed(id) => Whole(plan, id) + 1
    case Reading(id) => Whole(plan, id)
    case Walking(id, lc, best) => Closer(plan, id, best) + lc + Layers(plan, Level(plan, id) + 1) + 1
    case Searching(id, lc, ep, s) => Work(s, plan.ds.Len()) + plan.par.m + 3 + Layers(plan, lc) + 1
    case Chosen(id, lc, found) => plan.par.m + 2 + Layers(plan, lc) + 1
    case Linking(id, lc, keep, i, ep) => (if i <= |keep| then |keep| - i else 0) + 1 + Layers(plan, lc) + 1
    case Raising(_) => 1
  }

  lemma StartLeft(plan: Plan, id: nat, lc: nat, ep: nat)
    requires plan.Valid() && id < plan.ds.Len() && ep < plan.ds.Len()
    ensures Left(plan, StartOn(plan, id, lc, ep)) == Layers(plan, lc + 1) + 1
  {
    var n := plan.ds.Len();
    assert |Nodes(n) - {ep}| == n - 1;
  }

  lemma CloserBound(plan: Plan, id: nat, best: nat)
    requires plan.Valid()
    ensures Closer(plan, id, best) <= plan.ds.Len()
  {
    if id < plan.ds.Len() && best < plan.ds.Len() {
      SubsetSize(Nearer(plan.Q(id).dist, best), Nodes(plan.ds.Len()));
    }
  }

  lemma TopIsDrawn(plan: Plan, sh: Shared)
    requires SharedOk(plan, sh)
    ensures sh.maxLevel < Height(plan.levels)
  {}

  // ---------- Every turn counts ----------

  lemma ReadLowers(plan: Plan, sh: Shared, w: Worker)
    requires SharedOk(plan, sh) && WorkerOk(plan, sh, w) && w.Reading?
    ensures plan.Valid() && Left(plan, Act(plan, sh, w).w) < Left(plan, w)
  {
    hide Act, SharedOk, WorkerOk, Closer, Layers, StartOn;
    ReadAct(plan, sh, w.id);
    TopIsDrawn(plan, sh);
    if sh.maxLevel > plan.levels[w.id] {
      CloserBound(plan, w.id, sh.entry);
    } else {
      StartLeft(plan, w.id, sh.maxLevel, sh.entry);
      LayersRise(plan, sh.maxLevel + 1, plan.levels[w.id] + 1);
    }
  }

  lemma WalkLowers(plan: Plan, sh: Shared, w: Worker)
    requires SharedOk(plan, sh) && WorkerOk(plan, sh, w) && w.Walking?
    ensures plan.Valid() && Left(plan, Act(plan, sh, w).w) < Left(plan, w)
  {
    hide Act, SharedOk, WorkerOk, Layers, StartOn, Nearer;
    WalkAct(plan, sh, w.id, w.lc, w.best);
    WalkingFacts(plan, sh, w.id, w.lc, w.best);
    WalkingSize(plan, sh);
    var dist := plan.Q(w.id).dist;
    var next := ScanBest(dist, sh.links[w.best][w.lc], 0, w.best);
    if next != w.best {
      NearerShrinks(dist, next, w.best);
    } else if w.lc - 1 == plan.levels[w.id] {
      StartLeft(plan, w.id, w.lc - 1, w.best);
    }
  }

  lemma WalkingSize(plan: Plan, sh: Shared)
    requires SharedOk(plan, sh)
    ensures plan.Valid() && |sh.links| == plan.ds.Len() == |plan.levels|
  {}

  lemma SearchLowers(plan: Plan, sh: Shared, w: Worker)
    requires SharedOk(plan, sh) && WorkerOk(plan, sh, w) && w.Searching?
    ensures plan.Valid() && Left(plan, Act(plan, sh, w).w) < Left(plan, w)
  {
    hide Act, SharedOk, WorkerOk, Layers, Expand;
    SearchAct(plan, sh, w.id, w.lc, w.ep, w.s);
    WalkingSize(plan, sh);
    SearchingFits(plan, sh, w);
    if !Done(w.s, plan.Q(w.id)) { ExpandWork(w.s, plan.Q(w.id), sh.links[w.s.cand[0].id][w.lc]); }
  }

  lemma ChooseLowers(plan: Plan, sh: Shared, w: Worker)
    requires SharedOk(plan, sh) && WorkerOk(plan, sh, w) && w.Chosen?
    ensures plan.Valid() && Left(plan, Act(plan, sh, w).w) < Left(plan, w)
  {
    hide Act, SharedOk, Layers, OwnList, Keep;
    WalkingSize(plan, sh);
    OwnAct(plan, sh, w);
    KeepFacts(plan.ds, plan.par, w.found, w.id);
  }

  lemma LinkLowers(plan: Plan, sh: Shared, w: Worker)
    requires SharedOk(plan, sh) && WorkerOk(plan, sh, w) && w.Linking?
    ensures plan.Valid() && Left(plan, Act(plan, sh, w).w) < Left(plan, w)
  {
    hide Act, SharedOk, WorkerOk, Layers, LinkStep, StartOn;
    WalkingSize(plan, sh);
    LinkAct(plan, sh, w.id, w.lc, w.keep, w.i, w.ep);
    if w.i == |w.keep| && w.lc > 0 { StartLeft(plan, w.id, w.lc - 1, w.ep); }
  }

  /** Every turn of a busy worker brings it nearer the end of its node, whatever
  the others have done meanwhile. */
  lemma TurnLowers(plan: Plan, sh: Shared, w: Worker)
    requires SharedOk(plan, sh) && WorkerOk(plan, sh, w) && !w.Idle?
    ensures plan.Valid() && Left(plan, Act(plan, sh, w).w) < Left(plan, w)
  {
    hide Act, SharedOk, WorkerOk;
    WalkingSize(plan, sh);
    match w
    case Claimed(id) => PublishAct(plan, sh, id);
    case Reading(_) => ReadLowers(plan, sh, w);
    case Walking(_, _, _) => WalkLowers(plan, sh, w);
    case Searching(_, _, _, _) => SearchLowers(plan, sh, w);
    case Chosen(_, _, _) => ChooseLowers(plan, sh, w);
    case Linking(_, _, _, _, _) => LinkLowers(plan, sh, w);
    case Raising(id) => RaiseAct(plan, sh, id);
  }

  // ---------- The whole system ----------

  ghost function SumLeft(plan: Plan, workers: seq<Worker>): (n: nat)
    requires plan.Valid()
  {
    if workers == [] then 0 else SumLeft(plan, workers[..|workers| - 1]) + Left(plan, workers[|workers| - 1])
  }

  /** For the nodes not received yet: the turns they need, and the receipt. */
  ghost function Unreceived(plan: Plan, next: nat): (n: nat)
    requires plan.Valid() && next <= |plan.levels|
    decreases |plan.levels| - next
  {
    if next == |plan.levels| then 0 else Left(plan, Claimed(next)) + 1 + Unreceived(plan, next + 1)
  }

  ghost function Remaining(plan: Plan, st: System): (n: nat)
    requires plan.Valid() && st.sh.next <= |plan.levels|
  {
    SumLeft(plan, st.workers) + Unreceived(plan, st.sh.next)
  }

  lemma {:induction false} SumOfChanged(plan: Plan, workers: seq<Worker>, w: nat, x: Worker)
    requires plan.Valid() && w < |workers|
    ensures SumLeft(plan, workers[w := x]) + Left(plan, workers[w]) == SumLeft(plan, workers) + Left(plan, x)
  {
    hide Left;
    var n := |workers| - 1;
    if w == n {
      assert workers[w := x][..n] == workers[..n];
    } else {
      assert workers[w := x][..n] == workers[..n][w := x];
      SumOfChanged(plan, workers[..n], w, x);
    }
  }

  lemma NextFits(plan: Plan, st: System)
    requires Inv(plan, st)
    ensures plan.Valid() && 1 <= st.sh.next <= |plan.levels| == plan.ds.Len()
  {}

  /** Every step either changes nothing, because its worker rests and no node is
  left to receive, or lowers the measure. */
  lemma StepLowers(plan: Plan, st: System, w: nat)
    requires Inv(plan, st) && w < |st.workers|
    ensures var r := Step(plan, st, w);
      && plan.Valid() && st.sh.next <= |plan.levels| && r.sh.next <= |plan.levels|
      && if st.workers[w].Idle? && st.sh.next == |plan.levels| then r == st
         else Remaining(plan, r) < Remaining(plan, st)
  {
    hide Inv, Act, Step, SharedOk, WorkerOk, Left;
    InvGives(plan, st, w);
    NextFits(plan, st);
    var me, m := st.workers[w], Act(plan, st.sh, st.workers[w]);
    SumOfChanged(plan, st.workers, w, m.w);
    if me.Idle? {
      ClaimActs(plan, st.sh);
      RestingNeedsNothing(plan);
      assert st.workers[w := Idle] == st.workers;
    } else {
      TurnLowers(plan, st.sh, me);
      MoveShape(plan, st.sh, me);
    }
  }

  lemma RestingNeedsNothing(plan: Plan)
    requires plan.Valid()
    ensures Left(plan, Idle) == 0
  {}

  // ---------- Rounds ----------

  /** Every worker has a turn. */
  ghost predicate FairRound(t: seq<nat>, workers: nat) {
    (forall i :: 0 <= i < |t| ==> t[i] < workers) && forall w: nat :: w < workers ==> w in t
  }

  ghost function AllTurns(rounds: seq<seq<nat>>): (sched: seq<nat>) {
    if rounds == [] then [] else AllTurns(rounds[..|rounds| - 1]) + rounds[|rounds| - 1]
  }

  /** Turns never raise the measure; once every worker that was busy, or could
  receive a node, has had one, they have lowered it. */
  lemma {:induction false} TurnsLower(plan: Plan, st: System, t: seq<nat>)
    requires Inv(plan, st) && forall i :: 0 <= i < |t| ==> t[i] < |st.workers|
    ensures var r := Exec(plan, st, t);
      && plan.Valid() && st.sh.next <= |plan.levels| && r.sh.next <= |plan.levels|
      && Remaining(plan, r) <= Remaining(plan, st)
      && (Remaining(plan, r) == Remaining(plan, st) ==> r == st)
      && (r == st ==> forall i :: 0 <= i < |t| ==> st.workers[t[i]].Idle? && st.sh.next == |plan.levels|)
  {
    hide Inv, Step, Remaining;
    NextFits(plan, st);
    if t != [] {
      var n := |t| - 1;
      TurnsLower(plan, st, t[..n]);
      var mid := Exec(plan, st, t[..n]);
      StepLowers(plan, mid, t[n]);
    }
  }

  lemma RoundLowers(plan: Plan, st: System, t: seq<nat>)
    requires Inv(plan, st) && FairRound(t, |st.workers|) && |st.workers| > 0
    ensures var r := Exec(plan, st, t);
      && plan.Valid() && st.sh.next <= |plan.levels| && r.sh.next <= |plan.levels|
      && (Finished(plan, st) ==> r == st)
      && (!Finished(plan, st) ==> Remaining(plan, r) < Remaining(plan, st))
  {
    hide Inv, Step, Remaining, Exec;
    TurnsLower(plan, st, t);
    NextFits(plan, st);
    if Finished(plan, st) {
      FinishedStays(plan, st, t);
    } else if Exec(plan, st, t) == st {
      assert 0 in t;
      forall w | 0 <= w < |st.workers| ensures st.workers[w].Idle? {
        assert w in t;
      }
    }
  }

  lemma {:induction false} FinishedStays(plan: Plan, st: System, t: seq<nat>)
    requires Inv(plan, st) && Finished(plan, st) && forall i :: 0 <= i < |t| ==> t[i] < |st.workers|
    ensures Exec(plan, st, t) == st
  {
    hide Inv, Step;
    if t != [] {
      FinishedStays(plan, st, t[..|t| - 1]);
      StepLowers(plan, st, t[|t| - 1]);
    }
  }

  lemma {:induction false} RoundsInRange(rounds: seq<seq<nat>>, workers: nat)
    requires forall i :: 0 <= i < |rounds| ==> FairRound(rounds[i], workers)
    ensures forall i :: 0 <= i < |AllTurns(rounds)| ==> AllTurns(rounds)[i] < workers
  {
    if rounds != [] { RoundsInRange(rounds[..|rounds| - 1], workers); }
  }

  lemma {:induction false} RoundsLower(plan: Plan, st: System, rounds: seq<seq<nat>>)
    requires Inv(plan, st) && |st.workers| > 0
    requires forall i :: 0 <= i < |rounds| ==> FairRound(rounds[i], |st.workers|)
    ensures forall i :: 0 <= i < |AllTurns(rounds)| ==> AllTurns(rounds)[i] < |st.workers|
    ensures var r := Exec(plan, st, AllTurns(rounds));
      && plan.Valid() && st.sh.next <= |plan.levels| && r.sh.next <= |plan.levels|
      && (Finished(plan, r) || Remaining(plan, r) + |rounds| <= Remaining(plan, st))
  {
    hide Inv, Step, Remaining, Exec, Finished, FairRound;
    RoundsInRange(rounds, |st.workers|);
    NextFits(plan, st);
    if rounds == [] {
      NoTurns(plan, st);
    } else {
      var n := |rounds| - 1;
      RoundsLower(plan, st, rounds[..n]);
      FairInRange(rounds[n], |st.workers|);
      ExecAppend(plan, st, AllTurns(rounds[..n]), rounds[n]);
      RoundLowers(plan, Exec(plan, st, AllTurns(rounds[..n])), rounds[n]);
    }
  }

  lemma FairInRange(t: seq<nat>, workers: nat)
    requires FairRound(t, workers)
    ensures forall i :: 0 <= i < |t| ==> t[i] < workers
  {}

  lemma NoTurns(plan: Plan, st: System)
    requires Inv(plan, st)
    ensures Exec(plan, st, AllTurns([])) == st
  {}

  /** Every parallel build finishes: after more rounds, in each of which every
  worker has some turn in any order, than the measure of the start, all nodes are
  inserted and all workers rest. */
  lemma FairRunsFinish(plan: Plan, workers: nat, rounds: seq<seq<nat>>)
    requires plan.Valid() && 1 <= workers
    requires Inv(plan, Init(plan, workers)) && |Init(plan, workers).workers| == workers
    requires forall i :: 0 <= i < |rounds| ==> FairRound(rounds[i], workers)
    requires Init(plan, workers).sh.next <= |plan.levels| && |rounds| > Remaining(plan, Init(plan, workers))
    ensures forall i :: 0 <= i < |AllTurns(rounds)| ==> AllTurns(rounds)[i] < workers
    ensures Finished(plan, Exec(plan, Init(plan, workers), AllTurns(rounds)))
  {
    hide Inv, Exec, Finished, Init, FairRound, Remaining;
    RoundsLower(plan, Init(plan, workers), rounds);
  }
}
