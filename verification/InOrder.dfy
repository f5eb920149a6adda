/** Runs of a parallel build in which no two insertions overlap: each of them
builds exactly what the sequential loop of `internal/index/hnsw.go` builds,
whichever workers take the nodes. */
module InOrder {
  import opened Build
  import opened BuildInvariant
  import opened ParallelBuild
  import opened SoloRun

  ghost predicate OneBusy(workers: seq<Worker>) {
    forall u, v :: 0 <= u < v < |workers| ==> workers[u].Idle? || workers[v].Idle?
  }

  /** At no moment is more than one worker inserting. */
  ghost predicate NonOverlapping(plan: Plan, st: System, sched: seq<nat>)
    requires Inv(plan, st) && forall i :: 0 <= i < |sched| ==> sched[i] < |st.workers|
  {
    forall k :: 0 <= k <= |sched| ==> OneBusy(Exec(plan, st, sched[..k]).workers)
  }

  /** The index is the sequential build of the nodes received so far. */
  ghost predicate Built(plan: Plan, st: System) {
    && plan.Valid() && 1 <= st.sh.next <= plan.ds.Len()
    && ResultOf(plan, st) == BuildUpTo(plan.ds, plan.par, plan.levels, st.sh.next)
  }

  // ---------- Single steps ----------

  lemma ExecOneMore(plan: Plan, st: System, t: seq<nat>, j: nat)
    requires Inv(plan, st) && j < |t| && forall i :: 0 <= i < |t| ==> t[i] < |st.workers|
    ensures Exec(plan, st, t[..j + 1]) == Step(plan, Exec(plan, st, t[..j]), t[j])
  {
    hide Inv, Step;
    assert t[..j + 1][..j] == t[..j] && t[..j + 1][j] == t[j];
  }

  /** A worker at rest takes the next node if there is one, and else stays put. */
  lemma IdleStep(plan: Plan, st: System, v: nat)
    requires Inv(plan, st) && v < |st.workers| && st.workers[v].Idle?
    ensures var r := Step(plan, st, v);
      if st.sh.next < |plan.levels|
      then r.sh.next == st.sh.next + 1 && r.workers == st.workers[v := Claimed(st.sh.next)]
      else r == st
  {
    assert st.workers[v := Idle] == st.workers;
  }

  /** Only the worker whose turn it is changes, and no node is given back. */
  lemma StepIsLocal(plan: Plan, st: System, w: nat)
    requires Inv(plan, st) && w < |st.workers|
    ensures var r := Step(plan, st, w);
      && st.sh.next <= r.sh.next
      && |r.workers| == |st.workers| && forall v :: 0 <= v < |st.workers| && v != w ==> r.workers[v] == st.workers[v]
  {
    hide Act;
    MoveShape(plan, st.sh, st.workers[w]);
  }

  lemma {:induction false} NextRises(plan: Plan, st: System, t: seq<nat>)
    requires Inv(plan, st) && forall i :: 0 <= i < |t| ==> t[i] < |st.workers|
    ensures st.sh.next <= Exec(plan, st, t).sh.next
  {
    hide Inv, Step;
    if t != [] {
      NextRises(plan, st, t[..|t| - 1]);
      StepIsLocal(plan, Exec(plan, st, t[..|t| - 1]), t[|t| - 1]);
    }
  }

  lemma {:induction false} OthersRest(plan: Plan, st: System, w: nat, t: seq<nat>)
    requires Inv(plan, st) && AllIdle(st.workers) && w < |st.workers| && TurnsOf(t, w)
    ensures var ws := Exec(plan, st, t).workers;
      OneBusy(ws) && forall v :: 0 <= v < |ws| && v != w ==> ws[v].Idle?
  {
    hide Inv, Step;
    if t != [] {
      OthersRest(plan, st, w, t[..|t| - 1]);
      StepIsLocal(plan, Exec(plan, st, t[..|t| - 1]), t[|t| - 1]);
    }
  }

  // ---------- Where a non-overlapping run stands ----------

  /** Since `base`, when all workers rested, worker w has taken j turns of the
  insertion that leads to r; with j = 0 all of them rest now. */
  datatype Track = Track(base: System, w: nat, t: seq<nat>, r: System, j: nat)

  ghost predicate Inserting(plan: Plan, base: System, w: nat, t: seq<nat>, r: System) {
    && Inv(plan, base) && AllIdle(base.workers) && w < |base.workers| && base.sh.next < |plan.levels|
    && TurnsOf(t, w) && Exec(plan, base, t) == r
    && Inv(plan, r) && r.workers == base.workers && r.sh.next == base.sh.next + 1 && Built(plan, r)
  }

  /** Where j of the turns t have led. */
  ghost function SoFar(plan: Plan, base: System, w: nat, t: seq<nat>, j: nat): (st: System)
    requires Inv(plan, base) && w < |base.workers| && TurnsOf(t, w) && j <= |t|
    ensures Inv(plan, st) && |st.workers| == |base.workers|
  {
    Exec(plan, base, t[..j])
  }

  ghost predicate OnTrack(plan: Plan, st: System, k: Track) {
    && Inv(plan, k.base) && AllIdle(k.base.workers) && Built(plan, k.base)
    && if k.j == 0 then st == k.base
       else
         && Inserting(plan, k.base, k.w, k.t, k.r) && k.j < |k.t|
         && SoFar(plan, k.base, k.w, k.t, k.j) == st && !st.workers[k.w].Idle?
  }

  lemma BeginInsert(plan: Plan, base: System, v: nat) returns (t: seq<nat>, r: System)
    requires Inv(plan, base) && AllIdle(base.workers) && Built(plan, base)
    requires v < |base.workers| && base.sh.next < |plan.levels|
    ensures Inserting(plan, base, v, t, r) && |t| > 1 && SoFar(plan, base, v, t, 1) == Step(plan, base, v)
    ensures !Step(plan, base, v).workers[v].Idle?
  {
    hide Inv, Step, Leads, InsertNode, BuildUpTo, Sound;
    t, r := InsertLeads(plan, base, v);
    BuildNextIndex(plan, base.sh.next + 1);
    IdleStep(plan, base, v);
    LeadsTurns(plan, base, v, t, r);
    assert t != [];
    ExecOneMore(plan, base, t, 0);
    assert t[..0] == [];
    assert t[..1] != t;
  }

  lemma LeadsTurns(plan: Plan, st: System, w: nat, t: seq<nat>, r: System)
    requires Inv(plan, st) && w < |st.workers| && Leads(plan, st, w, t, r)
    ensures TurnsOf(t, w) && Exec(plan, st, t) == r
  {}

  lemma BuildNextIndex(plan: Plan, n: nat)
    requires plan.Valid() && 2 <= n <= plan.ds.Len()
    ensures var prev := BuildUpTo(plan.ds, plan.par, plan.levels, n - 1);
      && Sound(prev) && n - 1 < |prev.links| && prev.links[n - 1] == []
      && BuildUpTo(plan.ds, plan.par, plan.levels, n) == InsertNode(prev, n - 1, plan.levels[n - 1])
  {
    var prev := BuildStep(plan.ds, plan.par, plan.levels, n);
  }

  /** The worker rests again only when its insertion is complete. */
  lemma {:induction false} RestIsTheEnd(plan: Plan, base: System, w: nat, t: seq<nat>, r: System, j: nat)
    requires Inserting(plan, base, w, t, r) && 0 < j <= |t|
    requires SoFar(plan, base, w, t, j).workers[w].Idle?
    ensures SoFar(plan, base, w, t, j) == r
    decreases |t| - j
  {
    hide Inv, Step, Built;
    if j == |t| {
      assert t[..j] == t;
    } else {
      var here := Exec(plan, base, t[..j]);
      ExecOneMore(plan, base, t, j);
      IdleStep(plan, here, w);
      if here.sh.next < |plan.levels| {
        FirstTurnClaims(plan, base, w, t, j);
        assert t == t[..j + 1] + t[j + 1..];
        ExecAppend(plan, base, t[..j + 1], t[j + 1..]);
        NextRises(plan, Exec(plan, base, t[..j + 1]), t[j + 1..]);
        assert false;
      } else {
        RestIsTheEnd(plan, base, w, t, r, j + 1);
      }
    }
  }

  lemma FirstTurnClaims(plan: Plan, base: System, w: nat, t: seq<nat>, j: nat)
    requires Inv(plan, base) && AllIdle(base.workers) && w < |base.workers| && base.sh.next < |plan.levels|
    requires TurnsOf(t, w) && 0 < j <= |t|
    ensures Exec(plan, base, t[..j]).sh.next >= base.sh.next + 1
  {
    hide Inv, Step;
    ExecOneMore(plan, base, t, 0);
    assert t[..0] == [];
    IdleStep(plan, base, w);
    assert t[..j] == t[..1] + t[1..j];
    ExecAppend(plan, base, t[..1], t[1..j]);
    NextRises(plan, Exec(plan, base, t[..1]), t[1..j]);
  }

  lemma AtRest(plan: Plan, base: System, st: System)
    requires Inv(plan, base) && AllIdle(base.workers) && Built(plan, base) && st == base
    ensures OnTrack(plan, st, Track(base, 0, [], base, 0))
  {}

  /** One more turn of a run in which nothing overlaps. */
  lemma Advance(plan: Plan, st: System, k: Track, v: nat) returns (n: Track)
    requires Inv(plan, st) && OnTrack(plan, st, k) && v < |st.workers|
    requires OneBusy(st.workers) && OneBusy(Step(plan, st, v).workers)
    ensures OnTrack(plan, Step(plan, st, v), n)
  {
    hide Inv, Step, Built;
    if k.j == 0 {
      IdleStep(plan, st, v);
      if st.sh.next < |plan.levels| {
        var t, r := BeginInsert(plan, st, v);
        n := Track(st, v, t, r, 1);
      } else {
        n := k;
      }
    } else if v == k.w {
      n := OwnTurn(plan, st, k);
    } else {
      NotBoth(st.workers, v, k.w);
      IdleStep(plan, st, v);
      NotBoth(Step(plan, st, v).workers, v, k.w);
      n := k;
    }
  }

  lemma NotBoth(workers: seq<Worker>, u: nat, v: nat)
    requires OneBusy(workers) && u < |workers| && v < |workers| && u != v
    ensures workers[u].Idle? || workers[v].Idle?
  {}

  lemma OwnTurn(plan: Plan, st: System, k: Track) returns (n: Track)
    requires Inv(plan, st) && OnTrack(plan, st, k) && k.j > 0 && k.w < |st.workers|
    ensures OnTrack(plan, Step(plan, st, k.w), n)
  {
    hide Inv, Step, Built, Exec;
    ExecOneMore(plan, k.base, k.t, k.j);
    n := k.(j := k.j + 1);
    assert SoFar(plan, k.base, k.w, k.t, n.j) == Step(plan, st, k.w);
    if n.j == |k.t| { assert k.t[..n.j] == k.t; }
    if Step(plan, st, k.w).workers[k.w].Idle? || n.j == |k.t| {
      RestIsTheEnd(plan, k.base, k.w, k.t, k.r, n.j);
      n := Track(k.r, 0, [], k.r, 0);
      AtRest(plan, k.r, Step(plan, st, k.w));
    }
  }

  lemma {:induction false} TrackRun(plan: Plan, workers: nat, sched: seq<nat>) returns (k: Track)
    requires plan.Valid() && forall i :: 0 <= i < |sched| ==> sched[i] < workers
    requires Inv(plan, Init(plan, workers)) && |Init(plan, workers).workers| == workers
    requires NonOverlapping(plan, Init(plan, workers), sched)
    ensures OnTrack(plan, Exec(plan, Init(plan, workers), sched), k)
  {
    hide Inv, Step, BuildUpTo;
    var st := Init(plan, workers);
    if sched == [] {
      BuildOne(plan.ds, plan.par, plan.levels);
      k := Track(st, 0, [], st, 0);
    } else {
      hide Init, OneBusy;
      var n := |sched| - 1;
      forall i | 0 <= i <= n ensures OneBusy(Exec(plan, st, sched[..n][..i]).workers) {
        assert sched[..n][..i] == sched[..i];
      }
      var before := TrackRun(plan, workers, sched[..n]);
      assert sched[..|sched|] == sched;
      assert OneBusy(Exec(plan, st, sched[..n]).workers) && OneBusy(Exec(plan, st, sched[..|sched|]).workers);
      k := Advance(plan, Exec(plan, st, sched[..n]), before, sched[n]);
    }
  }

  /** Every run without overlap that finishes, whoever inserted which node and
  however idle turns fell, has built the very index of the sequential loop. */
  lemma NonOverlappingIsSequential(plan: Plan, workers: nat, sched: seq<nat>)
    requires plan.Valid() && forall i :: 0 <= i < |sched| ==> sched[i] < workers
    requires Inv(plan, Init(plan, workers)) && |Init(plan, workers).workers| == workers
    requires NonOverlapping(plan, Init(plan, workers), sched)
    requires Finished(plan, Exec(plan, Init(plan, workers), sched))
    ensures ResultOf(plan, Exec(plan, Init(plan, workers), sched))
         == BuildUpTo(plan.ds, plan.par, plan.levels, plan.ds.Len())
  {
    hide Inv, Init, Exec, BuildUpTo, NonOverlapping;
    var k := TrackRun(plan, workers, sched);
  }

  /** There are such runs, for every assignment of nodes to workers: who[i] is
  the worker that inserts node i. */
  lemma {:induction false} SomeRunDoesNotOverlap(plan: Plan, workers: nat, who: seq<nat>, n: nat)
    returns (sched: seq<nat>, r: System)
    requires plan.Valid() && |who| == plan.ds.Len() && (forall i :: 0 <= i < |who| ==> who[i] < workers)
    requires 1 <= n <= plan.ds.Len()
    requires Inv(plan, Init(plan, workers)) && |Init(plan, workers).workers| == workers
    ensures forall i :: 0 <= i < |sched| ==> sched[i] < workers
    ensures r == Exec(plan, Init(plan, workers), sched) && NonOverlapping(plan, Init(plan, workers), sched)
    ensures AllIdle(r.workers) && r.sh.next == n
    decreases n
  {
    hide Inv, Step, BuildUpTo, Leads, InsertNode, Sound;
    var st := Init(plan, workers);
    if n == 1 {
      sched, r := [], st;
    } else {
      hide Init, NonOverlapping;
      var s, mid := SomeRunDoesNotOverlap(plan, workers, who, n - 1);
      var t, last := InsertLeads(plan, mid, who[n - 1]);
      LeadsTurns(plan, mid, who[n - 1], t, last);
      sched, r := s + t, last;
      ExecAppend(plan, st, s, t);
      AppendedTurns(plan, st, s, mid, who[n - 1], t);
    }
  }

  lemma AppendedTurns(plan: Plan, st: System, s: seq<nat>, mid: System, w: nat, t: seq<nat>)
    requires Inv(plan, st) && (forall i :: 0 <= i < |s| ==> s[i] < |st.workers|) && mid == Exec(plan, st, s)
    requires NonOverlapping(plan, st, s) && AllIdle(mid.workers) && w < |st.workers| && TurnsOf(t, w)
    ensures NonOverlapping(plan, st, s + t)
  {
    hide Inv, Exec, OneBusy;
    forall k | 0 <= k <= |s + t| ensures OneBusy(Exec(plan, st, (s + t)[..k]).workers) {
      if k <= |s| {
        assert (s + t)[..k] == s[..k];
      } else {
        var l := k - |s|;
        assert (s + t)[..k] == s + t[..l];
        ExecAppend(plan, st, s, t[..l]);
        OthersRest(plan, mid, w, t[..l]);
      }
    }
  }
}
