/** Building on several goroutines, `buildParallel` and the locked paths of
`internal/index/hnsw.go`, as a state machine: each step is one access to shared
state (a receive, the publishing write, or one region under one lock) together
with the local work around it. A schedule is the sequence of workers that take
the steps, so a statement about every schedule is about every interleaving. */
module ParallelBuild {
  import opened TopK
  import opened Graph
  import opened Heuristic
  import opened LayerSearch
  import opened Completeness
  import opened Descent
  import opened Build
  import opened BuildInvariant
  import opened Locking

  /** What is fixed before the workers start: the vectors, the parameters and
  every node's level. */
  datatype Plan = Plan(ds: Dataset, par: Params, levels: seq<nat>) {
    ghost predicate Valid() {
      ds.Valid() && par.Valid() && |levels| == ds.Len() && 1 <= ds.Len()
    }

    /** Distances from node id, the insertion's search width, and id left out. */
    ghost function Q(id: nat): (q: Query)
      requires Valid() && id < ds.Len()
      ensures |q.dist| == ds.Len() && 1 <= q.ef && q.skip == id
    {
      Query(ds.From(ds.vecs[id]), Width(par.efConstruct, ds.Len()), id)
    }
  }

  /** Where one worker stands with the node it is inserting. */
  datatype Worker =
    | Idle
    | Claimed(id: nat)                                      // received, not yet published
    | Reading(id: nat)                                      // published, about to read the top
    | Walking(id: nat, lc: nat, best: nat)                  // greedy walk above the node's level
    | Searching(id: nat, lc: nat, ep: nat, s: State)        // layer search under way
    | Chosen(id: nat, lc: nat, found: seq<Result>)          // about to set the node's own list
    | Linking(id: nat, lc: nat, keep: seq<nat>, i: nat, ep: nat) // about to link back to keep[i]
    | Raising(id: nat)                                      // about to raise the top

  /** The shared index, the number of nodes received so far, and two histories:
  node a has set its own list on the layers from floor[a] up to below ceil[a]. */
  datatype Shared = Shared(links: Links, entry: nat, maxLevel: nat, next: nat, floor: seq<nat>, ceil: seq<nat>)

  datatype System = System(sh: Shared, workers: seq<Worker>)

  // ---------- The invariant ----------

  /** Every list within its cap, and no node in its own list. */
  ghost predicate Capped(par: Params, links: Links) {
    forall a: nat, lc: nat :: Occupies(links, a, lc) ==> |links[a][lc]| <= par.CapAt(lc) && a !in links[a][lc]
  }

  /** A node has either none of its levels or all of them; unclaimed, none. */
  ghost predicate OnLevels(plan: Plan, sh: Shared) {
    && |sh.links| == |sh.floor| == |sh.ceil| == |plan.levels|
    && 1 <= sh.next <= |plan.levels|
    && (forall a :: 0 <= a < |sh.links| ==> |sh.links[a]| == 0 || |sh.links[a]| == plan.levels[a] + 1)
    && (forall a :: sh.next <= a < |sh.links| ==> |sh.links[a]| == 0 && sh.floor[a] == sh.ceil[a])
    && |sh.links[0]| > 0
  }

  /** The lists a node has set are not empty. */
  ghost predicate Anchored(sh: Shared) {
    && |sh.links| == |sh.floor| == |sh.ceil|
    && forall a: nat, lc: nat :: Occupies(sh.links, a, lc) && sh.floor[a] <= lc < sh.ceil[a] ==> sh.links[a][lc] != []
  }

  ghost predicate SharedOk(plan: Plan, sh: Shared) {
    && plan.Valid()
    && Buildable(plan.ds, plan.par, sh.links)
    && Capped(plan.par, sh.links)
    && OnLevels(plan, sh)
    && Anchored(sh)
    && Occupies(sh.links, sh.entry, sh.maxLevel) && |sh.links[sh.entry]| == sh.maxLevel + 1
  }

  /** What holds of a worker: every ID it carries is published and occupies the
  layer it is used at, and none of them but the first is its own node. */
  ghost predicate WorkerOk(plan: Plan, sh: Shared, w: Worker)
    requires plan.Valid() && OnLevels(plan, sh)
  {
    match w
    case Idle => true
    case Claimed(id) => id < sh.next && |sh.links[id]| == 0 && sh.floor[id] == sh.ceil[id]
    case Reading(id) => id < sh.next && |sh.links[id]| > 0 && sh.floor[id] == sh.ceil[id]
    case Walking(id, lc, best) =>
      && id < sh.next && |sh.links[id]| > 0 && plan.levels[id] < lc && Occupies(sh.links, best, lc)
      && sh.floor[id] == sh.ceil[id] == plan.levels[id] + 1
    case Searching(id, lc, ep, s) =>
      && id < sh.next && Occupies(sh.links, id, lc)
      && Occupies(sh.links, ep, lc) && ep != id
      && WellFormed(s, plan.Q(id)) && s.seen <= Occupants(sh.links, lc) && s.res != []
      && sh.floor[id] == lc + 1 <= sh.ceil[id]
    case Chosen(id, lc, found) =>
      && id < sh.next && Occupies(sh.links, id, lc)
      && found != [] && NoRepeats(Ids(found)) && id !in Ids(found)
      && ListWithin(sh.links, Ids(found), lc)
      && sh.floor[id] == lc + 1 <= sh.ceil[id]
    case Linking(id, lc, keep, i, ep) =>
      && id < sh.next && Occupies(sh.links, id, lc)
      && i <= |keep| && id !in keep && ListWithin(sh.links, keep, lc)
      && Occupies(sh.links, ep, lc) && ep != id
      && sh.floor[id] == lc < sh.ceil[id]
    case Raising(id) =>
      id < sh.next && |sh.links[id]| > 0 && sh.floor[id] == 0 < sh.ceil[id]
  }

  /** A node nobody is inserting any more: it keeps a list on the bottom layer
  and the top is at least as high as it is. */
  ghost predicate FinishedOk(plan: Plan, sh: Shared, a: nat)
    requires OnLevels(plan, sh) && a < sh.next
  {
    && |sh.links[a]| > 0 && plan.levels[a] <= sh.maxLevel
    && (a > 0 ==> sh.floor[a] == 0 < sh.ceil[a])
  }

  ghost predicate Busy(workers: seq<Worker>, a: nat) {
    exists w :: 0 <= w < |workers| && !workers[w].Idle? && workers[w].id == a
  }

  ghost predicate Distinct(workers: seq<Worker>) {
    forall v, w :: 0 <= v < w < |workers| && !workers[v].Idle? && !workers[w].Idle? ==> workers[v].id != workers[w].id
  }

  ghost predicate Inv(plan: Plan, st: System) {
    && SharedOk(plan, st.sh)
    && (forall w :: 0 <= w < |st.workers| ==> WorkerOk(plan, st.sh, st.workers[w]))
    && Distinct(st.workers)
    && (forall a :: 0 <= a < st.sh.next ==> Busy(st.workers, a) || FinishedOk(plan, st.sh, a))
    && (forall w :: 0 <= w < |st.workers| && !st.workers[w].Idle? ==>
      st.workers[w].id != st.sh.entry && st.workers[w].id != 0)
  }

  // ---------- One step ----------

  datatype Move = Move(sh: Shared, w: Worker)

  /** The search a worker starts on layer lc. */
  ghost function StartOn(plan: Plan, id: nat, lc: nat, ep: nat): (w: Worker)
    requires plan.Valid() && id < plan.ds.Len() && ep < plan.ds.Len()
  {
    Searching(id, lc, ep, Start(plan.Q(id), ep))
  }

  /** After layer lc: the next one down, or the top. */
  ghost function NextLayer(plan: Plan, id: nat, lc: nat, ep: nat): (w: Worker)
    requires plan.Valid() && id < plan.ds.Len() && ep < plan.ds.Len()
  {
    if lc == 0 then Raising(id) else StartOn(plan, id, lc - 1, ep)
  }

  /** What `setOwn` writes. */
  ghost function OwnList(plan: Plan, sh: Shared, w: Worker): (r: seq<nat>)
    requires SharedOk(plan, sh) && WorkerOk(plan, sh, w) && w.Chosen?
  {
    FoundBelow(plan, sh, w.lc, w.found);
    ListsBelow(sh.links, w.id, w.lc);
    var own := Keep(plan.ds, plan.par, w.found);
    OwnBelow(plan, w.found, own);
    LockedOwn(plan.ds, plan.par, w.id, w.lc, sh.links[w.id][w.lc], own)
  }

  /** What one worker's next step does to the shared state and to itself. */
  ghost function Act(plan: Plan, sh: Shared, w: Worker): (m: Move)
    requires SharedOk(plan, sh) && WorkerOk(plan, sh, w)
  {
    match w
    case Idle =>
      if sh.next < |plan.levels| then Move(sh.(next := sh.next + 1), Claimed(sh.next)) else Move(sh, Idle)
    case Claimed(id) =>
      Move(sh.(links := Publish(sh.links, id, plan.levels[id])), Reading(id))
    case Reading(id) =>
      if sh.maxLevel > plan.levels[id]
      then Move(Enter(sh, id, plan.levels[id]), Walking(id, sh.maxLevel, sh.entry))
      else Move(Enter(sh, id, sh.maxLevel), StartOn(plan, id, sh.maxLevel, sh.entry))
    case Walking(id, lc, best) =>
      ListsBelow(sh.links, best, lc);
      var nearer := ScanBest(plan.Q(id).dist, sh.links[best][lc], 0, best);
      Move(sh,
           if nearer != best then Walking(id, lc, nearer)
           else if lc - 1 > plan.levels[id] then Walking(id, lc - 1, best)
           else StartOn(plan, id, lc - 1, best))
    case Searching(id, lc, ep, s) =>
      // The source skips the layer when nothing was found; `WorkerOk` says that
      // cannot happen, because the entry point is never the node itself.
      if Done(s, plan.Q(id)) then Move(sh, Chosen(id, lc, s.res)) else
        CandidateOccupies(plan, sh, id, lc, s);
        Move(sh, Searching(id, lc, ep, Expand(s, plan.Q(id), sh.links[s.cand[0].id][lc])))
    case Chosen(id, lc, found) =>
      FoundBelow(plan, sh, lc, found);
      Move(sh.(links := SetList(sh.links, id, lc, OwnList(plan, sh, w)), floor := sh.floor[id := lc]),
           Linking(id, lc, Keep(plan.ds, plan.par, found), 0, found[0].id))
    case Linking(id, lc, keep, i, ep) =>
      if i == |keep| then Move(sh, NextLayer(plan, id, lc, ep))
      else Move(sh.(links := LinkStep(plan.ds, plan.par, sh.links, keep[i], id, lc)),
                Linking(id, lc, keep, i + 1, ep))
    case Raising(id) =>
      Move(if plan.levels[id] > sh.maxLevel then sh.(entry := id, maxLevel := plan.levels[id]) else sh, Idle)
  }

  /** The histories of a node that will link from layer start down. */
  ghost function Enter(sh: Shared, id: nat, start: nat): (r: Shared)
    requires id < |sh.floor| == |sh.ceil|
  {
    sh.(floor := sh.floor[id := start + 1], ceil := sh.ceil[id := start + 1])
  }

  lemma CandidateOccupies(plan: Plan, sh: Shared, id: nat, lc: nat, s: State)
    requires SharedOk(plan, sh) && id < plan.ds.Len()
    requires WellFormed(s, plan.Q(id)) && s.seen <= Occupants(sh.links, lc) && s.cand != []
    ensures Occupies(sh.links, s.cand[0].id, lc)
    ensures AllBelow(sh.links[s.cand[0].id][lc], plan.ds.Len())
    ensures ListWithin(sh.links, sh.links[s.cand[0].id][lc], lc)
  {
    assert s.cand[0].id in Occupants(sh.links, lc);
    ListsBelow(sh.links, s.cand[0].id, lc);
  }

  lemma FoundBelow(plan: Plan, sh: Shared, lc: nat, found: seq<Result>)
    requires SharedOk(plan, sh) && ListWithin(sh.links, Ids(found), lc)
    ensures IdsWithin(plan.ds, found)
    ensures forall i :: 0 <= i < |found| ==> Occupies(sh.links, found[i].id, lc)
  {
    forall i | 0 <= i < |found| ensures Occupies(sh.links, found[i].id, lc) {
      assert Occupies(sh.links, Ids(found)[i], lc);
    }
  }

  lemma OwnBelow(plan: Plan, found: seq<Result>, own: seq<nat>)
    requires IdsWithin(plan.ds, found) && forall x :: x in own ==> x in Ids(found)
    ensures AllBelow(own, plan.ds.Len())
  {
    forall j | 0 <= j < |own| ensures own[j] < plan.ds.Len() {
      assert own[j] in Ids(found);
    }
  }

  // ---------- What a step leaves to the others ----------

  /** Nothing another worker relies on is taken away by a step for node id. */
  ghost predicate Grows(sh: Shared, r: Shared, id: nat) {
    && |r.links| == |sh.links| && |r.floor| == |sh.floor| && |r.ceil| == |sh.ceil|
    && sh.next <= r.next && sh.maxLevel <= r.maxLevel
    && (forall a :: 0 <= a < |sh.links| && |sh.links[a]| > 0 ==> |r.links[a]| == |sh.links[a]|)
    && (forall a :: 0 <= a < |sh.links| && a != id ==> |r.links[a]| == |sh.links[a]|)
    && (forall a :: 0 <= a < |sh.floor| && a != id ==> r.floor[a] == sh.floor[a])
    && (forall a :: 0 <= a < |sh.ceil| && a != id ==> r.ceil[a] == sh.ceil[a])
  }

  lemma OccupantsGrow(sh: Shared, r: Shared, id: nat, lc: nat)
    requires Grows(sh, r, id)
    ensures Occupants(sh.links, lc) <= Occupants(r.links, lc)
    ensures forall a: nat :: Occupies(sh.links, a, lc) ==> Occupies(r.links, a, lc)
  {}

  lemma ListStaysWithin(sh: Shared, r: Shared, id: nat, lc: nat, nbs: seq<nat>)
    requires Grows(sh, r, id) && ListWithin(sh.links, nbs, lc)
    ensures ListWithin(r.links, nbs, lc)
  {
    OccupantsGrow(sh, r, id, lc);
  }

  lemma OtherStaysOk(plan: Plan, sh: Shared, r: Shared, id: nat, v: Worker)
    requires plan.Valid() && OnLevels(plan, sh) && OnLevels(plan, r) && Grows(sh, r, id)
    requires WorkerOk(plan, sh, v) && (v.Idle? || v.id != id)
    ensures WorkerOk(plan, r, v)
  {
    if !v.Idle? && !v.Claimed? && !v.Reading? && !v.Raising? {
      OccupantsGrow(sh, r, id, v.lc);
      if v.Chosen? { ListStaysWithin(sh, r, id, v.lc, Ids(v.found)); }
      if v.Linking? { ListStaysWithin(sh, r, id, v.lc, v.keep); }
    }
  }

  /** What every step of a busy worker guarantees about shared state and itself. */
  ghost predicate GoodMove(plan: Plan, sh: Shared, id: nat, m: Move) {
    SharedOk(plan, m.sh) && WorkerOk(plan, m.sh, m.w) && Grows(sh, m.sh, id) && (m.w.Idle? || m.w.id == id)
  }

  lemma StartOnOk(plan: Plan, sh: Shared, id: nat, lc: nat, ep: nat)
    requires SharedOk(plan, sh) && id < sh.next
    requires Occupies(sh.links, id, lc) && Occupies(sh.links, ep, lc) && ep != id
    requires sh.floor[id] == lc + 1 <= sh.ceil[id]
    ensures WorkerOk(plan, sh, StartOn(plan, id, lc, ep))
  {
    StartWellFormed(plan.Q(id), ep);
  }

  lemma PublishMove(plan: Plan, sh: Shared, w: Worker)
    requires SharedOk(plan, sh) && WorkerOk(plan, sh, w) && w.Claimed?
    ensures GoodMove(plan, sh, w.id, Act(plan, sh, w))
  {
    var id := w.id;
    PublishKeepsWellLinked(sh.links, id, plan.levels[id]);
    var r := Publish(sh.links, id, plan.levels[id]);
    forall a: nat, lc: nat | Occupies(r, a, lc)
      ensures |r[a][lc]| <= plan.par.CapAt(lc) && a !in r[a][lc]
      ensures sh.floor[a] <= lc < sh.ceil[a] && a != id ==> r[a][lc] != []
    {
      if a != id { assert Occupies(sh.links, a, lc); }
    }
  }

  lemma ReadMove(plan: Plan, sh: Shared, w: Worker)
    requires SharedOk(plan, sh) && WorkerOk(plan, sh, w) && w.Reading? && w.id != sh.entry
    ensures GoodMove(plan, sh, w.id, Act(plan, sh, w))
  {
    var id := w.id;
    var start := if sh.maxLevel > plan.levels[id] then plan.levels[id] else sh.maxLevel;
    var r := Enter(sh, id, start);
    forall a: nat, lc: nat | Occupies(r.links, a, lc) && r.floor[a] <= lc < r.ceil[a] ensures r.links[a][lc] != [] {
      assert a != id;
    }
    if sh.maxLevel <= plan.levels[id] { StartOnOk(plan, r, id, sh.maxLevel, sh.entry); }
  }

  lemma WalkMove(plan: Plan, sh: Shared, w: Worker)
    requires SharedOk(plan, sh) && WorkerOk(plan, sh, w) && w.Walking?
    ensures GoodMove(plan, sh, w.id, Act(plan, sh, w))
  {
    var id, lc, best := w.id, w.lc, w.best;
    ListsBelow(sh.links, best, lc);
    assert ListWithin(sh.links, sh.links[best][lc], lc);
    var nearer := ScanBest(plan.Q(id).dist, sh.links[best][lc], 0, best);
    if nearer != best {
      var j :| 0 <= j < |sh.links[best][lc]| && sh.links[best][lc][j] == nearer;
      assert Occupies(sh.links, nearer, lc);
    } else if lc - 1 == plan.levels[id] {
      assert best != id;
      StartOnOk(plan, sh, id, lc - 1, best);
    }
  }

  lemma SearchMove(plan: Plan, sh: Shared, w: Worker)
    requires SharedOk(plan, sh) && WorkerOk(plan, sh, w) && w.Searching?
    ensures GoodMove(plan, sh, w.id, Act(plan, sh, w))
  {
    var id, lc, s := w.id, w.lc, w.s;
    if Done(s, plan.Q(id)) {
      ResultsWithin(plan, sh, id, lc, s);
    } else {
      CandidateOccupies(plan, sh, id, lc, s);
      ExpandStaysOk(plan, sh, id, lc, s);
    }
  }

  lemma ResultsWithin(plan: Plan, sh: Shared, id: nat, lc: nat, s: State)
    requires SharedOk(plan, sh) && id < plan.ds.Len()
    requires WellFormed(s, plan.Q(id)) && s.seen <= Occupants(sh.links, lc)
    ensures NoRepeats(Ids(s.res)) && id !in Ids(s.res) && ListWithin(sh.links, Ids(s.res), lc)
  {
    forall j | 0 <= j < |s.res| ensures Occupies(sh.links, Ids(s.res)[j], lc) && Ids(s.res)[j] != id {
      assert s.res[j].id in s.seen;
      assert s.res[j].id in Occupants(sh.links, lc);
    }
  }

  lemma ExpandStaysOk(plan: Plan, sh: Shared, id: nat, lc: nat, s: State)
    requires SharedOk(plan, sh) && id < plan.ds.Len() && s.cand != [] && s.res != []
    requires WellFormed(s, plan.Q(id)) && s.seen <= Occupants(sh.links, lc)
    requires Occupies(sh.links, s.cand[0].id, lc)
    requires AllBelow(sh.links[s.cand[0].id][lc], plan.ds.Len())
    ensures var t := Expand(s, plan.Q(id), sh.links[s.cand[0].id][lc]);
      WellFormed(t, plan.Q(id)) && t.seen <= Occupants(sh.links, lc) && t.res != []
  {
    var q, nbs := plan.Q(id), sh.links[s.cand[0].id][lc];
    CandidateOccupies(plan, sh, id, lc, s);
    ExpandKeepsWellFormed(s, q, nbs);
    forall j | 0 <= j < |nbs| ensures nbs[j] in Occupants(sh.links, lc) {
      assert Occupies(sh.links, nbs[j], lc);
    }
    var p := s.(cand := s.cand[1..]);
    VisitFromStaysInside(p, q, nbs, 0, Occupants(sh.links, lc));
    PopKeepsWellFormed(s, q);
    VisitFromKeepsHead(p, q, nbs, 0, s.res[0]);
  }

  /** Setting one list on a layer, the general case of both locked updates. */
  lemma SetListMove(plan: Plan, sh: Shared, a: nat, lc: nat, nbs: seq<nat>, r: Shared)
    requires SharedOk(plan, sh) && Occupies(sh.links, a, lc)
    requires ListWithin(sh.links, nbs, lc) && |nbs| <= plan.par.CapAt(lc) && a !in nbs && nbs != []
    requires r == sh.(links := SetList(sh.links, a, lc, nbs))
    ensures SharedOk(plan, r) && SameShape(sh.links, r.links)
  {
    SetListKeepsWellLinked(sh.links, a, lc, nbs);
    forall b: nat, l: nat | Occupies(r.links, b, l)
      ensures |r.links[b][l]| <= plan.par.CapAt(l) && b !in r.links[b][l]
      ensures r.floor[b] <= l < r.ceil[b] ==> r.links[b][l] != []
    {
      assert Occupies(sh.links, b, l);
    }
  }

  lemma LowerFloor(plan: Plan, sh: Shared, id: nat, lc: nat)
    requires SharedOk(plan, sh) && Occupies(sh.links, id, lc) && sh.links[id][lc] != [] && sh.floor[id] == lc + 1
    requires id < sh.next
    ensures SharedOk(plan, sh.(floor := sh.floor[id := lc]))
  {
    var r := sh.(floor := sh.floor[id := lc]);
    forall b: nat, l: nat | Occupies(r.links, b, l) && r.floor[b] <= l < r.ceil[b] ensures r.links[b][l] != [] {
      assert Occupies(sh.links, b, l);
      if b == id && l == lc {
      } else {
        assert sh.floor[b] <= l < sh.ceil[b];
      }
    }
  }

  lemma OwnListFacts(plan: Plan, sh: Shared, w: Worker)
    requires SharedOk(plan, sh) && WorkerOk(plan, sh, w) && w.Chosen?
    ensures IdsWithin(plan.ds, w.found)
    ensures var r, own := OwnList(plan, sh, w), Keep(plan.ds, plan.par, w.found);
      && ListWithin(sh.links, r, w.lc) && |r| <= plan.par.CapAt(w.lc) && w.id !in r && r != []
      && ListWithin(sh.links, own, w.lc) && w.id !in own
  {
    var id, lc, found := w.id, w.lc, w.found;
    FoundBelow(plan, sh, lc, found);
    ListsBelow(sh.links, id, lc);
    var own := Keep(plan.ds, plan.par, found);
    OwnBelow(plan, found, own);
    KeepFacts(plan.ds, plan.par, found, id);
    KeepWithin(sh.links, found, own, lc);
    var existing := sh.links[id][lc];
    LockedOwnFacts(plan.ds, plan.par, id, lc, existing, own);
    var r := OwnList(plan, sh, w);
    assert ListWithin(sh.links, existing, lc);
    forall j | 0 <= j < |r| ensures Occupies(sh.links, r[j], lc) {
      assert r[j] in r;
    }
  }

  lemma OwnShared(plan: Plan, sh: Shared, w: Worker, r: Shared)
    requires SharedOk(plan, sh) && WorkerOk(plan, sh, w) && w.Chosen?
    requires r == sh.(links := SetList(sh.links, w.id, w.lc, OwnList(plan, sh, w)), floor := sh.floor[w.id := w.lc])
    ensures SharedOk(plan, r) && Grows(sh, r, w.id)
  {
    hide OwnList, Keep;
    OwnListFacts(plan, sh, w);
    var mid := sh.(links := SetList(sh.links, w.id, w.lc, OwnList(plan, sh, w)));
    SetListMove(plan, sh, w.id, w.lc, OwnList(plan, sh, w), mid);
    LowerFloor(plan, mid, w.id, w.lc);
  }

  lemma OwnWorker(plan: Plan, sh: Shared, w: Worker, r: Shared)
    requires SharedOk(plan, sh) && WorkerOk(plan, sh, w) && w.Chosen?
    requires SharedOk(plan, r) && Grows(sh, r, w.id) && r.floor == sh.floor[w.id := w.lc] && r.ceil == sh.ceil
    ensures IdsWithin(plan.ds, w.found)
    ensures WorkerOk(plan, r, Linking(w.id, w.lc, Keep(plan.ds, plan.par, w.found), 0, w.found[0].id))
  {
    hide OwnList, Keep;
    OwnListFacts(plan, sh, w);
    ListStaysWithin(sh, r, w.id, w.lc, Keep(plan.ds, plan.par, w.found));
    assert Ids(w.found)[0] == w.found[0].id;
    OccupantsGrow(sh, r, w.id, w.lc);
  }

  lemma OwnMove(plan: Plan, sh: Shared, w: Worker)
    requires SharedOk(plan, sh) && WorkerOk(plan, sh, w) && w.Chosen?
    ensures GoodMove(plan, sh, w.id, Act(plan, sh, w))
  {
    hide OwnList, Keep, SharedOk, WorkerOk, Grows;
    var m := Act(plan, sh, w);
    OwnShared(plan, sh, w, m.sh);
    OwnWorker(plan, sh, w, m.sh);
  }

  /** The list that `link` leaves may stand in the shared index. */
  lemma LinkedFits(plan: Plan, sh: Shared, other: nat, id: nat, lc: nat)
    requires SharedOk(plan, sh) && Occupies(sh.links, other, lc) && Occupies(sh.links, id, lc) && other != id
    ensures var r := sh.(links := LinkStep(plan.ds, plan.par, sh.links, other, id, lc));
      SharedOk(plan, r) && SameShape(sh.links, r.links)
  {
    hide Linked;
    ListsBelow(sh.links, other, lc);
    var nbs := Linked(plan.ds, plan.par, other, lc, sh.links[other][lc], id);
    LinkedFacts(plan.ds, plan.par, other, lc, sh.links[other][lc], id);
    assert ListWithin(sh.links, sh.links[other][lc], lc);
    forall j | 0 <= j < |nbs| ensures Occupies(sh.links, nbs[j], lc) {
      assert nbs[j] in nbs;
    }
    SetListMove(plan, sh, other, lc, nbs, sh.(links := SetList(sh.links, other, lc, nbs)));
  }

  lemma LinkMove(plan: Plan, sh: Shared, w: Worker)
    requires SharedOk(plan, sh) && WorkerOk(plan, sh, w) && w.Linking?
    ensures GoodMove(plan, sh, w.id, Act(plan, sh, w))
  {
    hide LinkStep, Capped, Anchored, Buildable;
    var id, lc := w.id, w.lc;
    if w.i == |w.keep| {
      if lc > 0 { StartOnOk(plan, sh, id, lc - 1, w.ep); }
    } else {
      var other := w.keep[w.i];
      assert Occupies(sh.links, other, lc);
      assert other in w.keep;
      LinkedFits(plan, sh, other, id, lc);
      var r := sh.(links := LinkStep(plan.ds, plan.par, sh.links, other, id, lc));
      ListStaysWithin(sh, r, id, lc, w.keep);
    }
  }

  lemma RaiseMove(plan: Plan, sh: Shared, w: Worker)
    requires SharedOk(plan, sh) && WorkerOk(plan, sh, w) && w.Raising?
    ensures GoodMove(plan, sh, w.id, Act(plan, sh, w))
    ensures FinishedOk(plan, Act(plan, sh, w).sh, w.id)
  {}

  lemma ClaimMove(plan: Plan, sh: Shared)
    requires SharedOk(plan, sh)
    ensures GoodMove(plan, sh, sh.next, Act(plan, sh, Idle))
  {}

  // ---------- The whole system ----------

  /** The node a worker's next step is about. */
  ghost function Subject(sh: Shared, w: Worker): (id: nat) {
    if w.Idle? then sh.next else w.id
  }

  lemma MoveIsGood(plan: Plan, sh: Shared, w: Worker)
    requires SharedOk(plan, sh) && WorkerOk(plan, sh, w) && (!w.Idle? ==> w.id != sh.entry)
    ensures GoodMove(plan, sh, Subject(sh, w), Act(plan, sh, w))
    ensures w.Raising? ==> FinishedOk(plan, Act(plan, sh, w).sh, w.id)
  {
    hide Act, GoodMove, SharedOk, WorkerOk, FinishedOk;
    match w
    case Idle => ClaimMove(plan, sh);
    case Claimed(_) => PublishMove(plan, sh, w);
    case Reading(_) => ReadMove(plan, sh, w);
    case Walking(_, _, _) => WalkMove(plan, sh, w);
    case Searching(_, _, _, _) => SearchMove(plan, sh, w);
    case Chosen(_, _, _) => OwnMove(plan, sh, w);
    case Linking(_, _, _, _, _) => LinkMove(plan, sh, w);
    case Raising(_) => RaiseMove(plan, sh, w);
  }

  /** How the bookkeeping of a worker and the top move along. */
  lemma MoveShape(plan: Plan, sh: Shared, w: Worker)
    requires SharedOk(plan, sh) && WorkerOk(plan, sh, w)
    ensures var m := Act(plan, sh, w);
      && (if w.Idle? then (m.sh.next == sh.next && m.w.Idle?) || (m.sh.next == sh.next + 1 && m.w == Claimed(sh.next))
          else m.sh.next == sh.next && (m.w.Idle? <==> w.Raising?) && (!m.w.Idle? ==> m.w.id == w.id))
      && (m.sh.entry == sh.entry || (w.Raising? && m.sh.entry == w.id))
  {
    hide OwnList, Keep, LinkStep, Publish, SharedOk;
  }

  lemma FinishedStays(plan: Plan, sh: Shared, r: Shared, id: nat, a: nat)
    requires OnLevels(plan, sh) && OnLevels(plan, r) && Grows(sh, r, id) && a < sh.next
    requires FinishedOk(plan, sh, a) && a != id
    ensures FinishedOk(plan, r, a)
  {}

  ghost function Step(plan: Plan, st: System, w: nat): (r: System)
    requires Inv(plan, st) && w < |st.workers|
  {
    var m := Act(plan, st.sh, st.workers[w]);
    System(m.sh, st.workers[w := m.w])
  }

  lemma StepKeepsWorkers(plan: Plan, st: System, w: nat)
    requires Inv(plan, st) && w < |st.workers|
    ensures SharedOk(plan, Step(plan, st, w).sh)
    ensures forall v :: 0 <= v < |st.workers| ==> WorkerOk(plan, Step(plan, st, w).sh, Step(plan, st, w).workers[v])
  {
    var me, r := st.workers[w], Step(plan, st, w);
    MoveIsGood(plan, st.sh, me);
    forall v | 0 <= v < |st.workers| ensures WorkerOk(plan, r.sh, r.workers[v]) {
      if v != w {
        hide Act, WorkerOk;
        var other := st.workers[v];
        assert WorkerOk(plan, st.sh, other);
        OtherIsElsewhere(plan, st, w, v);
        OtherStaysOk(plan, st.sh, r.sh, Subject(st.sh, me), other);
      }
    }
  }

  lemma OtherIsElsewhere(plan: Plan, st: System, w: nat, v: nat)
    requires Inv(plan, st) && w < |st.workers| && v < |st.workers| && v != w
    ensures st.workers[v].Idle? || st.workers[v].id != Subject(st.sh, st.workers[w])
  {
    assert WorkerOk(plan, st.sh, st.workers[v]);
  }

  lemma StepKeepsDistinct(plan: Plan, st: System, w: nat)
    requires Inv(plan, st) && w < |st.workers|
    ensures Distinct(Step(plan, st, w).workers)
  {
    var r := Step(plan, st, w);
    MoveShape(plan, st.sh, st.workers[w]);
    forall u, v | 0 <= u < v < |r.workers| && !r.workers[u].Idle? && !r.workers[v].Idle?
      ensures r.workers[u].id != r.workers[v].id
    {
      hide Act;
      if u == w { OtherIsElsewhere(plan, st, w, v); }
      if v == w { OtherIsElsewhere(plan, st, w, u); }
    }
  }

  lemma StepKeepsEntry(plan: Plan, st: System, w: nat)
    requires Inv(plan, st) && w < |st.workers|
    ensures var r := Step(plan, st, w);
      forall v :: 0 <= v < |r.workers| && !r.workers[v].Idle? ==> r.workers[v].id != r.sh.entry && r.workers[v].id != 0
  {
    var r := Step(plan, st, w);
    MoveShape(plan, st.sh, st.workers[w]);
    forall v | 0 <= v < |r.workers| && !r.workers[v].Idle?
      ensures r.workers[v].id != r.sh.entry && r.workers[v].id != 0
    {
      hide Act;
      if v != w { OtherIsElsewhere(plan, st, w, v); }
    }
  }

  lemma BusyStays(plan: Plan, st: System, w: nat, a: nat)
    requires Inv(plan, st) && w < |st.workers| && a < st.sh.next && Busy(st.workers, a)
    ensures Busy(Step(plan, st, w).workers, a) || (st.workers[w].Raising? && st.workers[w].id == a)
  {
    var r := Step(plan, st, w);
    MoveShape(plan, st.sh, st.workers[w]);
    hide Act;
    var v :| 0 <= v < |st.workers| && !st.workers[v].Idle? && st.workers[v].id == a;
    assert v != w ==> r.workers[v] == st.workers[v];
    if v == w && !st.workers[w].Raising? {
      assert !r.workers[w].Idle? && r.workers[w].id == a;
    }
  }

  lemma StepKeepsFinished(plan: Plan, st: System, w: nat, a: nat)
    requires Inv(plan, st) && w < |st.workers| && a < Step(plan, st, w).sh.next
    requires SharedOk(plan, Step(plan, st, w).sh)
    ensures Busy(Step(plan, st, w).workers, a) || FinishedOk(plan, Step(plan, st, w).sh, a)
  {
    var r, me := Step(plan, st, w), st.workers[w];
    MoveIsGood(plan, st.sh, me);
    MoveShape(plan, st.sh, me);
    hide Act;
    if a == st.sh.next {
      assert r.workers[w] == Claimed(a);
    } else if Busy(st.workers, a) {
      BusyStays(plan, st, w, a);
    } else {
      assert FinishedOk(plan, st.sh, a);
      FinishedStays(plan, st.sh, r.sh, Subject(st.sh, me), a);
    }
  }

  /** Whoever moves next, every step keeps the invariant. */
  lemma StepKeepsInv(plan: Plan, st: System, w: nat)
    requires Inv(plan, st) && w < |st.workers|
    ensures Inv(plan, Step(plan, st, w))
  {
    StepKeepsWorkers(plan, st, w);
    StepKeepsDistinct(plan, st, w);
    StepKeepsEntry(plan, st, w);
    var r := Step(plan, st, w);
    forall a | 0 <= a < r.sh.next ensures Busy(r.workers, a) || FinishedOk(plan, r.sh, a) {
      StepKeepsFinished(plan, st, w, a);
    }
    hide Step, SharedOk, WorkerOk, Distinct, FinishedOk, Busy;
  }

  // ---------- Every interleaving ----------

  /** The state after the workers have taken turns as scheduled. */
  ghost function Exec(plan: Plan, st: System, sched: seq<nat>): (r: System)
    requires Inv(plan, st) && forall i :: 0 <= i < |sched| ==> sched[i] < |st.workers|
    ensures Inv(plan, r) && |r.workers| == |st.workers|
  {
    if sched == [] then st else
      var before := Exec(plan, st, sched[..|sched| - 1]);
      StepKeepsInv(plan, before, sched[|sched| - 1]);
      Step(plan, before, sched[|sched| - 1])
  }

  /** Node 0 in place, everyone idle. */
  ghost function Init(plan: Plan, workers: nat): (st: System)
    requires plan.Valid()
  {
    var n := plan.ds.Len();
    System(
      Shared(Seeded(plan.ds, plan.par, plan.levels[0]).links, 0, plan.levels[0], 1, seq(n, _ => 0), seq(n, _ => 0)),
      seq(workers, _ => Idle))
  }

  lemma InitInv(plan: Plan, workers: nat)
    requires plan.Valid()
    ensures Inv(plan, Init(plan, workers)) && |Init(plan, workers).workers| == workers
  {
    var st := Init(plan, workers);
    var seeded := Seeded(plan.ds, plan.par, plan.levels[0]);
    assert Sound(seeded);
    forall a: nat, lc: nat | Occupies(st.sh.links, a, lc)
      ensures |st.sh.links[a][lc]| <= plan.par.CapAt(lc) && a !in st.sh.links[a][lc]
    {
      assert st.sh.links[a][lc] == [];
    }
  }

  /** Safety over every interleaving: from the start, however many workers and
  however they are scheduled, `Inv` holds. Every list entry, entry point and
  candidate is published and on its layer, every list is within its cap, no
  node lists itself, and the entry's level is the top. */
  lemma EveryInterleavingIsSafe(plan: Plan, workers: nat, sched: seq<nat>)
    requires plan.Valid() && forall i :: 0 <= i < |sched| ==> sched[i] < workers
    ensures Inv(plan, Init(plan, workers)) && |Init(plan, workers).workers| == workers
    ensures var sh := Exec(plan, Init(plan, workers), sched).sh;
      && WellLinked(sh.links) && Capped(plan.par, sh.links)
      && Occupies(sh.links, sh.entry, sh.maxLevel) && |sh.links[sh.entry]| == sh.maxLevel + 1
  {
    InitInv(plan, workers);
  }

  // ---------- What is never lost ----------

  /** An edge leaves a list only when a locked update finds the list over its
  cap: the owner's own `setOwn` after merging, or a `link` after appending. */
  lemma EdgesLeaveOnlyByPruning(plan: Plan, st: System, w: nat, a: nat, lc: nat, x: nat)
    requires Inv(plan, st) && w < |st.workers|
    requires Occupies(st.sh.links, a, lc) && x in st.sh.links[a][lc]
    requires Occupies(Step(plan, st, w).sh.links, a, lc) ==> x !in Step(plan, st, w).sh.links[a][lc]
    ensures var me := st.workers[w];
      || (me.Chosen? && me.id == a && me.lc == lc && IdsWithin(plan.ds, me.found)
          && |MergeFrom(Keep(plan.ds, plan.par, me.found), st.sh.links[a][lc], 0)| > plan.par.CapAt(lc))
      || (me.Linking? && me.i < |me.keep| && me.keep[me.i] == a && me.lc == lc
          && |st.sh.links[a][lc]| + 1 > plan.par.CapAt(lc))
  {
    var me := st.workers[w];
    assert WorkerOk(plan, st.sh, me);
    if me.Chosen? {
      ChosenKeepsEdges(plan, st.sh, me, a, lc, x);
    } else if me.Linking? && me.i < |me.keep| {
      assert Occupies(st.sh.links, me.keep[me.i], me.lc);
      LinkKeepsEdges(plan, st.sh.links, me.keep[me.i], me.id, me.lc, a, lc, x);
    } else {
      OtherStepsKeepEdges(plan, st.sh, me, a, lc);
    }
  }

  lemma ChosenKeepsEdges(plan: Plan, sh: Shared, w: Worker, a: nat, lc: nat, x: nat)
    requires SharedOk(plan, sh) && WorkerOk(plan, sh, w) && w.Chosen?
    requires Occupies(sh.links, a, lc) && x in sh.links[a][lc]
    ensures IdsWithin(plan.ds, w.found)
    ensures Occupies(Act(plan, sh, w).sh.links, a, lc)
    ensures x in Act(plan, sh, w).sh.links[a][lc]
      || (a == w.id && lc == w.lc
          && |MergeFrom(Keep(plan.ds, plan.par, w.found), sh.links[a][lc], 0)| > plan.par.CapAt(lc))
  {
    hide Keep;
    FoundBelow(plan, sh, w.lc, w.found);
    ListsBelow(sh.links, w.id, w.lc);
    var own := Keep(plan.ds, plan.par, w.found);
    OwnBelow(plan, w.found, own);
    LockedOwnFacts(plan.ds, plan.par, w.id, w.lc, sh.links[w.id][w.lc], own);
  }

  lemma LinkKeepsEdges(plan: Plan, links: Links, other: nat, id: nat, lc: nat, a: nat, l: nat, x: nat)
    requires Buildable(plan.ds, plan.par, links) && Occupies(links, other, lc) && id < |links|
    requires Occupies(links, a, l) && x in links[a][l]
    ensures var r := LinkStep(plan.ds, plan.par, links, other, id, lc);
      Occupies(r, a, l) && (x in r[a][l] || (a == other && l == lc && |links[a][l]| + 1 > plan.par.CapAt(lc)))
  {
    ListsBelow(links, other, lc);
  }

  lemma OtherStepsKeepEdges(plan: Plan, sh: Shared, w: Worker, a: nat, lc: nat)
    requires SharedOk(plan, sh) && WorkerOk(plan, sh, w)
    requires !w.Chosen? && (w.Linking? ==> w.i == |w.keep|)
    requires Occupies(sh.links, a, lc)
    ensures Occupies(Act(plan, sh, w).sh.links, a, lc) && Act(plan, sh, w).sh.links[a][lc] == sh.links[a][lc]
  {
    hide OwnList, Keep, LinkStep;
  }

  // ---------- A finished build ----------

  ghost predicate Finished(plan: Plan, st: System) {
    st.sh.next == |plan.levels| && forall w :: 0 <= w < |st.workers| ==> st.workers[w].Idle?
  }

  ghost function ResultOf(plan: Plan, st: System): (ix: Index) {
    Index(plan.ds, plan.par, st.sh.links, st.sh.entry, st.sh.maxLevel)
  }

  lemma NodeFinished(plan: Plan, st: System, a: nat)
    requires Inv(plan, st) && Finished(plan, st) && a < |st.sh.links|
    ensures |st.sh.links[a]| == plan.levels[a] + 1 <= st.sh.maxLevel + 1
    ensures a > 0 ==> st.sh.floor[a] == 0 < st.sh.ceil[a]
  {
    assert !Busy(st.workers, a);
    assert FinishedOk(plan, st.sh, a);
  }

  lemma FinishedLists(plan: Plan, st: System, a: nat, lc: nat)
    requires Inv(plan, st) && Finished(plan, st) && 0 < a < |st.sh.links|
    requires lc < st.sh.ceil[a] && lc <= plan.levels[a]
    ensures Occupies(st.sh.links, a, lc) && st.sh.links[a][lc] != []
  {
    NodeFinished(plan, st, a);
    assert Occupies(st.sh.links, a, lc);
  }

  /** Whatever the interleaving was, a finished build is a sound index: every
  node is there on all its levels, the entry is of maximal level, and every node
  but the first has kept a neighbour on each layer it linked on, the bottom one
  among them. So every theorem about queries on sound indexes holds of it. */
  lemma FinishedIsSound(plan: Plan, st: System)
    requires Inv(plan, st) && Finished(plan, st)
    ensures Sound(ResultOf(plan, st)) && Capped(plan.par, st.sh.links)
    ensures forall a :: 0 <= a < |st.sh.links| ==> |st.sh.links[a]| == plan.levels[a] + 1
    ensures forall a: nat, lc: nat ::
      0 < a < |st.sh.links| && lc < st.sh.ceil[a] && lc <= plan.levels[a] ==> st.sh.links[a][lc] != []
    ensures forall a: nat :: 0 < a < |st.sh.links| ==> 0 < st.sh.ceil[a] && st.sh.links[a][0] != []
  {
    forall a | 0 <= a < |st.sh.links|
      ensures |st.sh.links[a]| == plan.levels[a] + 1 <= st.sh.maxLevel + 1
      ensures a > 0 ==> 0 < st.sh.ceil[a] && st.sh.links[a][0] != []
    {
      NodeFinished(plan, st, a);
      if a > 0 { FinishedLists(plan, st, a, 0); }
    }
    forall a: nat, lc: nat | 0 < a < |st.sh.links| && lc < st.sh.ceil[a] && lc <= plan.levels[a]
      ensures st.sh.links[a][lc] != []
    {
      FinishedLists(plan, st, a, lc);
    }
  }
}
