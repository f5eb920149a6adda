/** How many walks it takes to cover the bottom layer: `walk` and `Components`
in `internal/index/hnsw.go`. */
module Connectivity {
  import opened Graph
  import opened LayerSearch
  import opened Completeness
  import opened Descent
  import opened Packing

  ghost function MarkedIn(seen: seq<bool>): (s: set<nat>) {
    set v | v in Nodes(|seen|) && seen[v]
  }

  ghost function Reached(adj: seq<seq<nat>>, from: nat): (s: set<nat>) {
    set v | v in Nodes(|adj|) && Reachable(adj, from, v)
  }

  lemma MarkOne(seen: seq<bool>, v: nat)
    requires v < |seen| && !seen[v]
    ensures MarkedIn(seen[v := true]) == MarkedIn(seen) + {v}
    ensures |MarkedIn(seen[v := true])| == |MarkedIn(seen)| + 1
  {
    assert MarkedIn(seen[v := true]) == MarkedIn(seen) + {v};
    assert v !in MarkedIn(seen);
  }

  /** A set closed under the lists holds everything its members lead to. */
  lemma {:induction false} ClosedHoldsPaths(adj: seq<seq<nat>>, c: set<nat>, p: seq<nat>)
    requires ClosedUnder(adj, c) && IsPath(adj, p) && p[0] in c
    ensures p[|p| - 1] in c
  {
    var n := |p| - 1;
    if n > 0 {
      ClosedHoldsPaths(adj, c, p[..n]);
      assert p[(n - 1) + 1] in adj[p[n - 1]];
    }
  }

  lemma ClosedHoldsReached(adj: seq<seq<nat>>, c: set<nat>, from: nat)
    requires ClosedUnder(adj, c) && from in c
    ensures Reached(adj, from) <= c
  {
    forall v | v in Reached(adj, from) ensures v in c {
      var p :| PathBetween(adj, from, v, p);
      ClosedHoldsPaths(adj, c, p);
    }
  }

  /** Everything marked was marked before, waits in the queue, or has had its
  neighbours marked. */
  ghost predicate Waiting(adj: seq<seq<nat>>, seen: set<nat>, before: set<nat>, queue: seq<nat>, but: int) {
    forall v :: v in seen && v < |adj| && v !in before && v !in queue && v != but ==>
      forall x :: x in adj[v] ==> x in seen
  }

  ghost predicate WalkState(
      adj: seq<seq<nat>>, seen: seq<bool>, before: set<nat>, queue: seq<nat>, from: nat, but: int) {
    && |seen| == |adj| && before <= MarkedIn(seen) && from in MarkedIn(seen)
    && MarkedIn(seen) <= before + Reached(adj, from)
    && (forall i :: 0 <= i < |queue| ==> queue[i] in MarkedIn(seen) && queue[i] in Reached(adj, from))
    && Waiting(adj, MarkedIn(seen), before, queue, but)
  }

  lemma VisitNeighbour(
      adj: seq<seq<nat>>, seen: seq<bool>, before: set<nat>, queue: seq<nat>, from: nat, node: nat, nb: nat)
    requires InRange(adj, |adj|) && WalkState(adj, seen, before, queue, from, node)
    requires node < |adj| && node in Reached(adj, from) && nb in adj[node] && nb < |adj| && !seen[nb]
    ensures WalkState(adj, seen[nb := true], before, queue + [nb], from, node)
  {
    MarkOne(seen, nb);
    ReachableStep(adj, from, node, nb);
  }

  lemma WalkDone(adj: seq<seq<nat>>, seen: seq<bool>, before: set<nat>, from: nat)
    requires WalkState(adj, seen, before, [], from, -1) && ClosedUnder(adj, before)
    ensures ClosedUnder(adj, MarkedIn(seen)) && MarkedIn(seen) == before + Reached(adj, from)
  {
    var c := MarkedIn(seen);
    forall v, x | v in c && v < |adj| && x in adj[v] ensures x in c {
      if v !in before { assert x in c; }
    }
    ClosedHoldsReached(adj, c, from);
  }

  lemma NodeDone(adj: seq<seq<nat>>, seen: seq<bool>, before: set<nat>, queue: seq<nat>, from: nat, node: nat)
    requires WalkState(adj, seen, before, queue, from, node)
    requires node < |adj| && forall x :: x in adj[node] ==> x < |seen| && seen[x]
    ensures WalkState(adj, seen, before, queue, from, -1)
  {}

  lemma TakeNode(adj: seq<seq<nat>>, seen: seq<bool>, before: set<nat>, queue: seq<nat>, from: nat)
    requires WalkState(adj, seen, before, queue, from, -1) && queue != []
    ensures queue[0] < |adj| && queue[0] in Reached(adj, from)
    ensures WalkState(adj, seen, before, queue[1..], from, queue[0])
  {
    assert queue == [queue[0]] + queue[1..];
  }

  /** One walk: from a marked set closed under the lists, it marks exactly what
  `from` reaches besides, and counts what it newly marked. */
  method Walk(links: Links, from: nat, seen: array<bool>) returns (count: nat)
    requires WellLinked(links) && HasBottom(links) && seen.Length == |links| && from < |links|
    requires ClosedUnder(Layer(links, 0), MarkedIn(seen[..]))
    modifies seen
    ensures ClosedUnder(Layer(links, 0), MarkedIn(seen[..]))
    ensures MarkedIn(seen[..]) == old(MarkedIn(seen[..])) + Reached(Layer(links, 0), from)
    ensures |MarkedIn(seen[..])| == |old(MarkedIn(seen[..]))| + count
  {
    ghost var adj := Layer(links, 0);
    ghost var before := MarkedIn(seen[..]);
    LayerIsClosed(links, 0);
    if seen[from] {
      ClosedHoldsReached(adj, before, from);
      return 0;
    }
    WalkStarts(adj, seen[..], from);
    seen[from] := true;
    assert seen[..] == old(seen[..])[from := true];
    var queue := [from];
    count := 1;
    hide WalkState, MarkedIn, Reached, Layer;
    while |queue| > 0
      invariant WalkState(adj, seen[..], before, queue, from, -1)
      invariant |MarkedIn(seen[..])| == |before| + count
      decreases |links| - |MarkedIn(seen[..])| + |queue|
    {
      TakeNode(adj, seen[..], before, queue, from);
      var added: nat;
      queue, added := Spread(links[queue[0]][0], seen, queue[1..], adj, before, from, queue[0]);
      count := count + added;
      MarkedBound(seen[..]);
    }
    assert queue == [];
    WalkDone(adj, seen[..], before, from);
  }

  /** The inner loop: the unmarked neighbours of a node are marked and queued. */
  method Spread(nbs: seq<nat>, seen: array<bool>, queue0: seq<nat>,
                ghost adj: seq<seq<nat>>, ghost before: set<nat>, ghost from: nat, ghost node: nat)
    returns (queue: seq<nat>, added: nat)
    requires InRange(adj, |adj|) && node < |adj| && node in Reached(adj, from) && nbs == adj[node]
    requires seen.Length == |adj| && WalkState(adj, seen[..], before, queue0, from, node)
    modifies seen
    ensures WalkState(adj, seen[..], before, queue, from, -1)
    ensures |MarkedIn(seen[..])| == |old(MarkedIn(seen[..]))| + added && |queue| == |queue0| + added
  {
    hide WalkState, MarkedIn, Reached;
    queue, added := queue0, 0;
    var i := 0;
    while i < |nbs|
      invariant i <= |nbs|
      invariant WalkState(adj, seen[..], before, queue, from, node)
      invariant |MarkedIn(seen[..])| == |old(MarkedIn(seen[..]))| + added && |queue| == |queue0| + added
      invariant forall j :: 0 <= j < i ==> nbs[j] < seen.Length && seen[nbs[j]]
    {
      if !seen[nbs[i]] {
        VisitNeighbour(adj, seen[..], before, queue, from, node, nbs[i]);
        MarkOne(seen[..], nbs[i]);
        ghost var was := seen[..];
        seen[nbs[i]] := true;
        assert seen[..] == was[nbs[i] := true];
        queue, added := queue + [nbs[i]], added + 1;
      }
      i := i + 1;
    }
    NodeDone(adj, seen[..], before, queue, from, node);
  }

  lemma WalkStarts(adj: seq<seq<nat>>, seen: seq<bool>, from: nat)
    requires InRange(adj, |adj|) && |seen| == |adj| && from < |adj| && !seen[from]
    ensures WalkState(adj, seen[from := true], MarkedIn(seen), [from], from, -1)
    ensures |MarkedIn(seen[from := true])| == |MarkedIn(seen)| + 1
  {
    MarkOne(seen, from);
    ReachableSelf(adj, from);
  }

  lemma MarkedBound(seen: seq<bool>)
    ensures |MarkedIn(seen)| <= |seen|
  {
    SubsetSize(MarkedIn(seen), Nodes(|seen|));
  }

  // ---------- Counting the walks ----------

  /** Everything reached from one of the starting points. */
  ghost function Cover(adj: seq<seq<nat>>, starts: seq<nat>): (s: set<nat>) {
    if starts == [] then {} else Cover(adj, starts[..|starts| - 1]) + Reached(adj, starts[|starts| - 1])
  }

  ghost function Sum(s: seq<nat>): (t: nat) {
    if s == [] then 0 else Sum(s[..|s| - 1]) + s[|s| - 1]
  }

  /** Each walk starts at a node no earlier walk reached, and its size counts
  what it reaches that no earlier walk did. */
  ghost predicate WalksOf(adj: seq<seq<nat>>, starts: seq<nat>, sizes: seq<nat>) {
    && |starts| == |sizes|
    && forall i :: 0 <= i < |starts| ==> WalkOf(adj, starts[..i], starts[i], sizes[i])
  }

  ghost predicate WalkOf(adj: seq<seq<nat>>, before: seq<nat>, start: nat, size: nat) {
    && start < |adj| && start !in Cover(adj, before)
    && size == |Reached(adj, start) - Cover(adj, before)|
  }

  ghost predicate IsLargest(largest: nat, sizes: seq<nat>) {
    && (forall i :: 0 <= i < |sizes| ==> sizes[i] <= largest)
    && (if sizes == [] then largest == 0 else largest in sizes)
  }

  lemma CoverAppended(adj: seq<seq<nat>>, starts: seq<nat>, from: nat)
    requires from < |adj|
    ensures Cover(adj, starts + [from]) == Cover(adj, starts) + Reached(adj, from)
  {
    hide Reached;
    assert (starts + [from])[..|starts|] == starts;
  }

  lemma SumAppended(sizes: seq<nat>, size: nat)
    ensures Sum(sizes + [size]) == Sum(sizes) + size
  {
    assert (sizes + [size])[..|sizes|] == sizes;
  }

  lemma Gained(c: set<nat>, r: set<nat>)
    ensures |c + r| == |c| + |r - c|
  {
    assert c + r == c + (r - c);
  }

  lemma WalkAppended(adj: seq<seq<nat>>, starts: seq<nat>, sizes: seq<nat>, from: nat, size: nat)
    requires WalksOf(adj, starts, sizes) && from < |adj| && from !in Cover(adj, starts)
    requires |Cover(adj, starts) + Reached(adj, from)| == |Cover(adj, starts)| + size
    ensures WalksOf(adj, starts + [from], sizes + [size])
    ensures Cover(adj, starts + [from]) == Cover(adj, starts) + Reached(adj, from)
    ensures Sum(sizes + [size]) == Sum(sizes) + size
  {
    CoverAppended(adj, starts, from);
    SumAppended(sizes, size);
    hide Reached, Cover, Sum;
    Gained(Cover(adj, starts), Reached(adj, from));
    var s, z := starts + [from], sizes + [size];
    assert WalkOf(adj, starts, from, size);
    hide WalkOf;
    forall i | 0 <= i < |s| ensures WalkOf(adj, s[..i], s[i], z[i]) {
      if i < |starts| {
        assert s[..i] == starts[..i];
      } else {
        assert s[..i] == starts;
      }
    }
  }

  lemma FirstCover(adj: seq<seq<nat>>, starts: seq<nat>)
    requires starts != []
    ensures Cover(adj, starts[..1]) == Reached(adj, starts[0])
  {
    var t := starts[..1];
    assert t[..0] == [];
    assert Cover(adj, t[..0]) == {};
  }

  lemma OneWalkReachesAll(adj: seq<seq<nat>>, starts: seq<nat>, v: nat)
    requires |starts| == 1 && Cover(adj, starts) == Nodes(|adj|) && starts[0] == 0 && v < |adj|
    ensures Reachable(adj, 0, v)
  {
    FirstCover(adj, starts);
    assert starts[..1] == starts;
    assert v in Reached(adj, 0);
  }

  lemma NoSecondWalk(adj: seq<seq<nat>>, starts: seq<nat>, sizes: seq<nat>)
    requires WalksOf(adj, starts, sizes) && starts != [] && starts[0] == 0
    requires forall v: nat :: v < |adj| ==> Reachable(adj, 0, v)
    ensures |starts| == 1
  {
    FirstCover(adj, starts);
    assert Reached(adj, 0) == Nodes(|adj|);
    if |starts| > 1 { SecondStart(adj, starts, sizes); }
  }

  lemma SecondStart(adj: seq<seq<nat>>, starts: seq<nat>, sizes: seq<nat>)
    requires WalksOf(adj, starts, sizes) && |starts| > 1
    ensures exists v: nat :: v < |adj| && !Reachable(adj, starts[0], v)
  {
    FirstCover(adj, starts);
    StartIsFresh(adj, starts, sizes, 1);
    assert !Reachable(adj, starts[0], starts[1]);
  }

  lemma StartIsFresh(adj: seq<seq<nat>>, starts: seq<nat>, sizes: seq<nat>, i: nat)
    requires WalksOf(adj, starts, sizes) && i < |starts|
    ensures starts[i] < |adj| && starts[i] !in Cover(adj, starts[..i])
  {}

  /** Walks that cover everything are one if and only if node 0 reaches all. */
  lemma OneWalk(adj: seq<seq<nat>>, starts: seq<nat>, sizes: seq<nat>)
    requires WalksOf(adj, starts, sizes) && Cover(adj, starts) == Nodes(|adj|)
    requires |adj| > 0 ==> starts != [] && starts[0] == 0
    ensures |starts| == 1 <==> |adj| > 0 && forall v: nat :: v < |adj| ==> Reachable(adj, 0, v)
  {
    if |adj| > 0 && |starts| == 1 {
      forall v: nat | v < |adj| ensures Reachable(adj, 0, v) { OneWalkReachesAll(adj, starts, v); }
    }
    if |adj| > 0 && forall v: nat :: v < |adj| ==> Reachable(adj, 0, v) { NoSecondWalk(adj, starts, sizes); }
    assert |starts| > 0 ==> starts[0] < |adj|;
  }

  /** What the counting loop knows after some walks. */
  ghost predicate Counted(adj: seq<seq<nat>>, seen: seq<bool>, starts: seq<nat>, sizes: seq<nat>, largest: nat) {
    && |seen| == |adj|
    && WalksOf(adj, starts, sizes) && IsLargest(largest, sizes)
    && MarkedIn(seen) == Cover(adj, starts) && ClosedUnder(adj, MarkedIn(seen))
    && |MarkedIn(seen)| == Sum(sizes)
  }

  lemma NothingCounted(adj: seq<seq<nat>>, seen: seq<bool>)
    requires |seen| == |adj| && forall v :: 0 <= v < |seen| ==> !seen[v]
    ensures Counted(adj, seen, [], [], 0)
  {
    assert MarkedIn(seen) == {};
  }

  lemma OneMoreCounted(
      adj: seq<seq<nat>>, before: seq<bool>, after: seq<bool>, starts: seq<nat>, sizes: seq<nat>,
      largest: nat, from: nat, size: nat)
    requires Counted(adj, before, starts, sizes, largest) && |after| == |adj|
    requires from < |adj| && !before[from] && ClosedUnder(adj, MarkedIn(after))
    requires MarkedIn(after) == MarkedIn(before) + Reached(adj, from)
    requires |MarkedIn(after)| == |MarkedIn(before)| + size
    ensures Counted(adj, after, starts + [from], sizes + [size], if size > largest then size else largest)
    ensures after[from] && forall v :: 0 <= v < |adj| && before[v] ==> after[v]
  {
    hide Cover, Sum, Reached, ClosedUnder;
    WalkMarks(adj, before, after, from);
    assert from !in MarkedIn(before);
    WalkAppended(adj, starts, sizes, from, size);
    var z := sizes + [size];
    assert z[|sizes|] == size;
    assert forall x :: x in sizes ==> x in z;
  }

  /** The walks that cover the bottom layer, and the most one of them reached. */
  method Components(links: Links) returns (count: nat, largest: nat, ghost starts: seq<nat>, ghost sizes: seq<nat>)
    requires WellLinked(links) && HasBottom(links)
    ensures count == |starts| && WalksOf(Layer(links, 0), starts, sizes)
    ensures Cover(Layer(links, 0), starts) == Nodes(|links|) && Sum(sizes) == |links|
    ensures IsLargest(largest, sizes)
    ensures count == 1 <==> |links| > 0 && forall v: nat :: v < |links| ==> Reachable(Layer(links, 0), 0, v)
  {
    ghost var adj := Layer(links, 0);
    var seen := NoneSeen(|links|);
    NothingCounted(adj, seen[..]);
    count, largest, starts, sizes := CountAll(links, seen);
  }

  method NoneSeen(n: nat) returns (seen: array<bool>)
    ensures fresh(seen) && seen.Length == n && forall v :: 0 <= v < n ==> !seen[v]
  {
    seen := new bool[n](_ => false);
  }

  /** The loop over the nodes. */
  method CountAll(links: Links, seen: array<bool>)
    returns (count: nat, largest: nat, ghost starts: seq<nat>, ghost sizes: seq<nat>)
    requires WellLinked(links) && HasBottom(links) && seen.Length == |links|
    requires Counted(Layer(links, 0), seen[..], [], [], 0)
    modifies seen
    ensures count == |starts| && WalksOf(Layer(links, 0), starts, sizes)
    ensures Cover(Layer(links, 0), starts) == Nodes(|links|) && Sum(sizes) == |links|
    ensures IsLargest(largest, sizes)
    ensures count == 1 <==> |links| > 0 && forall v: nat :: v < |links| ==> Reachable(Layer(links, 0), 0, v)
  {
    hide *;
    ghost var adj := Layer(links, 0);
    count, largest, starts, sizes := 0, 0, [], [];
    var id := 0;
    while id < |links|
      invariant id <= |links| && count == |starts|
      invariant Counted(adj, seen[..], starts, sizes, largest)
      invariant forall v :: 0 <= v < id ==> seen[v]
      invariant (id > 0 ==> starts != []) && (starts != [] ==> starts[0] == 0)
    {
      if !seen[id] {
        var size := CountFrom(links, id, seen, starts, sizes, largest);
        starts, sizes := starts + [id], sizes + [size];
        count := count + 1;
        if size > largest { largest := size; }
      } else {
        FirstIsSeen(adj, seen[..], starts, sizes, largest, id);
      }
      id := id + 1;
    }
    CountedAll(adj, seen[..], starts, sizes, largest);
  }

  lemma CountedAll(adj: seq<seq<nat>>, seen: seq<bool>, starts: seq<nat>, sizes: seq<nat>, largest: nat)
    requires Counted(adj, seen, starts, sizes, largest) && forall v :: 0 <= v < |adj| ==> seen[v]
    requires |adj| > 0 ==> starts != [] && starts[0] == 0
    ensures WalksOf(adj, starts, sizes) && Cover(adj, starts) == Nodes(|adj|) && Sum(sizes) == |adj|
    ensures IsLargest(largest, sizes)
    ensures |starts| == 1 <==> |adj| > 0 && forall v: nat :: v < |adj| ==> Reachable(adj, 0, v)
  {
    AllMarked(seen);
    OneWalk(adj, starts, sizes);
  }

  /** A walk from a node not seen yet, entered in the count. */
  method CountFrom(
      links: Links, id: nat, seen: array<bool>, ghost starts: seq<nat>, ghost sizes: seq<nat>, ghost largest: nat)
    returns (size: nat)
    requires WellLinked(links) && HasBottom(links) && seen.Length == |links| && id < |links| && !seen[id]
    requires Counted(Layer(links, 0), seen[..], starts, sizes, largest)
    modifies seen
    ensures Counted(Layer(links, 0), seen[..], starts + [id], sizes + [size], if size > largest then size else largest)
    ensures seen[id] && forall v :: 0 <= v < seen.Length && old(seen[v]) ==> seen[v]
  {
    hide *;
    ghost var adj := Layer(links, 0);
    ghost var before := seen[..];
    CountedFacts(adj, before, starts, sizes, largest);
    size := Walk(links, id, seen);
    OneMoreCounted(adj, before, seen[..], starts, sizes, largest, id, size);
  }

  lemma CountedFacts(adj: seq<seq<nat>>, seen: seq<bool>, starts: seq<nat>, sizes: seq<nat>, largest: nat)
    requires Counted(adj, seen, starts, sizes, largest)
    ensures ClosedUnder(adj, MarkedIn(seen)) && |seen| == |adj|
  {}

  lemma FirstIsSeen(adj: seq<seq<nat>>, seen: seq<bool>, starts: seq<nat>, sizes: seq<nat>, largest: nat, id: nat)
    requires Counted(adj, seen, starts, sizes, largest) && id < |seen| && seen[id]
    ensures starts != []
  {
    assert id in MarkedIn(seen);
    assert id in Cover(adj, starts);
  }

  lemma AllMarked(seen: seq<bool>)
    requires forall v :: 0 <= v < |seen| ==> seen[v]
    ensures MarkedIn(seen) == Nodes(|seen|)
  {}

  lemma WalkMarks(adj: seq<seq<nat>>, before: seq<bool>, after: seq<bool>, from: nat)
    requires |before| == |after| == |adj| && from < |adj|
    requires MarkedIn(after) == MarkedIn(before) + Reached(adj, from)
    ensures after[from] && forall v :: 0 <= v < |adj| && before[v] ==> after[v]
  {
    ReachableSelf(adj, from);
    assert from in MarkedIn(after);
    forall v | 0 <= v < |adj| && before[v] ensures after[v] {
      assert v in MarkedIn(before);
      assert v in MarkedIn(after);
    }
  }
}
