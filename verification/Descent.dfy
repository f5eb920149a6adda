/** The greedy walk above the target layer: `descend` in `internal/index/hnsw.go`. */
module Descent {
  import opened Graph
  import opened LayerSearch
  import opened Completeness

  /** One pass over a neighbour list, moving to anything strictly nearer. */
  function ScanBest(dist: seq<real>, nbs: seq<nat>, i: nat, best: nat): (r: nat)
    requires i <= |nbs| && best < |dist| && forall j :: 0 <= j < |nbs| ==> nbs[j] < |dist|
    ensures r < |dist| && (r == best || (dist[r] < dist[best] && r in nbs))
    ensures forall j :: i <= j < |nbs| ==> dist[r] <= dist[nbs[j]]
    decreases |nbs| - i
  {
    if i == |nbs| then best
    else ScanBest(dist, nbs, i + 1, if dist[nbs[i]] < dist[best] then nbs[i] else best)
  }

  /** The nodes strictly nearer than v; every move of the walk shrinks it. */
  ghost function Nearer(dist: seq<real>, v: nat): (s: set<nat>)
    requires v < |dist|
  {
    set u | u in Nodes(|dist|) && dist[u] < dist[v]
  }

  lemma NearerShrinks(dist: seq<real>, u: nat, v: nat)
    requires u < |dist| && v < |dist| && dist[u] < dist[v]
    ensures |Nearer(dist, u)| < |Nearer(dist, v)|
  {
    assert Nearer(dist, u) <= Nearer(dist, v) - {u};
    SubsetSize(Nearer(dist, u), Nearer(dist, v) - {u});
  }

  lemma {:induction false} SubsetSize(a: set<nat>, b: set<nat>)
    requires a <= b
    ensures |a| <= |b|
  {
    if a != {} {
      var x :| x in a;
      SubsetSize(a - {x}, b - {x});
    }
  }

  /** Scans until a pass brings no improvement. */
  ghost function Walk(adj: seq<seq<nat>>, dist: seq<real>, best: nat): (r: nat)
    requires InRange(adj, |dist|) && best < |dist|
    ensures r < |dist| && dist[r] <= dist[best]
    ensures forall x :: x in adj[r] ==> dist[r] <= dist[x]
    decreases |Nearer(dist, best)|
  {
    var next := ScanBest(dist, adj[best], 0, best);
    if next == best then best else
      NearerShrinks(dist, next, best);
      Walk(adj, dist, next)
  }

  lemma {:induction false} WalkStaysInside(adj: seq<seq<nat>>, dist: seq<real>, best: nat, c: set<nat>)
    requires InRange(adj, |dist|) && best < |dist| && best in c && ClosedUnder(adj, c)
    ensures Walk(adj, dist, best) in c
    decreases |Nearer(dist, best)|
  {
    var next := ScanBest(dist, adj[best], 0, best);
    if next != best {
      NearerShrinks(dist, next, best);
      WalkStaysInside(adj, dist, next, c);
    }
  }

  ghost function Occupants(links: Links, lc: nat): (s: set<nat>) {
    set v | v in Nodes(|links|) && Occupies(links, v, lc)
  }

  lemma LayerIsClosed(links: Links, lc: nat)
    requires WellLinked(links)
    ensures InRange(Layer(links, lc), |links|)
    ensures ClosedUnder(Layer(links, lc), Occupants(links, lc))
  {
    var adj := Layer(links, lc);
    forall a: nat, x | a < |links| && x in adj[a] ensures Occupies(links, x, lc) {
      assert Occupies(links, a, lc);
      assert ListWithin(links, links[a][lc], lc);
    }
    forall a, j | 0 <= a < |adj| && 0 <= j < |adj[a]| ensures adj[a][j] < |links| {
      assert adj[a][j] in adj[a];
    }
  }

  /** Where the walk on layer lc stops. */
  ghost function Hop(links: Links, dist: seq<real>, ep: nat, lc: nat): (r: nat)
    requires WellLinked(links) && |dist| == |links| && Occupies(links, ep, lc)
    ensures Occupies(links, r, lc) && dist[r] <= dist[ep]
  {
    LayerIsClosed(links, lc);
    WalkStaysInside(Layer(links, lc), dist, ep, Occupants(links, lc));
    Walk(Layer(links, lc), dist, ep)
  }

  /** Carries an entry point from layer lc down to the given level. */
  ghost function Down(links: Links, dist: seq<real>, ep: nat, lc: nat, level: nat): (r: nat)
    requires WellLinked(links) && |dist| == |links| && Occupies(links, ep, lc)
    ensures Occupies(links, r, if lc < level then lc else level)
    ensures r == ep || Occupies(links, r, level + 1)
    ensures dist[r] <= dist[ep]
    decreases lc
  {
    if lc <= level then ep else Down(links, dist, Hop(links, dist, ep, lc), lc - 1, level)
  }

  /** A layer search returns only nodes that occupy the layer. */
  lemma SearchStaysInLayer(links: Links, lc: nat, q: Query, ep: nat)
    requires WellLinked(links) && |q.dist| == |links| && Occupies(links, ep, lc) && 1 <= q.ef
    ensures InRange(Layer(links, lc), |q.dist|)
    ensures forall i :: 0 <= i < |Search(Layer(links, lc), q, ep)| ==>
      Occupies(links, Search(Layer(links, lc), q, ep)[i].id, lc)
  {
    LayerIsClosed(links, lc);
    SearchStaysInside(Layer(links, lc), q, ep, Occupants(links, lc));
  }

  // ---------- The descent, move by move ----------

  /** Having read a's list, the walk goes to b: the first of the nearest there,
  strictly nearer than a. */
  ghost predicate GoesTo(dist: seq<real>, nbs: seq<nat>, a: nat, b: nat) {
    && a < |dist| && b < |dist| && dist[b] < dist[a]
    && exists j :: 0 <= j < |nbs| && FirstNearest(dist, nbs, b, j)
  }

  ghost predicate FirstNearest(dist: seq<real>, nbs: seq<nat>, b: nat, j: nat)
    requires j < |nbs|
  {
    && nbs[j] == b < |dist|
    && (forall i :: 0 <= i < |nbs| ==> nbs[i] < |dist| && dist[b] <= dist[nbs[i]])
    && (forall i :: 0 <= i < j ==> dist[b] < dist[nbs[i]])
  }

  /** Nothing in a's list is nearer than a. */
  ghost predicate StopsAt(dist: seq<real>, nbs: seq<nat>, a: nat) {
    a < |dist| && forall x :: x in nbs ==> x < |dist| && dist[a] <= dist[x]
  }

  /** A walk within layer lc, from stop to stop until nothing listed is nearer. */
  ghost predicate GreedyPath(links: Links, dist: seq<real>, lc: nat, p: seq<nat>) {
    && p != [] && (forall i :: 0 <= i < |p| ==> Occupies(links, p[i], lc))
    && (forall i :: 0 <= i < |p| - 1 ==> GoesTo(dist, links[p[i]][lc], p[i], p[i + 1]))
    && StopsAt(dist, links[p[|p| - 1]][lc], p[|p| - 1])
  }

  /** One walk per layer from lc down to just above `level`, the first beginning at
  ep and each further one where the one above ended. */
  ghost predicate Descends(links: Links, dist: seq<real>, ep: nat, lc: nat, level: nat, paths: seq<seq<nat>>)
    decreases lc
  {
    if lc <= level then paths == []
    else
      && paths != [] && GreedyPath(links, dist, lc, paths[0]) && paths[0][0] == ep
      && Descends(links, dist, paths[0][|paths[0]| - 1], lc - 1, level, paths[1..])
  }

  /** Where such a chain of walks from ep ends. */
  ghost function EndOf(ep: nat, paths: seq<seq<nat>>): (end: nat)
    decreases |paths|
  {
    if paths == [] || paths[0] == [] then ep else EndOf(paths[0][|paths[0]| - 1], paths[1..])
  }

  /** A pass over a list finds the first of its nearest, or nothing nearer. */
  lemma {:induction false} ScanFindsFirst(dist: seq<real>, nbs: seq<nat>, i: nat, best: nat)
    requires i <= |nbs| && best < |dist| && forall j :: 0 <= j < |nbs| ==> nbs[j] < |dist|
    ensures var r := ScanBest(dist, nbs, i, best);
      r != best ==> dist[r] < dist[best] && exists j :: (i <= j < |nbs| && nbs[j] == r
        && forall l :: i <= l < j ==> dist[r] < dist[nbs[l]])
    decreases |nbs| - i
  {
    if i < |nbs| {
      ScanFindsFirst(dist, nbs, i + 1, if dist[nbs[i]] < dist[best] then nbs[i] else best);
    }
  }

  lemma ScanIsMove(dist: seq<real>, nbs: seq<nat>, a: nat)
    requires a < |dist| && forall j :: 0 <= j < |nbs| ==> nbs[j] < |dist|
    ensures var r := ScanBest(dist, nbs, 0, a);
      if r == a then StopsAt(dist, nbs, a) else GoesTo(dist, nbs, a, r)
  {
    var r := ScanBest(dist, nbs, 0, a);
    ScanFindsFirst(dist, nbs, 0, a);
    if r != a {
      var j :| 0 <= j < |nbs| && nbs[j] == r && forall l :: 0 <= l < j ==> dist[r] < dist[nbs[l]];
      assert FirstNearest(dist, nbs, r, j);
    }
  }

  /** There is only one move to make, or none. */
  lemma MoveIsScan(dist: seq<real>, nbs: seq<nat>, a: nat, b: nat)
    requires a < |dist| && forall j :: 0 <= j < |nbs| ==> nbs[j] < |dist|
    ensures GoesTo(dist, nbs, a, b) ==> ScanBest(dist, nbs, 0, a) == b
    ensures StopsAt(dist, nbs, a) ==> ScanBest(dist, nbs, 0, a) == a
  {
    ScanIsMove(dist, nbs, a);
    var r := ScanBest(dist, nbs, 0, a);
    if GoesTo(dist, nbs, a, b) {
      var j :| 0 <= j < |nbs| && FirstNearest(dist, nbs, b, j);
      assert r != a;
      var k :| 0 <= k < |nbs| && FirstNearest(dist, nbs, r, k);
      assert dist[r] == dist[b];
    }
  }

  lemma PathExtends(links: Links, dist: seq<real>, lc: nat, a: nat, p: seq<nat>)
    requires GreedyPath(links, dist, lc, p) && Occupies(links, a, lc) && GoesTo(dist, links[a][lc], a, p[0])
    ensures GreedyPath(links, dist, lc, [a] + p) && p != []
  {
    hide GoesTo, StopsAt;
  }

  lemma StaysAlone(links: Links, dist: seq<real>, lc: nat, a: nat)
    requires Occupies(links, a, lc)
    ensures StopsAt(dist, links[a][lc], a) ==> GreedyPath(links, dist, lc, [a])
  {
    hide StopsAt;
  }

  lemma {:induction false} WalkHasPath(links: Links, dist: seq<real>, lc: nat, best: nat) returns (p: seq<nat>)
    requires WellLinked(links) && |dist| == |links| && Occupies(links, best, lc)
    ensures InRange(Layer(links, lc), |dist|)
    ensures GreedyPath(links, dist, lc, p) && p[0] == best && p[|p| - 1] == Walk(Layer(links, lc), dist, best)
    decreases |Nearer(dist, best)|
  {
    hide GoesTo, StopsAt, InRange, WellLinked, GreedyPath, Layer;
    LayerIsClosed(links, lc);
    ListInRange(links, lc, best);
    StaysAlone(links, dist, lc, best);
    var nbs := links[best][lc];
    ScanIsMove(dist, nbs, best);
    var next := ScanBest(dist, nbs, 0, best);
    p := [best];
    if next != best {
      NearerShrinks(dist, next, best);
      var rest := WalkHasPath(links, dist, lc, next);
      PathExtends(links, dist, lc, best, rest);
      p := [best] + rest;
    }
  }

  lemma ListInRange(links: Links, lc: nat, a: nat)
    requires WellLinked(links) && Occupies(links, a, lc)
    ensures Layer(links, lc)[a] == links[a][lc]
    ensures forall j :: 0 <= j < |links[a][lc]| ==> Occupies(links, links[a][lc][j], lc)
  {
    assert ListWithin(links, links[a][lc], lc);
  }

  lemma {:induction false} PathIsWalk(links: Links, dist: seq<real>, lc: nat, p: seq<nat>)
    requires WellLinked(links) && |dist| == |links| && GreedyPath(links, dist, lc, p)
    ensures InRange(Layer(links, lc), |dist|)
    ensures p[|p| - 1] == Walk(Layer(links, lc), dist, p[0])
    decreases |p|
  {
    hide GoesTo, StopsAt, InRange, WellLinked;
    LayerIsClosed(links, lc);
    ListInRange(links, lc, p[0]);
    if |p| == 1 {
      MoveIsScan(dist, links[p[0]][lc], p[0], p[0]);
    } else {
      MoveIsScan(dist, links[p[0]][lc], p[0], p[1]);
      assert Occupies(links, p[1], lc);
      GoingIsNearer(dist, links[p[0]][lc], p[0], p[1]);
      PathIsWalk(links, dist, lc, p[1..]);
    }
  }

  lemma GoingIsNearer(dist: seq<real>, nbs: seq<nat>, a: nat, b: nat)
    requires GoesTo(dist, nbs, a, b)
    ensures a < |dist| && b < |dist| && dist[b] < dist[a] && b != a
  {}

  lemma PathHasStops(links: Links, dist: seq<real>, lc: nat, p: seq<nat>)
    requires GreedyPath(links, dist, lc, p)
    ensures p != [] && Occupies(links, p[0], lc)
  {}

  /** The descent is a chain of greedy walks ... */
  lemma {:induction false} DownDescends(links: Links, dist: seq<real>, ep: nat, lc: nat, level: nat)
    returns (paths: seq<seq<nat>>)
    requires WellLinked(links) && |dist| == |links| && Occupies(links, ep, lc)
    ensures Descends(links, dist, ep, lc, level, paths)
    ensures EndOf(ep, paths) == Down(links, dist, ep, lc, level)
    decreases lc
  {
    hide GreedyPath, WellLinked, InRange, Layer, Walk;
    paths := [];
    if lc > level {
      var p := WalkHasPath(links, dist, lc, ep);
      PathHasStops(links, dist, lc, p);
      var h := Hop(links, dist, ep, lc);
      var rest := DownDescends(links, dist, h, lc - 1, level);
      paths := [p] + rest;
      assert paths[1..] == rest;
    }
  }

  /** ... and every chain of greedy walks from the entry ends where it does. */
  lemma {:induction false} DescentIsDown(
      links: Links, dist: seq<real>, ep: nat, lc: nat, level: nat, paths: seq<seq<nat>>)
    requires WellLinked(links) && |dist| == |links| && Occupies(links, ep, lc)
    requires Descends(links, dist, ep, lc, level, paths)
    ensures EndOf(ep, paths) == Down(links, dist, ep, lc, level)
    decreases lc
  {
    hide GreedyPath, WellLinked, InRange, Layer, Walk;
    if lc > level {
      PathHasStops(links, dist, lc, paths[0]);
      PathIsWalk(links, dist, lc, paths[0]);
      DescentIsDown(links, dist, Hop(links, dist, ep, lc), lc - 1, level, paths[1..]);
    }
  }

  /** Where the descent ends, nothing listed on the layer above is nearer. */
  lemma {:induction false} DownStops(links: Links, dist: seq<real>, ep: nat, lc: nat, level: nat)
    requires WellLinked(links) && |dist| == |links| && Occupies(links, ep, lc) && lc > level
    ensures var r := Down(links, dist, ep, lc, level);
      Occupies(links, r, level + 1) && StopsAt(dist, links[r][level + 1], r)
    decreases lc
  {
    hide GreedyPath, WellLinked, InRange, Layer, Walk, StopsAt;
    var p := WalkHasPath(links, dist, lc, ep);
    PathStops(links, dist, lc, p);
    if lc - 1 > level { DownStops(links, dist, Hop(links, dist, ep, lc), lc - 1, level); }
  }

  lemma PathStops(links: Links, dist: seq<real>, lc: nat, p: seq<nat>)
    requires GreedyPath(links, dist, lc, p)
    ensures p != [] && Occupies(links, p[|p| - 1], lc) && StopsAt(dist, links[p[|p| - 1]][lc], p[|p| - 1])
  {}
}
