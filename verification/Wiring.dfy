/** What an insertion finds, keeps and wires, layer by layer, said without its
loops: `insertAt` of `internal/index/hnsw.go`. */
module Wiring {
  import opened TopK
  import opened Distance
  import opened Graph
  import opened Heuristic
  import opened LayerSearch
  import opened Completeness
  import opened Descent
  import opened Build
  import opened BuildInvariant
  import opened Steps

  // ---------- What is found ----------

  lemma QueryDistances(ds: Dataset, id: nat)
    requires ds.Valid() && id < ds.Len()
    ensures |ds.From(ds.vecs[id])| == ds.Len()
    ensures forall x :: 0 <= x < ds.Len() ==> ds.From(ds.vecs[id])[x] == ds.Between(id, x)
  {}

  /** What an insertion finds on a layer: in rank order by distance from the node,
  at least one and no more than efConstruction, the first no farther than the
  entry point. */
  lemma FoundIsRanked(ds: Dataset, par: Params, links: Links, id: nat, lc: nat, ep: nat)
    requires Buildable(ds, par, links) && id < |links| && Occupies(links, ep, lc) && ep != id
    ensures var f := Found(ds, par, links, id, lc, ep);
      && RankedFor(ds, id, f) && 1 <= |f| <= par.efConstruct && id !in Ids(f)
      && ds.Between(id, f[0].id) <= ds.Between(id, ep)
  {
    hide SearchState, L2Squared;
    var q := Query(ds.From(ds.vecs[id]), par.efConstruct, id);
    FoundUnfolds(ds, par, links, id, lc, ep);
    FoundFacts(ds, par, links, id, lc, ep);
    QueryDistances(ds, id);
    SearchAnswers(Layer(links, lc), q, ep);
  }

  /** When fewer are found than efConstruction allows, and than there are nodes,
  they are all that the entry point leads to on the layer, but for the node itself. */
  lemma FewFoundIsAll(ds: Dataset, par: Params, links: Links, id: nat, lc: nat, ep: nat, x: nat)
    requires Buildable(ds, par, links) && id < |links| && Occupies(links, ep, lc) && x < |links|
    requires var f := Found(ds, par, links, id, lc, ep); |f| < par.efConstruct && |f| < ds.Len()
    ensures x in Ids(Found(ds, par, links, id, lc, ep)) <==> Reachable(Layer(links, lc), ep, x) && x != id
  {
    hide SearchState, L2Squared, Reachable;
    var q := Query(ds.From(ds.vecs[id]), par.efConstruct, id);
    FoundUnfolds(ds, par, links, id, lc, ep);
    QueryDistances(ds, id);
    UnfilledIsReachableSet(Layer(links, lc), q, ep, x);
    FoundByScore(ds, par, links, id, lc, ep, x);
  }

  /** A found ID is a found score. */
  lemma FoundByScore(ds: Dataset, par: Params, links: Links, id: nat, lc: nat, ep: nat, x: nat)
    requires Buildable(ds, par, links) && id < |links| && Occupies(links, ep, lc) && x < |links|
    ensures var f := Found(ds, par, links, id, lc, ep);
      x in Ids(f) <==> Result(x, ds.Between(id, x)) in f
  {
    hide SearchState, L2Squared;
    var f := Found(ds, par, links, id, lc, ep);
    FoundScores(ds, par, links, id, lc, ep);
    if Result(x, ds.Between(id, x)) in f { IdOfMember(f, Result(x, ds.Between(id, x))); }
    if x in Ids(f) {
      var j :| 0 <= j < |f| && Ids(f)[j] == x;
      assert f[j] == Result(x, ds.Between(id, x));
    }
  }

  lemma FoundScores(ds: Dataset, par: Params, links: Links, id: nat, lc: nat, ep: nat)
    requires Buildable(ds, par, links) && id < |links| && Occupies(links, ep, lc)
    ensures var f := Found(ds, par, links, id, lc, ep);
      forall j :: 0 <= j < |f| ==> f[j].id < ds.Len() && f[j].dist == ds.Between(id, f[j].id)
  {
    hide L2Squared, Run;
    var q := Query(ds.From(ds.vecs[id]), Width(par.efConstruct, ds.Len()), id);
    FoundUnfolds(ds, par, links, id, lc, ep);
    QueryDistances(ds, id);
    StartWellFormed(q, ep);
  }

  /** x is closer to the node than the last found. */
  ghost predicate ClosesIn(ds: Dataset, id: nat, found: seq<Result>, x: nat) {
    && ds.Valid() && id < ds.Len() && x < ds.Len()
    && found != [] && found[|found| - 1].id < ds.Len()
    && ds.Between(id, x) < ds.Between(id, found[|found| - 1].id)
  }

  lemma ClosesInIsCloser(ds: Dataset, id: nat, found: seq<Result>, x: nat, dist: seq<real>)
    requires ClosesIn(ds, id, found, x) && |dist| == ds.Len()
    requires forall y :: 0 <= y < ds.Len() ==> dist[y] == ds.Between(id, y)
    requires forall j :: 0 <= j < |found| ==> found[j].id < ds.Len() && found[j].dist == ds.Between(id, found[j].id)
    ensures x < |dist| && CloserThanWorst(found, dist[x])
  {}

  /** When as many are found, every node at the end of a path through the layer
  whose nodes, past the entry point, are closer than the last found is found. */
  lemma ManyFoundIsComplete(ds: Dataset, par: Params, links: Links, id: nat, lc: nat, ep: nat, p: seq<nat>)
    requires Buildable(ds, par, links) && id < |links| && Occupies(links, ep, lc) && ep != id
    requires var f := Found(ds, par, links, id, lc, ep); |f| == par.efConstruct || |f| == ds.Len()
    requires IsPath(Layer(links, lc), p) && p[0] == ep && p[|p| - 1] != id
    requires forall i :: 0 < i < |p| ==> ClosesIn(ds, id, Found(ds, par, links, id, lc, ep), p[i])
    requires ClosesIn(ds, id, Found(ds, par, links, id, lc, ep), p[|p| - 1])
    ensures p[|p| - 1] in Ids(Found(ds, par, links, id, lc, ep))
  {
    hide Search, Found, L2Squared, ClosesIn, CloserThanWorst, Layer, IsPath;
    PathNotEmpty(Layer(links, lc), p);
    var q := Query(ds.From(ds.vecs[id]), par.efConstruct, id);
    var f := Found(ds, par, links, id, lc, ep);
    FoundUnfolds(ds, par, links, id, lc, ep);
    FoundScores(ds, par, links, id, lc, ep);
    QueryDistances(ds, id);
    SearchAnswers(Layer(links, lc), q, ep);
    forall i | 0 < i < |p| ensures p[i] < |q.dist| && CloserThanWorst(f, q.dist[p[i]]) {
      ClosesInIsCloser(ds, id, f, p[i], q.dist);
    }
    ClosesInIsCloser(ds, id, f, p[|p| - 1], q.dist);
    CloserThanWorstIsFound(Layer(links, lc), q, ep, p);
    FoundByScore(ds, par, links, id, lc, ep, p[|p| - 1]);
  }

  lemma PathNotEmpty(adj: seq<seq<nat>>, p: seq<nat>)
    requires IsPath(adj, p)
    ensures p != []
  {}

  // ---------- What is kept ----------

  /** A new node's neighbours are the selection of at most M of what was found. */
  lemma KeepIsSelection(ds: Dataset, par: Params, id: nat, found: seq<Result>)
    requires RankedFor(ds, id, found)
    ensures IsSelection(ds, id, Ids(found), Keep(ds, par, found), par.m, par.nearestM)
  {
    hide IsSelection, Select;
    SelectIsSelection(ds, id, found, par.m, par.nearestM);
  }

  // ---------- What is wired ----------

  /** From before to after, layer lc has been connected from ep: the new node lists
  what was kept of what was found, each of those has had it linked in, and no other
  list of the layer has changed. */
  ghost predicate LayerWired(ds: Dataset, par: Params, before: Links, after: Links, id: nat, lc: nat, ep: nat)
    requires Buildable(ds, par, before) && id < |before| && Occupies(before, ep, lc)
  {
    var keep := Keep(ds, par, Found(ds, par, before, id, lc, ep));
    && Occupies(after, id, lc) && after[id][lc] == keep && keep != []
    && (forall x :: x in keep ==> WiredTo(ds, par, before, after, x, id, lc))
    && (forall a: nat :: Occupies(before, a, lc) && a != id && a !in keep ==>
          Occupies(after, a, lc) && after[a][lc] == before[a][lc])
  }

  lemma FoundAlike(ds: Dataset, par: Params, l1: Links, l2: Links, id: nat, lc: nat, ep: nat)
    requires Buildable(ds, par, l1) && Buildable(ds, par, l2) && id < |l1| == |l2| && Layer(l1, lc) == Layer(l2, lc)
    requires Occupies(l1, ep, lc) && Occupies(l2, ep, lc)
    ensures Found(ds, par, l1, id, lc, ep) == Found(ds, par, l2, id, lc, ep)
  {
    hide Found, Layer, Search;
    FoundUnfolds(ds, par, l1, id, lc, ep);
    FoundUnfolds(ds, par, l2, id, lc, ep);
  }

  lemma LayersAlike(l1: Links, l2: Links, lc: nat)
    requires SameShape(l1, l2) && forall a: nat :: Occupies(l1, a, lc) ==> l1[a][lc] == l2[a][lc]
    ensures Layer(l1, lc) == Layer(l2, lc)
  {
    forall a | 0 <= a < |l1| ensures Layer(l1, lc)[a] == Layer(l2, lc)[a] {
      if lc < |l1[a]| { assert Occupies(l1, a, lc); }
    }
  }

  /** Wiring reads and writes its own layer only. */
  lemma WiredAlike(
      ds: Dataset, par: Params, b1: Links, a1: Links, b2: Links, a2: Links, id: nat, lc: nat, ep: nat)
    requires Buildable(ds, par, b1) && Buildable(ds, par, b2) && id < |b1|
    requires Occupies(b1, ep, lc) && Occupies(b2, ep, lc)
    requires SameShape(b1, b2) && SameShape(b1, a1) && SameShape(b1, a2)
    requires forall a: nat :: Occupies(b1, a, lc) ==> b1[a][lc] == b2[a][lc] && a1[a][lc] == a2[a][lc]
    requires LayerWired(ds, par, b1, a1, id, lc, ep)
    ensures LayerWired(ds, par, b2, a2, id, lc, ep)
  {
    hide Found, Keep, Linked, Layer, Buildable;
    LayersAlike(b1, b2, lc);
    FoundAlike(ds, par, b1, b2, id, lc, ep);
    var keep := Keep(ds, par, Found(ds, par, b1, id, lc, ep));
    assert Occupies(b1, id, lc);
    forall x | x in keep ensures WiredTo(ds, par, b2, a2, x, id, lc) {
      assert WiredTo(ds, par, b1, a1, x, id, lc);
    }
  }

  lemma ConnectedIsWired(ds: Dataset, par: Params, links: Links, id: nat, lc: nat, ep: nat)
    requires Buildable(ds, par, links) && Occupies(links, id, lc) && Occupies(links, ep, lc)
    requires Untouched(links, id, lc) && ep != id
    ensures var p := ConnectLayer(ds, par, links, id, lc, ep);
      && LayerWired(ds, par, links, p.links, id, lc, ep) && SameShape(links, p.links)
      && Found(ds, par, links, id, lc, ep) != [] && p.ep == Found(ds, par, links, id, lc, ep)[0].id
  {
    hide ConnectLayer, Found, Keep, WiredTo, Untouched, Buildable;
    ConnectLayerWires(ds, par, links, id, lc, ep);
  }

  /** The layers from lc down, each with the entry point the one above handed on:
  the nearest it found. */
  ghost predicate AllWired(ds: Dataset, par: Params, before: Links, after: Links, id: nat, lc: nat, eps: seq<nat>)
    requires Buildable(ds, par, before) && id < |before|
  {
    && |eps| == lc + 1
    && (forall l :: 0 <= l <= lc ==> Occupies(before, eps[l], l) && LayerWired(ds, par, before, after, id, l, eps[l]))
    && (forall l :: 0 < l <= lc ==> HandsOn(ds, par, before, id, l, eps[l], eps[l - 1]))
  }

  ghost predicate HandsOn(ds: Dataset, par: Params, links: Links, id: nat, lc: nat, ep: nat, next: nat)
    requires Buildable(ds, par, links) && id < |links|
  {
    && Occupies(links, ep, lc)
    && Found(ds, par, links, id, lc, ep) != [] && next == Found(ds, par, links, id, lc, ep)[0].id
  }

  lemma {:induction false} ConnectDownIsWired(
      ds: Dataset, par: Params, links: Links, id: nat, lc: nat, ep: nat, r: Links)
    returns (eps: seq<nat>)
    requires Buildable(ds, par, links) && Occupies(links, id, lc) && Occupies(links, ep, lc)
    requires Tidy(par, links) && Untouched(links, id, lc) && ep != id
    requires r == ConnectDown(ds, par, links, id, lc, ep).links
    ensures SameShape(links, r) && AllWired(ds, par, links, r, id, lc, eps) && eps[lc] == ep
    ensures forall a: nat, l: nat :: Occupies(links, a, l) && l > lc ==> r[a][l] == links[a][l]
    decreases lc
  {
    hide LayerWired, Untouched, Tidy, Found, HandsOn, Buildable, ConnectLayer;
    ConnectedIsWired(ds, par, links, id, lc, ep);
    ConnectLayerTidy(ds, par, links, id, lc, ep);
    var p := ConnectDownStep(ds, par, links, id, lc, ep);
    NearestIsHanded(ds, par, links, id, lc, ep, p.ep);
    if lc == 0 {
      eps := [ep];
    } else {
      UntouchedBelow(links, p.links, id, lc);
      var rest := ConnectDownIsWired(ds, par, p.links, id, lc - 1, p.ep, r);
      eps := rest + [ep];
      WiresCarryOver(ds, par, links, p.links, r, id, lc, ep, rest);
    }
  }

  lemma NearestIsHanded(ds: Dataset, par: Params, links: Links, id: nat, lc: nat, ep: nat, next: nat)
    requires Buildable(ds, par, links) && id < |links| && Occupies(links, ep, lc)
    requires Found(ds, par, links, id, lc, ep) != [] && next == Found(ds, par, links, id, lc, ep)[0].id
    ensures HandsOn(ds, par, links, id, lc, ep, next)
  {}

  /** Connecting layer lc and then those below wires them all as seen from the start. */
  lemma WiresCarryOver(
      ds: Dataset, par: Params, links: Links, mid: Links, r: Links, id: nat, lc: nat, ep: nat, rest: seq<nat>)
    requires Buildable(ds, par, links) && Buildable(ds, par, mid) && id < |links| && lc > 0 && Occupies(links, ep, lc)
    requires SameBut(links, mid, lc) && SameShape(mid, r)
    requires LayerWired(ds, par, links, mid, id, lc, ep) && AllWired(ds, par, mid, r, id, lc - 1, rest)
    requires HandsOn(ds, par, links, id, lc, ep, rest[lc - 1])
    requires forall a: nat, l: nat :: Occupies(mid, a, l) && l > lc - 1 ==> r[a][l] == mid[a][l]
    ensures AllWired(ds, par, links, r, id, lc, rest + [ep])
    ensures forall a: nat, l: nat :: Occupies(links, a, l) && l > lc ==> r[a][l] == links[a][l]
  {
    hide LayerWired, Found, Buildable, HandsOn;
    var eps := rest + [ep];
    forall l | 0 <= l <= lc ensures Occupies(links, eps[l], l) && LayerWired(ds, par, links, r, id, l, eps[l]) {
      if l == lc {
        SameOn(mid, r, lc);
        WiredAlike(ds, par, links, mid, links, r, id, lc, ep);
      } else {
        assert Occupies(mid, rest[l], l) && LayerWired(ds, par, mid, r, id, l, rest[l]);
        WiredAlike(ds, par, mid, r, links, r, id, l, rest[l]);
      }
    }
    forall l | 0 < l <= lc ensures HandsOn(ds, par, links, id, l, eps[l], eps[l - 1]) {
      if l < lc {
        assert HandsOn(ds, par, mid, id, l, rest[l], rest[l - 1]);
        HandedAlike(ds, par, links, mid, id, l, lc, rest[l], rest[l - 1]);
      }
    }
    forall a: nat, l: nat | Occupies(links, a, l) && l > lc ensures r[a][l] == links[a][l] {
      assert Occupies(mid, a, l);
    }
  }

  lemma SameOn(mid: Links, r: Links, lc: nat)
    requires SameShape(mid, r) && lc > 0
    requires forall a: nat, l: nat :: Occupies(mid, a, l) && l > lc - 1 ==> r[a][l] == mid[a][l]
    ensures forall a: nat :: Occupies(mid, a, lc) ==> r[a][lc] == mid[a][lc]
  {}

  lemma HandedAlike(
      ds: Dataset, par: Params, links: Links, mid: Links, id: nat, l: nat, lc: nat, ep: nat, next: nat)
    requires Buildable(ds, par, links) && Buildable(ds, par, mid) && id < |links| && l < lc
    requires SameBut(links, mid, lc) && HandsOn(ds, par, mid, id, l, ep, next)
    ensures HandsOn(ds, par, links, id, l, ep, next)
  {
    hide Found, Buildable;
    assert Occupies(links, ep, l);
    LayersAlike(links, mid, l);
    FoundAlike(ds, par, links, mid, id, l, ep);
  }

  /** A whole insertion, layer by layer: the node appears on its levels; it descends
  from the entry to the layer it starts on, the lower of its own level and the old
  top; from there down every layer is wired, each from the nearest found on the one
  above, and what was found is found in the graph as it was before; above, its lists
  stay empty and nothing changes. */
  lemma InsertIsWired(ix: Index, id: nat, level: nat) returns (eps: seq<nat>, paths: seq<seq<nat>>)
    requires Sound(ix) && Tidy(ix.par, ix.links) && id < |ix.links| && ix.links[id] == []
    ensures var start := if level < ix.maxLevel then level else ix.maxLevel;
      var before := Publish(ix.links, id, level);
      var after := InsertNode(ix, id, level).links;
      && Buildable(ix.ds, ix.par, before) && SameShape(before, after)
      && AllWired(ix.ds, ix.par, before, after, id, start, eps)
      && Descends(before, ix.ds.From(ix.ds.vecs[id]), ix.entry, ix.maxLevel, level, paths)
      && eps[start] == EndOf(ix.entry, paths)
      && (forall a: nat, l: nat :: Occupies(before, a, l) && l > start ==> after[a][l] == before[a][l])
  {
    hide ConnectDown, Descends, EndOf, AllWired, Untouched, Tidy, WellLinked, Down;
    PublishKeepsWellLinked(ix.links, id, level);
    var before := Publish(ix.links, id, level);
    var dist := ix.ds.From(ix.ds.vecs[id]);
    var start := if level < ix.maxLevel then level else ix.maxLevel;
    EntryIsNotNew(ix, id, level);
    PublishUntouched(ix.par, ix.links, id, level, start);
    var ep := Down(before, dist, ix.entry, ix.maxLevel, level);
    paths := DownDescends(before, dist, ix.entry, ix.maxLevel, level);
    eps := ConnectDownIsWired(ix.ds, ix.par, before, id, start, ep, InsertNode(ix, id, level).links);
  }
}
