/** A query from the top of the index to its answer: `Search` in
`internal/index/hnsw.go`. */
module Querying {
  import opened TopK
  import opened Graph
  import opened LayerSearch
  import opened Completeness
  import opened Descent
  import opened Build
  import opened EfMonotone

  datatype Answer = Hits(results: seq<Result>) | WrongDimension | BadK

  /** The width a query really searches with. */
  function QueryWidth(efSearch: int, k: nat): (ef: nat)
    requires 1 <= k
    ensures ef >= k && ef >= efSearch && (ef == k || ef == efSearch)
  {
    if efSearch < k then k else efSearch
  }

  /** Where the descent drops the query into the bottom layer. */
  ghost function Landing(ix: Index, dist: seq<real>): (ep: nat)
    requires Sound(ix) && |dist| == |ix.links|
    ensures Occupies(ix.links, ep, 0) && dist[ep] <= dist[ix.entry]
  {
    Down(ix.links, dist, ix.entry, ix.maxLevel, 0)
  }

  ghost function Bottom(ix: Index): (adj: seq<seq<nat>>)
    requires Sound(ix)
    ensures InRange(adj, |ix.links|)
  {
    LayerIsClosed(ix.links, 0);
    Layer(ix.links, 0)
  }

  /** The bottom-layer search of a query. */
  ghost function BottomSearch(ix: Index, dist: seq<real>, ef: nat): (r: seq<Result>)
    requires Sound(ix) && |dist| == |ix.links| && 1 <= ef
  {
    Search(Bottom(ix), Query(dist, ef, -1), Landing(ix, dist))
  }

  ghost function Knn(ix: Index, efSearch: int, q: seq<real>, k: int): (a: Answer)
    requires Sound(ix)
  {
    if |q| != ix.ds.dim then WrongDimension
    else if k < 1 then BadK
    else Hits(Take(BottomSearch(ix, ix.ds.From(q), QueryWidth(efSearch, k)), k))
  }

  /** The bottom search starts where a chain of greedy walks ends, one walk per
  layer from the top down to layer 1, the first from the entry; there is such a
  chain, and every such chain ends there. */
  lemma LandingIsDescent(ix: Index, dist: seq<real>) returns (paths: seq<seq<nat>>)
    requires Sound(ix) && |dist| == |ix.links|
    ensures Descends(ix.links, dist, ix.entry, ix.maxLevel, 0, paths)
    ensures forall p :: Descends(ix.links, dist, ix.entry, ix.maxLevel, 0, p) ==>
      Landing(ix, dist) == EndOf(ix.entry, p)
  {
    hide WellLinked, Descends, EndOf, Down;
    paths := DownDescends(ix.links, dist, ix.entry, ix.maxLevel, 0);
    forall p | Descends(ix.links, dist, ix.entry, ix.maxLevel, 0, p) ensures Landing(ix, dist) == EndOf(ix.entry, p) {
      DescentIsDown(ix.links, dist, ix.entry, ix.maxLevel, 0, p);
    }
  }

  /** So on an index with layers above the bottom, the query lands on a node of
  layer 1 with no nearer neighbour there. */
  lemma LandingIsLocal(ix: Index, dist: seq<real>)
    requires Sound(ix) && |dist| == |ix.links| && 1 <= ix.maxLevel
    ensures var ep := Landing(ix, dist);
      Occupies(ix.links, ep, 1) && forall x :: x in ix.links[ep][1] ==> x < |dist| && dist[ep] <= dist[x]
  {
    hide WellLinked, Down;
    DownStops(ix.links, dist, ix.entry, ix.maxLevel, 0);
  }

  /** Which queries are refused, and why. */
  lemma QueryErrors(ix: Index, efSearch: int, q: seq<real>, k: int)
    requires Sound(ix)
    ensures Knn(ix, efSearch, q, k).WrongDimension? <==> |q| != ix.ds.dim
    ensures Knn(ix, efSearch, q, k).BadK? <==> |q| == ix.ds.dim && k <= 0
  {}

  lemma TakePrefix(s: seq<Result>, k: nat)
    ensures |Take(s, k)| == (if |s| <= k then |s| else k)
    ensures forall i :: 0 <= i < |Take(s, k)| ==> Take(s, k)[i] == s[i]
  {}

  /** On any sound index, built or loaded, a well-posed query is answered with
  at least one and at most k nodes, nearest first, each once and at its true
  distance, the first no farther than the entry point. */
  lemma QueryIsAnswered(ix: Index, efSearch: int, q: seq<real>, k: nat)
    requires Sound(ix) && |q| == ix.ds.dim && 1 <= k
    ensures var a := Knn(ix, efSearch, q, k);
      && a.Hits? && 1 <= |a.results| <= k
      && Sorted(a.results) && DistinctIds(a.results)
      && (forall i :: 0 <= i < |a.results| ==>
            a.results[i].id < ix.ds.Len()
            && a.results[i].dist == L2(ix, q, a.results[i].id))
      && a.results[0].dist <= L2(ix, q, ix.entry)
  {
    var dist := ix.ds.From(q);
    var ef := QueryWidth(efSearch, k);
    SearchAnswers(Bottom(ix), Query(dist, ef, -1), Landing(ix, dist));
    TakePrefix(BottomSearch(ix, dist, ef), k);
  }

  ghost function L2(ix: Index, q: seq<real>, id: nat): (d: real)
    requires Sound(ix) && |q| == ix.ds.dim && id < ix.ds.Len()
  {
    ix.ds.From(q)[id]
  }

  /** Turning efSearch up never makes any rank of an answer worse, on any sound
  index where no two nodes that the landing point leads to are equally far from
  the query. */
  lemma MoreEffortIsNoWorse(ix: Index, ef1: int, ef2: int, q: seq<real>, k: nat)
    requires Sound(ix) && |q| == ix.ds.dim && 1 <= k && ef1 <= ef2
    requires DistinctAmong(ix.ds.From(q), ReachableFrom(Bottom(ix), Landing(ix, ix.ds.From(q))))
    ensures NoWorse(Knn(ix, ef1, q, k).results, Knn(ix, ef2, q, k).results)
  {
    hide Search, ReachableFrom, DistinctAmong, Bottom, Landing;
    var dist := ix.ds.From(q);
    var e1, e2, ep := QueryWidth(ef1, k), QueryWidth(ef2, k), Landing(ix, dist);
    ReachableIsClosed(Bottom(ix), ep);
    WiderIsNoWorse(Bottom(ix), Query(dist, e1, -1), Query(dist, e2, -1), ep, ReachableFrom(Bottom(ix), ep));
    TakePrefix(BottomSearch(ix, dist, e1), k);
    TakePrefix(BottomSearch(ix, dist, e2), k);
  }

  ghost function ReachableFrom(adj: seq<seq<nat>>, ep: nat): (c: set<nat>) {
    set v | v in Nodes(|adj|) && Reachable(adj, ep, v)
  }

  lemma ReachableIsClosed(adj: seq<seq<nat>>, ep: nat)
    requires InRange(adj, |adj|) && ep < |adj|
    ensures ep in ReachableFrom(adj, ep) && ClosedUnder(adj, ReachableFrom(adj, ep))
  {
    var c := ReachableFrom(adj, ep);
    ReachableSelf(adj, ep);
    forall v, x | v in c && v < |adj| && x in adj[v] ensures x in c {
      ReachableStep(adj, ep, v, x);
    }
  }

  /** Completeness survives cutting a full result list to its first k. */
  lemma PrefixIsComplete(adj: seq<seq<nat>>, q: Query, ep: nat, k: nat, p: seq<nat>)
    requires InRange(adj, |q.dist|) && ep < |q.dist| && 1 <= q.ef && 1 <= k && q.skip == -1
    requires |Search(adj, q, ep)| == Width(q.ef, |q.dist|)
    requires IsPath(adj, p) && p[0] == ep
    requires forall i :: 0 < i < |p| ==> CloserThanWorst(Take(Search(adj, q, ep), k), q.dist[p[i]])
    requires CloserThanWorst(Take(Search(adj, q, ep), k), q.dist[p[|p| - 1]])
    ensures Scored(q, p[|p| - 1]) in Take(Search(adj, q, ep), k)
  {
    var all := Search(adj, q, ep);
    SearchAnswers(adj, q, ep);
    hide SearchState;
    WorstOfPrefix(all, k);
    CloserThanWorstIsFound(adj, q, ep, p);
    CloserIsInPrefix(all, k, Scored(q, p[|p| - 1]));
  }

  /** When the search fills up, every node the landing point leads to through
  nodes closer than the answer's worst hit, and closer itself, is a hit. */
  lemma QueryIsComplete(ix: Index, efSearch: int, q: seq<real>, k: nat, p: seq<nat>)
    requires Sound(ix) && |q| == ix.ds.dim && 1 <= k
    requires |BottomSearch(ix, ix.ds.From(q), QueryWidth(efSearch, k))| == Width(QueryWidth(efSearch, k), |ix.links|)
    requires IsPath(Bottom(ix), p) && p[0] == Landing(ix, ix.ds.From(q))
    requires forall i :: 0 < i < |p| ==> CloserThanWorst(Knn(ix, efSearch, q, k).results, ix.ds.From(q)[p[i]])
    requires CloserThanWorst(Knn(ix, efSearch, q, k).results, ix.ds.From(q)[p[|p| - 1]])
    ensures Result(p[|p| - 1], ix.ds.From(q)[p[|p| - 1]]) in Knn(ix, efSearch, q, k).results
  {
    hide Search;
    var dist := ix.ds.From(q);
    PrefixIsComplete(Bottom(ix), Query(dist, QueryWidth(efSearch, k), -1), Landing(ix, dist), k, p);
  }

  lemma WorstOfPrefix(s: seq<Result>, k: nat)
    requires Sorted(s) && s != [] && 1 <= k
    ensures Take(s, k) != [] && Take(s, k)[|Take(s, k)| - 1].dist <= s[|s| - 1].dist
  {
    if k < |s| { assert !Before(s[|s| - 1], s[k - 1]); }
  }

  lemma CloserIsInPrefix(s: seq<Result>, k: nat, x: Result)
    requires Sorted(s) && x in s && 1 <= k && CloserThanWorst(Take(s, k), x.dist)
    ensures x in Take(s, k)
  {
    var i :| 0 <= i < |s| && s[i] == x;
    assert forall j :: 0 <= j < i ==> !Before(x, s[j]);
    assert i < |Take(s, k)|;
    assert Take(s, k)[i] == x;
  }
}
