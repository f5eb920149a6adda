/** Exact search over every vector, serial and split over workers:
`internal/index/flat.go`. */
module FlatSearch {
  import opened TopK
  import opened Graph
  import opened Distance
  import opened Querying

  /** Every vector scored, in ID order. */
  function AllScored(dist: seq<real>): (r: seq<Result>)
    ensures |r| == |dist|
    ensures forall i :: 0 <= i < |dist| ==> r[i] == Result(i, dist[i])
  {
    if dist == [] then [] else
      var n := |dist| - 1;
      AllScored(dist[..n]) + [Result(n, dist[n])]
  }

  /** The true answer: everything sorted, cut to k. */
  function Nearest(ds: Dataset, q: seq<real>, k: int): (a: Answer)
    requires ds.Valid()
  {
    if |q| != ds.dim then WrongDimension
    else if k < 1 then BadK
    else Hits(Take(SortAll(AllScored(ds.From(q))), k))
  }

  // ---------- Merging partial answers ----------

  /** In the open: exact search refuses what it should, and otherwise returns as many
  vectors as there are, but no more than k, each once and at its true distance, in
  order of distance and, among equals, of ID, and nothing left out comes before any
  of them. */
  lemma NearestIsBest(ds: Dataset, q: seq<real>, k: int)
    requires ds.Valid()
    ensures Nearest(ds, q, k).WrongDimension? <==> |q| != ds.dim
    ensures Nearest(ds, q, k).BadK? <==> |q| == ds.dim && k <= 0
    ensures |q| == ds.dim && k >= 1 ==> KBest(ds, q, k, Nearest(ds, q, k).results)
  {
    if |q| == ds.dim && k >= 1 { BestOfAll(ds, q, k); }
  }

  ghost predicate KBest(ds: Dataset, q: seq<real>, k: nat, r: seq<Result>)
    requires ds.Valid() && |q| == ds.dim
  {
    && |r| == (if |ds.vecs| < k then |ds.vecs| else k)
    && (forall i :: 0 <= i < |r| ==> r[i].id < |ds.vecs| && r[i].dist == L2Squared(q, ds.vecs[r[i].id]))
    && (forall i, j :: 0 <= i < j < |r| ==>
          r[i].dist < r[j].dist || (r[i].dist == r[j].dist && r[i].id < r[j].id))
    && (forall v: nat, i :: v < |ds.vecs| && LeftOut(r, v) && 0 <= i < |r| ==>
          r[i].dist < L2Squared(q, ds.vecs[v]) || (r[i].dist == L2Squared(q, ds.vecs[v]) && r[i].id < v))
  }

  ghost predicate LeftOut(r: seq<Result>, v: nat) {
    forall i :: 0 <= i < |r| ==> r[i].id != v
  }

  /** all holds each score of xs once, in order. */
  ghost predicate Enumerates(xs: seq<Result>, all: seq<Result>) {
    && |all| == |xs|
    && (forall i :: 0 <= i < |all| ==> all[i].id < |xs| && all[i] == xs[all[i].id])
    && (forall i, j :: 0 <= i < j < |all| ==> Before(all[i], all[j]))
    && (forall v :: 0 <= v < |xs| ==> xs[v] in all)
  }

  lemma SortEnumerates(xs: seq<Result>)
    requires forall l :: 0 <= l < |xs| ==> xs[l].id == l
    ensures Enumerates(xs, SortAll(xs))
  {
    hide SortAll;
    var all := SortAll(xs);
    SortAllSorts(xs);
    assert |multiset(all)| == |multiset(xs)|;
    forall i | 0 <= i < |all| ensures all[i].id < |xs| && all[i] == xs[all[i].id] {
      assert all[i] in multiset(xs);
      var j :| 0 <= j < |xs| && xs[j] == all[i];
    }
    forall i, j | 0 <= i < j < |all| ensures Before(all[i], all[j]) {
      assert !Before(all[j], all[i]);
      EachOnce(xs, all, i, j);
    }
    forall v | 0 <= v < |xs| ensures xs[v] in all {
      assert xs[v] in multiset(all);
    }
  }

  lemma PrefixBeatsRest(xs: seq<Result>, all: seq<Result>, k: nat, v: nat, i: nat)
    requires Enumerates(xs, all) && v < |xs| && xs[v].id == v && LeftOut(Take(all, k), v) && i < |Take(all, k)|
    ensures Before(Take(all, k)[i], xs[v])
  {
    var r := Take(all, k);
    var j :| 0 <= j < |all| && all[j] == xs[v];
    assert forall l :: 0 <= l < |r| ==> r[l] == all[l];
  }

  lemma PrefixIsBest(ds: Dataset, q: seq<real>, k: nat, xs: seq<Result>, all: seq<Result>)
    requires ds.Valid() && |q| == ds.dim && Scores(ds, q, xs) && Enumerates(xs, all)
    ensures KBest(ds, q, k, Take(all, k))
  {
    hide L2Squared, Enumerates;
    var r := Take(all, k);
    EnumeratedFacts(xs, all);
    forall i, j | 0 <= i < j < |r| ensures Before(r[i], r[j]) {
      assert r[i] == all[i] && r[j] == all[j];
    }
    forall i | 0 <= i < |r| ensures r[i].id < |xs| && r[i] == xs[r[i].id] {
      assert r[i] == all[i];
    }
    forall v: nat, i | v < |ds.vecs| && LeftOut(r, v) && 0 <= i < |r|
      ensures Before(r[i], Result(v, L2Squared(q, ds.vecs[v])))
    {
      PrefixBeatsRest(xs, all, k, v, i);
    }
  }

  lemma EnumeratedFacts(xs: seq<Result>, all: seq<Result>)
    requires Enumerates(xs, all)
    ensures |all| == |xs|
    ensures forall i :: 0 <= i < |all| ==> all[i].id < |xs| && all[i] == xs[all[i].id]
    ensures forall i, j :: 0 <= i < j < |all| ==> Before(all[i], all[j])
  {}

  lemma BestOfAll(ds: Dataset, q: seq<real>, k: nat)
    requires ds.Valid() && |q| == ds.dim && k >= 1
    ensures KBest(ds, q, k, Take(SortAll(AllScored(ds.From(q))), k))
  {
    hide SortAll, L2Squared, KBest, Enumerates;
    var xs := AllScored(ds.From(q));
    SortEnumerates(xs);
    PrefixIsBest(ds, q, k, xs, SortAll(xs));
  }

  lemma TwiceAt(all: seq<Result>, i: nat, j: nat)
    requires i < j < |all| && all[i] == all[j]
    ensures multiset(all)[all[i]] >= 2
  {
    assert all == all[..j] + [all[j]] + all[j + 1..];
    assert all[..j][i] == all[i] && all[i] in multiset(all[..j]);
  }

  /** A permutation of scores with different IDs repeats none. */
  lemma EachOnce(xs: seq<Result>, all: seq<Result>, i: nat, j: nat)
    requires multiset(all) == multiset(xs) && i < j < |all| && all[i].id < |xs|
    requires forall l :: 0 <= l < |xs| ==> xs[l].id == l
    ensures all[i] != all[j]
  {
    OnceAt(xs, all[i], all[i].id);
    if all[i] == all[j] { TwiceAt(all, i, j); }
  }

  lemma OnceAt(xs: seq<Result>, x: Result, l: nat)
    requires l < |xs| && l == x.id && forall i :: 0 <= i < |xs| ==> xs[i].id == i
    ensures multiset(xs)[x] <= 1
  {
    assert xs == xs[..l] + [xs[l]] + xs[l + 1..];
    assert x !in xs[..l] && x !in xs[l + 1..];
  }

  lemma {:induction false} OfferAllAppend(s: seq<Result>, a: seq<Result>, b: seq<Result>, k: nat)
    ensures OfferAll(s, a + b, k) == OfferAll(OfferAll(s, a, k), b, k)
  {
    if b == [] {
      assert a + b == a;
    } else {
      var n := |b| - 1;
      assert (a + b)[..|a + b| - 1] == a + b[..n];
      assert (a + b)[|a + b| - 1] == b[n];
      OfferAllAppend(s, a, b[..n], k);
    }
  }

  /** Two lists with the same k best stay so when the same items join them. */
  lemma SameBestExtends(a: seq<Result>, b: seq<Result>, c: seq<Result>, k: nat)
    requires Take(SortAll(a), k) == Take(SortAll(b), k)
    ensures Take(SortAll(a + c), k) == Take(SortAll(b + c), k)
  {
    BoundedIsBruteForce(a, k);
    BoundedIsBruteForce(b, k);
    BoundedIsBruteForce(a + c, k);
    BoundedIsBruteForce(b + c, k);
    OfferAllAppend([], a, c, k);
    OfferAllAppend([], b, c, k);
  }

  lemma SortAllCommutes(a: seq<Result>, b: seq<Result>)
    ensures SortAll(a + b) == SortAll(b + a)
  {
    SortAllOrderFree(a + b, b + a);
  }

  lemma TakeTake(s: seq<Result>, j: nat, k: nat)
    requires k <= j || |s| <= j
    ensures Take(Take(s, j), k) == Take(s, k)
  {}

  lemma BestOfBest(ys: seq<Result>, j: nat, k: nat)
    requires k <= j || |ys| <= j
    ensures Take(SortAll(Take(SortAll(ys), j)), k) == Take(SortAll(ys), k)
  {
    hide SortAll;
    var s := SortAll(ys);
    SortAllSorts(ys);
    SortedPrefix(s, j);
    SortedIsSorted(Take(s, j));
    TakeTake(s, j, k);
  }

  lemma SortedPrefix(s: seq<Result>, j: nat)
    requires Sorted(s)
    ensures Sorted(Take(s, j))
  {}

  /** A chunk's own best j stand for the whole chunk, when j is at least k or
  the chunk is no longer than j. */
  lemma ChunkBestSuffices(c: seq<Result>, ys: seq<Result>, j: nat, k: nat)
    requires k <= j || |ys| <= j
    ensures Take(SortAll(c + ys), k) == Take(SortAll(c + Take(SortAll(ys), j)), k)
  {
    hide SortAll;
    var part := Take(SortAll(ys), j);
    BestOfBest(ys, j, k);
    SameBestExtends(ys, part, c, k);
    SortAllCommutes(c, ys);
    SortAllCommutes(c, part);
  }

  // ---------- The scan ----------

  lemma OfferNext(s: seq<Result>, all: seq<Result>, lo: nat, i: nat, k: nat)
    requires lo <= i < |all|
    ensures OfferAll(s, all[lo..i + 1], k) == Offer(OfferAll(s, all[lo..i], k), all[i], k)
  {
    var t := all[lo..i + 1];
    assert t[..|t| - 1] == all[lo..i] && t[|t| - 1] == all[i];
  }

  /** all holds every vector's score, in ID order. */
  ghost predicate Scores(ds: Dataset, q: seq<real>, all: seq<Result>)
    requires ds.Valid() && |q| == ds.dim
  {
    |all| == ds.Len() && forall i :: 0 <= i < ds.Len() ==> all[i] == Result(i, L2Squared(q, ds.vecs[i]))
  }

  method Scan(ds: Dataset, q: seq<real>, lo: nat, hi: nat, c: Collector, ghost all: seq<Result>)
    requires ds.Valid() && |q| == ds.dim && lo <= hi <= ds.Len() && c.Valid()
    requires Scores(ds, q, all)
    modifies c
    ensures c.Valid()
    ensures c.View() == OfferAll(old(c.View()), all[lo..hi], c.k)
  {
    ghost var before := c.View();
    assert OfferAll(before, all[lo..lo], c.k) == before;
    hide OfferAll, SortAll, Offer, L2Squared;
    var i := lo;
    while i < hi
      invariant lo <= i <= hi && c.Valid()
      invariant c.View() == OfferAll(before, all[lo..i], c.k)
    {
      OfferNext(before, all, lo, i, c.k);
      c.Add(i, L2Squared(q, ds.vecs[i]));
      i := i + 1;
    }
  }

  method SearchSerial(ds: Dataset, q: seq<real>, k: int) returns (a: Answer)
    requires ds.Valid()
    ensures a == Nearest(ds, q, k)
  {
    if |q| != ds.dim { return WrongDimension; }
    if k < 1 { return BadK; }
    var n := ds.Len();
    var c := new Collector(if k < n then k else n);
    ghost var all := AllScored(ds.From(q));
    Scan(ds, q, 0, n, c, all);
    assert all[0..n] == all;
    BoundedIsBruteForce(all, c.k);
    var r := c.Results();
    return Hits(r);
  }

  // ---------- The split scan ----------

  /** Every worker's turn comes; the order is the scheduler's. */
  ghost predicate IsSchedule(turns: seq<nat>, workers: nat) {
    && (forall i :: 0 <= i < |turns| ==> turns[i] < workers)
    && (forall w: nat :: w < workers ==> w in turns)
  }

  /** Where a chunk begins when the first few get one more than the rest. */
  function ChunkFrom(chunk: nat, extra: nat, w: nat): (lo: nat) {
    if w == 0 then 0 else ChunkFrom(chunk, extra, w - 1) + chunk + (if w - 1 < extra then 1 else 0)
  }

  /** Where worker w's chunk begins: the remainder goes to the first few. */
  function ChunkStart(n: nat, workers: nat, w: nat): (lo: nat)
    requires 1 <= workers
  {
    ChunkFrom(n / workers, n % workers, w)
  }

  lemma {:induction false} ChunkFromAt(chunk: nat, extra: nat, w: nat)
    ensures ChunkFrom(chunk, extra, w) == w * chunk + (if w < extra then w else extra)
  {
    if w > 0 {
      ChunkFromAt(chunk, extra, w - 1);
      Distribute(w - 1, chunk);
    }
  }

  lemma Distribute(a: nat, c: nat)
    ensures (a + 1) * c == a * c + c
  {}

  lemma {:induction false} ChunkFromRises(chunk: nat, extra: nat, v: nat, w: nat)
    requires v <= w
    ensures ChunkFrom(chunk, extra, v) <= ChunkFrom(chunk, extra, w)
  {
    if v < w { ChunkFromRises(chunk, extra, v, w - 1); }
  }

  /** The chunks follow one another without gap or overlap and cover [0, n); the
  first n mod workers hold one more than the rest, and none is empty if there
  are no more workers than vectors. */
  lemma ChunksPartition(n: nat, workers: nat, w: nat)
    requires 1 <= workers && w < workers
    ensures ChunkStart(n, workers, 0) == 0 && ChunkStart(n, workers, workers) == n
    ensures ChunkStart(n, workers, w) <= ChunkStart(n, workers, w + 1) <= n
    ensures ChunkStart(n, workers, w + 1) - ChunkStart(n, workers, w)
         == n / workers + if w < n % workers then 1 else 0
    ensures workers <= n ==> ChunkStart(n, workers, w) < ChunkStart(n, workers, w + 1)
  {
    var chunk, extra := n / workers, n % workers;
    ChunksEnd(n, workers);
    ChunkFromRises(chunk, extra, w + 1, workers);
    ChunkFromNext(chunk, extra, w, w + 1);
    hide ChunkFrom;
    if workers <= n { SomePerChunk(n, workers); }
  }

  lemma ChunkFromNext(chunk: nat, extra: nat, w: nat, next: nat)
    requires next == w + 1
    ensures ChunkFrom(chunk, extra, next) == ChunkFrom(chunk, extra, w) + chunk + if w < extra then 1 else 0
  {}

  lemma ChunksEnd(n: nat, workers: nat)
    requires 1 <= workers
    ensures ChunkStart(n, workers, 0) == 0 && ChunkStart(n, workers, workers) == n
  {
    ChunkFromAt(n / workers, n % workers, workers);
    assert workers * (n / workers) + n % workers == n;
  }

  lemma SomePerChunk(n: nat, workers: nat)
    requires 1 <= workers <= n
    ensures 1 <= n / workers
  {
    assert n == workers * (n / workers) + n % workers;
  }

  /** What worker w contributes. */
  ghost function Partial(all: seq<Result>, workers: nat, w: nat, k: nat): (p: seq<Result>)
    requires 1 <= workers && w < workers
  {
    ChunksPartition(|all|, workers, w);
    ChunkBest(all, ChunkStart(|all|, workers, w), ChunkStart(|all|, workers, w + 1), k)
  }

  ghost function ChunkBest(all: seq<Result>, lo: nat, hi: nat, k: nat): (p: seq<Result>)
    requires lo <= hi <= |all|
  {
    Take(SortAll(all[lo..hi]), if k < hi - lo then k else hi - lo)
  }

  method RunWorker(
      ds: Dataset, q: seq<real>, k: nat, lo: nat, hi: nat, ghost all: seq<Result>) returns (part: seq<Result>)
    requires ds.Valid() && |q| == ds.dim && lo <= hi <= ds.Len()
    requires 1 <= k && lo < hi && Scores(ds, q, all)
    ensures part == ChunkBest(all, lo, hi, k)
  {
    var c := new Collector(if k < hi - lo then k else hi - lo);
    Scan(ds, q, lo, hi, c, all);
    BoundedIsBruteForce(all[lo..hi], c.k);
    part := c.Results();
  }

  /** The split search, whatever order the workers finish in. */
  method SearchN(ds: Dataset, q: seq<real>, k: int, workers: int, turns: seq<nat>) returns (a: Answer)
    requires ds.Valid()
    requires workers >= 0 ==> IsSchedule(turns, workers)
    ensures a == Nearest(ds, q, k)
  {
    if |q| != ds.dim { return WrongDimension; }
    if k < 1 { return BadK; }
    var n := ds.Len();
    var kk := if k < n then k else n;
    ghost var all := AllScored(ds.From(q));
    if n == 0 { return Hits([]); }
    if workers < 2 || n < workers {
      a := SearchSerial(ds, q, kk);
      return;
    }
    var bounds := Split(n, workers);
    var partials := RunAll(ds, q, kk, workers, turns, bounds, all);
    var merged := Merge(partials, kk, all);
    return Hits(merged);
  }

  /** The merge: one more collector, the partial answers in worker order. */
  method Merge(partials: seq<seq<Result>>, k: nat, ghost all: seq<Result>) returns (r: seq<Result>)
    requires 1 <= k && 1 <= |partials|
    requires forall w :: 0 <= w < |partials| ==> partials[w] == Partial(all, |partials|, w, k)
    ensures r == Take(SortAll(all), k)
  {
    var merged := new Collector(k);
    ghost var done: nat := 0;
    assert all[..0] == [];
    hide SortAll, OfferAll, Partial;
    var w := 0;
    while w < |partials|
      invariant w <= |partials| && merged.Valid() && merged.k == k
      invariant done == ChunkStart(|all|, |partials|, w) <= |all|
      invariant merged.View() == Take(SortAll(all[..done]), k)
    {
      MergeStep(all, |partials|, w, k);
      AddAll(merged, partials[w]);
      done := ChunkStart(|all|, |partials|, w + 1);
      w := w + 1;
    }
    ChunksPartition(|all|, |partials|, 0);
    assert all[..|all|] == all;
    r := merged.Results();
  }

  /** The goroutines: each fills its own slot, in the scheduler's order. */
  method RunAll(
      ds: Dataset, q: seq<real>, k: nat, workers: nat, turns: seq<nat>, bounds: seq<nat>, ghost all: seq<Result>)
    returns (partials: seq<seq<Result>>)
    requires ds.Valid() && |q| == ds.dim && 1 <= k && 1 <= workers && IsSchedule(turns, workers)
    requires Scores(ds, q, all)
    requires |bounds| == workers + 1
    requires forall w :: 0 <= w <= workers ==> bounds[w] == ChunkStart(ds.Len(), workers, w)
    requires workers <= ds.Len()
    ensures |partials| == workers
    ensures forall w :: 0 <= w < workers ==> partials[w] == Partial(all, workers, w, k)
  {
    hide ChunkStart, ChunkBest;
    var slots := new seq<Result>[workers];
    var t := 0;
    while t < |turns|
      invariant t <= |turns|
      invariant forall i :: 0 <= i < t ==> slots[turns[i]] == Partial(all, workers, turns[i], k)
    {
      var w := turns[t];
      ChunksPartition(ds.Len(), workers, w);
      var part := RunWorker(ds, q, k, bounds[w], bounds[w + 1], all);
      slots[w] := part;
      t := t + 1;
    }
    forall w | 0 <= w < workers ensures slots[w] == Partial(all, workers, w, k) {
      assert w in turns;
    }
    return slots[..];
  }

  /** The inner merge loop. */
  method AddAll(merged: Collector, part: seq<Result>)
    requires merged.Valid()
    modifies merged
    ensures merged.Valid() && merged.View() == OfferAll(old(merged.View()), part, merged.k)
  {
    var j := 0;
    while j < |part|
      invariant j <= |part| && merged.Valid()
      invariant merged.View() == OfferAll(old(merged.View()), part[..j], merged.k)
    {
      merged.Add(part[j].id, part[j].dist);
      assert part[..j + 1][..j] == part[..j];
      j := j + 1;
    }
    assert part[..|part|] == part;
  }

  lemma MergeStep(all: seq<Result>, workers: nat, w: nat, k: nat)
    requires 1 <= workers && w < workers
    ensures ChunkStart(|all|, workers, w) <= ChunkStart(|all|, workers, w + 1) <= |all|
    ensures OfferAll(Take(SortAll(all[..ChunkStart(|all|, workers, w)]), k), Partial(all, workers, w, k), k)
         == Take(SortAll(all[..ChunkStart(|all|, workers, w + 1)]), k)
  {
    ChunksPartition(|all|, workers, w);
    MergeChunk(all, ChunkStart(|all|, workers, w), ChunkStart(|all|, workers, w + 1), k);
  }

  /** The k best of the first lo items, offered a chunk's best, become the k
  best of the first hi. */
  lemma MergeChunk(all: seq<Result>, lo: nat, hi: nat, k: nat)
    requires lo <= hi <= |all|
    ensures OfferAll(Take(SortAll(all[..lo]), k), ChunkBest(all, lo, hi, k), k) == Take(SortAll(all[..hi]), k)
  {
    hide SortAll, OfferAll;
    var part := ChunkBest(all, lo, hi, k);
    BoundedIsBruteForce(all[..lo], k);
    OfferAllAppend([], all[..lo], part, k);
    BoundedIsBruteForce(all[..lo] + part, k);
    ChunkBestSuffices(all[..lo], all[lo..hi], if k < hi - lo then k else hi - lo, k);
    assert all[..lo] + all[lo..hi] == all[..hi];
  }

  /** The loop that hands out chunks with a running start. */
  method Split(n: nat, workers: nat) returns (bounds: seq<nat>)
    requires 1 <= workers
    ensures |bounds| == workers + 1
    ensures forall w :: 0 <= w <= workers ==> bounds[w] == ChunkStart(n, workers, w)
  {
    bounds := SplitInto(n / workers, n % workers, workers);
  }

  method SplitInto(chunk: nat, extra: nat, workers: nat) returns (bounds: seq<nat>)
    ensures |bounds| == workers + 1
    ensures forall w :: 0 <= w <= workers ==> bounds[w] == ChunkFrom(chunk, extra, w)
  {
    var start := 0;
    bounds := [0];
    var w := 0;
    while w < workers
      invariant w <= workers && |bounds| == w + 1 && start == bounds[w]
      invariant forall v :: 0 <= v <= w ==> bounds[v] == ChunkFrom(chunk, extra, v)
    {
      var size := chunk;
      if w < extra { size := size + 1; }
      start := start + size;
      bounds := bounds + [start];
      w := w + 1;
    }
  }
}
