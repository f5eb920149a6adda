/** The ranking rule and the bounded collector of `internal/topk/topk.go`.

The specification side works on sorted sequences: `SortAll` is the brute-force
answer, `Offer` is what one `Add` does to it, and the class `Collector` is the
array-shaped heap the source really keeps. */
module TopK {

  /** One scored vector. Distances are exact; rounding and NaN are out. */
  datatype Result = Result(id: nat, dist: real)

  /** Whether a ranks above b: nearer first, then the lower ID. */
  predicate Before(a: Result, b: Result) {
    if a.dist != b.dist then a.dist < b.dist else a.id < b.id
  }

  ghost predicate Sorted(s: seq<Result>) {
    forall i, j :: 0 <= i < j < |s| ==> !Before(s[j], s[i])
  }

  function Take<T>(s: seq<T>, k: nat): (r: seq<T>) {
    if |s| <= k then s else s[..k]
  }

  /** The first position at or after i whose item ranks below x. */
  function Place(s: seq<Result>, x: Result, i: nat): (p: nat)
    requires i <= |s|
    requires forall j :: 0 <= j < i ==> !Before(x, s[j])
    ensures i <= p <= |s|
    ensures forall j :: 0 <= j < p ==> !Before(x, s[j])
    ensures p < |s| ==> Before(x, s[p])
    decreases |s| - i
  {
    if i == |s| || Before(x, s[i]) then i else Place(s, x, i + 1)
  }

  /** x placed behind everything that ranks at least as high. */
  function Insert(s: seq<Result>, x: Result): (r: seq<Result>)
    ensures |r| == |s| + 1
  {
    var p := Place(s, x, 0);
    s[..p] + [x] + s[p..]
  }

  lemma InsertMultiset(s: seq<Result>, x: Result)
    ensures multiset(Insert(s, x)) == multiset(s) + multiset{x}
  {
    var p := Place(s, x, 0);
    assert s == s[..p] + s[p..];
  }

  lemma InsertSorted(s: seq<Result>, x: Result)
    requires Sorted(s)
    ensures Sorted(Insert(s, x))
    ensures forall i :: Place(s, x, 0) <= i < |s| ==> Before(x, s[i])
  {
    var p := Place(s, x, 0);
    forall i | p <= i < |s| ensures Before(x, s[i]) {
      if p < i { assert !Before(s[i], s[p]); }
    }
    var r := Insert(s, x);
    forall i, j | 0 <= i < j < |r| ensures !Before(r[j], r[i]) {
      assert i < p ==> r[i] == s[i];
      assert i > p ==> r[i] == s[i - 1];
      assert j < p ==> r[j] == s[j];
      assert j > p ==> r[j] == s[j - 1];
    }
  }

  /** The whole of s in rank order: insertion in the order of arrival. */
  function SortAll(s: seq<Result>): (r: seq<Result>)
    ensures |r| == |s|
  {
    if s == [] then [] else Insert(SortAll(s[..|s| - 1]), s[|s| - 1])
  }

  /** The brute-force answer is a sorted permutation of its input. */
  lemma {:induction false} SortAllSorts(s: seq<Result>)
    ensures Sorted(SortAll(s)) && multiset(SortAll(s)) == multiset(s)
  {
    if s != [] {
      var t, x := s[..|s| - 1], s[|s| - 1];
      SortAllSorts(t);
      InsertSorted(SortAll(t), x);
      InsertMultiset(SortAll(t), x);
      assert s == t + [x];
    }
  }

  /** A sorted list of capacity k after x was offered to it. */
  function Offer(s: seq<Result>, x: Result, k: nat): (r: seq<Result>) {
    Take(Insert(s, x), k)
  }

  function OfferAll(s: seq<Result>, xs: seq<Result>, k: nat): (r: seq<Result>) {
    if xs == [] then s else Offer(OfferAll(s, xs[..|xs| - 1], k), xs[|xs| - 1], k)
  }

  // ---------- Properties of the ranking ----------

  /** The head of a sorted list is the best of its multiset. */
  lemma HeadIsBest(s: seq<Result>, y: Result)
    requires Sorted(s) && y in multiset(s)
    ensures s != [] && !Before(y, s[0])
  {
    var j :| 0 <= j < |s| && s[j] == y;
    if j > 0 { assert !Before(s[j], s[0]); }
  }

  lemma TailMultiset(s: seq<Result>)
    requires s != []
    ensures s[0] in multiset(s) && multiset(s[1..]) == multiset(s) - multiset{s[0]}
  {
    assert s == [s[0]] + s[1..];
  }

  /** Rank order is total, so a sorted list is determined by its contents. */
  lemma {:induction false} SortedUnique(a: seq<Result>, b: seq<Result>)
    requires Sorted(a) && Sorted(b)
    requires multiset(a) == multiset(b)
    ensures a == b
  {
    if a == [] {
      assert |multiset(b)| == |b|;
    } else {
      TailMultiset(a);
      HeadIsBest(b, a[0]);
      TailMultiset(b);
      HeadIsBest(a, b[0]);
      SortedTail(a);
      SortedTail(b);
      SortedUnique(a[1..], b[1..]);
      assert a == [a[0]] + a[1..] && b == [b[0]] + b[1..];
    }
  }

  lemma SortedTail(s: seq<Result>)
    requires Sorted(s) && s != []
    ensures Sorted(s[1..])
  {
    forall i, j | 0 <= i < j < |s[1..]| ensures !Before(s[1..][j], s[1..][i]) {
      assert !Before(s[j + 1], s[i + 1]);
    }
  }

  /** The answer cannot depend on the order of arrival. */
  lemma SortAllOrderFree(a: seq<Result>, b: seq<Result>)
    requires multiset(a) == multiset(b)
    ensures SortAll(a) == SortAll(b)
  {
    SortAllSorts(a);
    SortAllSorts(b);
    SortedUnique(SortAll(a), SortAll(b));
  }

  lemma SortedIsSorted(s: seq<Result>)
    requires Sorted(s)
    ensures SortAll(s) == s
  {
    SortAllSorts(s);
    SortedUnique(SortAll(s), s);
  }

  lemma SortAllAppend(s: seq<Result>, x: Result)
    ensures SortAll(s + [x]) == Insert(SortAll(s), x)
  {
    assert (s + [x])[..|s|] == s;
  }

  lemma {:induction false} PlaceInPrefix(s: seq<Result>, x: Result, k: nat, i: nat)
    requires i <= k <= |s|
    requires forall j :: 0 <= j < i ==> !Before(x, s[j])
    ensures Place(s[..k], x, i) == if Place(s, x, i) < k then Place(s, x, i) else k
    decreases k - i
  {
    if i < k && !Before(x, s[i]) {
      PlaceInPrefix(s, x, k, i + 1);
    }
  }

  /** Truncating before or after an insertion gives the same k best. */
  lemma TakeInsert(s: seq<Result>, x: Result, k: nat)
    ensures Take(Insert(Take(s, k), x), k) == Take(Insert(s, x), k)
  {
    if k < |s| {
      PlaceInPrefix(s, x, k, 0);
      var p := Place(s, x, 0);
      if p < k {
        assert (s[..k][..p] + [x] + s[..k][p..])[..k] == (s[..p] + [x] + s[p..])[..k];
      } else {
        assert Take(Insert(s[..k], x), k) == s[..k];
        assert (s[..p] + [x] + s[p..])[..k] == s[..k];
      }
    }
  }

  /** A bounded collector holds exactly the first k of everything offered. */
  lemma {:induction false} BoundedIsBruteForce(xs: seq<Result>, k: nat)
    ensures OfferAll([], xs, k) == Take(SortAll(xs), k)
  {
    if xs == [] {
    } else {
      var n := |xs| - 1;
      BoundedIsBruteForce(xs[..n], k);
      TakeInsert(SortAll(xs[..n]), xs[n], k);
    }
  }

  ghost predicate NotAfter(a: Result, b: Result) {
    a.dist < b.dist || (a.dist == b.dist && a.id <= b.id)
  }

  lemma SplitAtK(all: seq<Result>, xs: seq<Result>, k: nat)
    requires multiset(all) == multiset(xs)
    ensures var r := Take(all, k);
      && |r| == (if |xs| < k then |xs| else k) && r == all[..|r|]
      && multiset(r) <= multiset(xs) && multiset(xs) - multiset(r) == multiset(all[|r|..])
  {
    var r := Take(all, k);
    assert |multiset(all)| == |multiset(xs)|;
    assert all == r + all[|r|..];
  }

  lemma RestIsAfter(all: seq<Result>, n: nat, x: Result)
    requires Sorted(all) && 0 < n <= |all| && x in multiset(all[n..])
    ensures NotAfter(all[n - 1], x)
  {
    var rest := all[n..];
    var j :| 0 <= j < |rest| && rest[j] == x;
    assert !Before(all[n + j], all[n - 1]);
  }

  /** In the open: after any offers a collector of capacity k holds as many of them
  as there are, but no more than k, in order of distance and, among equals, of ID;
  and nothing left out comes before the last one held. */
  lemma CollectedAreBest(xs: seq<Result>, k: nat)
    ensures var r := OfferAll([], xs, k);
      && |r| == (if |xs| < k then |xs| else k)
      && multiset(r) <= multiset(xs)
      && (forall i, j :: 0 <= i < j < |r| ==> NotAfter(r[i], r[j]))
      && (forall x :: x in multiset(xs) - multiset(r) && r != [] ==> NotAfter(r[|r| - 1], x))
  {
    hide SortAll, OfferAll, NotAfter, Take;
    BoundedIsBruteForce(xs, k);
    SortAllSorts(xs);
    var all, r := SortAll(xs), OfferAll([], xs, k);
    SplitAtK(all, xs, k);
    forall x | x in multiset(xs) - multiset(r) && r != [] ensures NotAfter(r[|r| - 1], x) {
      RestIsAfter(all, |r|, x);
    }
    forall i, j | 0 <= i < j < |r| ensures NotAfter(r[i], r[j]) {
      InOrderMeans(all, i, j);
    }
  }

  lemma InOrderMeans(all: seq<Result>, i: nat, j: nat)
    requires Sorted(all) && i < j < |all|
    ensures NotAfter(all[i], all[j])
  {
    assert !Before(all[j], all[i]);
  }

  /** ... and what it holds does not depend on the order of the offers. */
  lemma OffersCommute(xs: seq<Result>, ys: seq<Result>, k: nat)
    requires multiset(xs) == multiset(ys)
    ensures OfferAll([], xs, k) == OfferAll([], ys, k)
  {
    BoundedIsBruteForce(xs, k);
    BoundedIsBruteForce(ys, k);
    SortAllOrderFree(xs, ys);
  }

  /** An offer to a full list that the worst already beats changes nothing. */
  lemma OfferRejects(s: seq<Result>, x: Result)
    requires s != [] && Sorted(s) && !Before(x, s[|s| - 1])
    ensures Offer(s, x, |s|) == s
  {
    InsertSorted(s, x);
    var p := Place(s, x, 0);
    assert p == |s|;
    assert (s[..p] + [x] + s[p..])[..|s|] == s;
  }

  /** No rank gets worse by an offer, and nothing is invented. */
  lemma OfferImproves(s: seq<Result>, x: Result, k: nat)
    requires Sorted(s) && |s| <= k
    ensures var r := Offer(s, x, k);
      && |r| == (if |s| < k then |s| + 1 else k)
      && (forall i :: 0 <= i < |s| ==> !Before(s[i], r[i]))
      && (forall i :: 0 <= i < |r| ==> r[i] == x || r[i] in s)
  {
    InsertSorted(s, x);
    var p, t := Place(s, x, 0), Insert(s, x);
    forall i | 0 <= i < |s| ensures !Before(s[i], t[i]) {
      if i > p { assert t[i] == s[i - 1]; assert !Before(s[i], s[i - 1]); }
    }
  }

  /** Whatever an offer leaves out ranks at or below the last item kept. */
  lemma OfferDropsWorst(s: seq<Result>, x: Result, k: nat, y: Result)
    requires Sorted(s) && |s| <= k && 1 <= k
    requires y == x || y in s
    requires y !in Offer(s, x, k)
    ensures |Offer(s, x, k)| == k && !Before(y, Offer(s, x, k)[k - 1])
  {
    InsertSorted(s, x);
    var p, t := Place(s, x, 0), Insert(s, x);
    assert t[p] == x;
    assert y in t by {
      if y in s {
        var i :| 0 <= i < |s| && s[i] == y;
        if i < p { assert t[i] == y; } else { assert t[i + 1] == y; }
      }
    }
    var i :| 0 <= i < |t| && t[i] == y;
    var o := Offer(s, x, k);
    assert forall j :: 0 <= j < |o| ==> o[j] == t[j] && o[j] in o;
    assert |o| <= i;
  }

  // ---------- The heap ----------

  function Parent(i: nat): (p: nat)
    requires i > 0
  {
    (i - 1) / 2
  }

  function Swap(s: seq<Result>, i: nat, j: nat): (r: seq<Result>)
    requires i < |s| && j < |s|
    ensures |r| == |s|
    ensures multiset(r) == multiset(s)
  {
    var r := s[i := s[j]][j := s[i]];
    r
  }

  /** No item ranks below its parent, so the root is the worst. */
  ghost predicate MaxHeap(s: seq<Result>) {
    forall i :: 0 < i < |s| ==> !Before(s[Parent(i)], s[i])
  }

  lemma {:induction false} RootIsWorst(s: seq<Result>, i: nat)
    requires MaxHeap(s) && i < |s|
    ensures !Before(s[0], s[i])
  {
    if i > 0 { RootIsWorst(s, Parent(i)); }
  }

  lemma LastIsWorst(s: seq<Result>, y: Result)
    requires Sorted(s) && y in multiset(s)
    ensures s != [] && !Before(s[|s| - 1], y)
  {
    var j :| 0 <= j < |s| && s[j] == y;
    if j < |s| - 1 { assert !Before(s[|s| - 1], s[j]); }
  }

  lemma WorstIsUnique(s: seq<Result>, r: seq<Result>)
    requires MaxHeap(s) && s != [] && Sorted(r) && multiset(r) == multiset(s) && |r| == |s|
    ensures r[|s| - 1] == s[0]
  {
    var last := r[|s| - 1];
    assert last in multiset(s);
    var i :| 0 <= i < |s| && s[i] == last;
    RootIsWorst(s, i);
    LastIsWorst(r, s[0]);
  }

  /** The root of a max-heap is the last item in rank order. */
  lemma RootIsLast(s: seq<Result>)
    requires MaxHeap(s) && s != []
    ensures SortAll(s)[|s| - 1] == s[0]
  {
    SortAllSorts(s);
    WorstIsUnique(s, SortAll(s));
  }

  lemma InitMultiset(s: seq<Result>)
    requires s != []
    ensures multiset(s[..|s| - 1]) == multiset(s) - multiset{s[|s| - 1]}
  {
    assert s == s[..|s| - 1] + [s[|s| - 1]];
  }

  /** Something that beats the last item takes the last item's place. */
  lemma OfferDropsLast(r: seq<Result>, x: Result)
    requires Sorted(r) && r != [] && Before(x, r[|r| - 1])
    ensures Sorted(Offer(r, x, |r|))
    ensures multiset(Offer(r, x, |r|)) == multiset(r) + multiset{x} - multiset{r[|r| - 1]}
  {
    InsertSorted(r, x);
    InsertMultiset(r, x);
    InitMultiset(Insert(r, x));
    assert Insert(r, x)[|r|] == r[|r| - 1];
  }

  lemma SwapOut(ms: multiset<Result>, a: Result, x: Result)
    requires a in ms
    ensures ms - multiset{a} + multiset{x} == ms + multiset{x} - multiset{a}
  {}

  /** Replacing the worst of a full list by a better item is an offer. */
  lemma ReplaceWorst(s: seq<Result>, x: Result)
    requires MaxHeap(s) && s != [] && Before(x, s[0])
    ensures SortAll(s[0 := x]) == Offer(SortAll(s), x, |s|)
  {
    RootIsLast(s);
    SortAllSorts(s);
    SortAllSorts(s[0 := x]);
    OfferDropsLast(SortAll(s), x);
    SwapOut(multiset(s), s[0], x);
    SortedUnique(SortAll(s[0 := x]), Offer(SortAll(s), x, |s|));
  }

  /** A max-heap but for the item at i, which may rank above its children. */
  ghost predicate HeapBut(s: seq<Result>, i: nat) {
    && (forall j :: 0 < j < |s| && Parent(j) != i ==> !Before(s[Parent(j)], s[j]))
    && (forall j :: 0 < j < |s| && Parent(j) == i && i > 0 ==> !Before(s[Parent(i)], s[j]))
  }

  /** One step of sifting down: the worse child comes up. */
  lemma SiftDownStep(s: seq<Result>, i: nat, c: nat)
    requires HeapBut(s, i) && 0 < c < |s| && Parent(c) == i && Before(s[i], s[c])
    requires forall j :: 0 < j < |s| && Parent(j) == i ==> !Before(s[c], s[j])
    ensures HeapBut(Swap(s, i, c), c)
  {
    var r := Swap(s, i, c);
    forall j | 0 < j < |r| && Parent(j) != c ensures !Before(r[Parent(j)], r[j]) {
      if j == i {
      } else if Parent(j) == i {
      } else {
        assert r[j] == s[j] && r[Parent(j)] == s[Parent(j)];
      }
    }
    forall j | 0 < j < |r| && Parent(j) == c ensures !Before(r[Parent(c)], r[j]) {
      assert r[j] == s[j] && r[i] == s[c];
    }
  }

  /** A max-heap but for the item at i, which may rank below its parent. */
  ghost predicate HeapUpTo(s: seq<Result>, i: nat) {
    && (forall j :: 0 < j < |s| && j != i ==> !Before(s[Parent(j)], s[j]))
    && (forall j :: 0 < j < |s| && Parent(j) == i && i > 0 ==> !Before(s[Parent(i)], s[j]))
  }

  /** One step of sifting up: the parent goes down. */
  lemma SiftUpStep(s: seq<Result>, i: nat)
    requires HeapUpTo(s, i) && 0 < i < |s| && Before(s[Parent(i)], s[i])
    ensures HeapUpTo(Swap(s, Parent(i), i), Parent(i))
  {
    var p := Parent(i);
    var r := Swap(s, p, i);
    forall j | 0 < j < |r| && j != p ensures !Before(r[Parent(j)], r[j]) {
      if j == i {
      } else if Parent(j) == i {
        assert r[j] == s[j] && r[i] == s[p];
      } else if Parent(j) == p {
        assert r[j] == s[j] && r[p] == s[i];
      } else {
        assert r[j] == s[j] && r[Parent(j)] == s[Parent(j)];
      }
    }
    forall j | 0 < j < |r| && Parent(j) == p && p > 0 ensures !Before(r[Parent(p)], r[j]) {
      assert r[Parent(p)] == s[Parent(p)];
      assert !Before(s[Parent(p)], s[p]);
      assert r[j] == s[j] || r[j] == s[p];
    }
  }

  lemma AppendedHeap(s: seq<Result>, x: Result)
    requires MaxHeap(s)
    ensures HeapUpTo(s + [x], |s|)
  {}

  lemma ReplacedRoot(s: seq<Result>, x: Result)
    requires MaxHeap(s) && s != []
    ensures HeapBut(s[0 := x], 0)
  {}

  class Collector {
    const k: nat
    var items: seq<Result>

    ghost predicate Valid()
      reads this
    {
      1 <= k && |items| <= k && MaxHeap(items)
    }

    /** What is held, nearest first. */
    ghost function View(): (s: seq<Result>)
      reads this
    {
      SortAll(items)
    }

    constructor (width: int)
      ensures Valid() && View() == []
      ensures k == if width < 1 then 1 else width
    {
      k := if width < 1 then 1 else width;
      items := [];
    }

    method Reset()
      requires Valid()
      modifies this
      ensures Valid() && View() == []
    {
      items := [];
    }

    /** The k-th best distance, once k items are held. */
    method Worst() returns (worst: real, full: bool)
      requires Valid()
      ensures full <==> |View()| == k
      ensures full ==> worst == View()[k - 1].dist
    {
      if |items| < k { return 0.0, false; }
      RootIsLast(items);
      return items[0].dist, true;
    }

    method Add(id: nat, dist: real)
      requires Valid()
      modifies this
      ensures Valid()
      ensures View() == Offer(old(View()), Result(id, dist), k)
    {
      hide SortAll, Insert, MaxHeap, Before;
      var cand := Result(id, dist);
      ghost var was := items;
      if |items| < k {
        AppendedHeap(items, cand);
        items := items + [cand];
        Up(|items| - 1);
        SortAllAppend(was, cand);
        SortAllOrderFree(items, was + [cand]);
        return;
      }
      if Before(cand, items[0]) {
        ReplacedRoot(items, cand);
        items := items[0 := cand];
        Down(0);
        ReplaceWorst(was, cand);
        SortAllOrderFree(items, was[0 := cand]);
      } else {
        RootIsLast(items);
        SortAllSorts(items);
        OfferRejects(SortAll(items), cand);
      }
    }

    /** A sorted copy; the library sort is taken to sort by `Before`. */
    method Results() returns (out: seq<Result>)
      requires Valid()
      ensures out == View()
    {
      out := SortAll(items);
    }

    method Up(start: nat)
      requires start < |items| && HeapUpTo(items, start)
      modifies this
      ensures MaxHeap(items) && |items| == old(|items|) && multiset(items) == old(multiset(items))
    {
      var i := start;
      while i > 0
        invariant 0 <= i < |items| == old(|items|)
        invariant multiset(items) == old(multiset(items))
        invariant HeapUpTo(items, i)
      {
        var parent := (i - 1) / 2;
        if !Before(items[parent], items[i]) { break; }
        SiftUpStep(items, i);
        items := Swap(items, parent, i);
        i := parent;
      }
    }

    method Down(start: nat)
      requires start < |items| && HeapBut(items, start)
      modifies this
      ensures MaxHeap(items) && |items| == old(|items|) && multiset(items) == old(multiset(items))
    {
      var i, n := start, |items|;
      while true
        invariant i < |items| == n
        invariant multiset(items) == old(multiset(items))
        invariant HeapBut(items, i)
        decreases n - i
      {
        var worst := i;
        var l, r := 2 * i + 1, 2 * i + 2;
        if l < n && Before(items[worst], items[l]) { worst := l; }
        if r < n && Before(items[worst], items[r]) { worst := r; }
        assert forall j :: 0 < j < n && Parent(j) == i ==> j == l || j == r;
        if worst == i { return; }
        SiftDownStep(items, i, worst);
        items := Swap(items, i, worst);
        i := worst;
      }
    }
  }
}
