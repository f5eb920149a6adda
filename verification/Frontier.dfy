/** The unbounded min-heap of `internal/index/candidates.go`: nodes a search has
still to expand, the nearest at the root. */
module Frontier {
  import opened TopK

  /** No item ranks above its parent, so the root is the best. */
  ghost predicate MinHeap(s: seq<Result>) {
    forall i :: 0 < i < |s| ==> !Before(s[i], s[Parent(i)])
  }

  lemma {:induction false} RootIsBest(s: seq<Result>, i: nat)
    requires MinHeap(s) && i < |s|
    ensures !Before(s[i], s[0])
  {
    if i > 0 { RootIsBest(s, Parent(i)); }
  }

  /** The root of a min-heap is the first item in rank order. */
  lemma RootIsFirst(s: seq<Result>)
    requires MinHeap(s) && s != []
    ensures SortAll(s)[0] == s[0]
  {
    var r := SortAll(s);
    SortAllSorts(s);
    assert r[0] in multiset(s);
    var i :| 0 <= i < |s| && s[i] == r[0];
    RootIsBest(s, i);
    assert s[0] in multiset(s);
    HeadIsBest(r, s[0]);
  }

  /** The list popping leaves: the last item moves to the root. */
  function Popped(s: seq<Result>): (r: seq<Result>)
    requires s != []
    ensures |r| == |s| - 1
  {
    var last := |s| - 1;
    if last == 0 then [] else s[..last][0 := s[last]]
  }

  lemma PoppedMultiset(s: seq<Result>)
    requires s != []
    ensures multiset(Popped(s)) == multiset(s) - multiset{s[0]}
  {
    var last := |s| - 1;
    if last > 0 {
      InitMultiset(s);
      assert s[..last][0] == s[0];
      assert s[0] in multiset(s[..last]);
    } else {
      assert s == [s[0]];
    }
  }

  /** Moving the last item to the root removes exactly the best. */
  lemma PopIsTail(s: seq<Result>)
    requires MinHeap(s) && s != []
    ensures SortAll(Popped(s)) == SortAll(s)[1..]
  {
    var r := SortAll(s);
    SortAllSorts(s);
    SortAllSorts(Popped(s));
    RootIsFirst(s);
    PoppedMultiset(s);
    TailMultiset(r);
    SortedTail(r);
    SortedUnique(SortAll(Popped(s)), r[1..]);
  }

  /** A min-heap but for the item at i, which may rank below its children. */
  ghost predicate HeapBelow(s: seq<Result>, i: nat) {
    && (forall j :: 0 < j < |s| && Parent(j) != i ==> !Before(s[j], s[Parent(j)]))
    && (forall j :: 0 < j < |s| && Parent(j) == i && i > 0 ==> !Before(s[j], s[Parent(i)]))
  }

  /** A min-heap but for the item at i, which may rank above its parent. */
  ghost predicate HeapAbove(s: seq<Result>, i: nat) {
    && (forall j :: 0 < j < |s| && j != i ==> !Before(s[j], s[Parent(j)]))
    && (forall j :: 0 < j < |s| && Parent(j) == i && i > 0 ==> !Before(s[j], s[Parent(i)]))
  }

  /** One step of sifting down: the better child comes up. */
  lemma SinkStep(s: seq<Result>, i: nat, c: nat)
    requires HeapBelow(s, i) && 0 < c < |s| && Parent(c) == i && Before(s[c], s[i])
    requires forall j :: 0 < j < |s| && Parent(j) == i ==> !Before(s[j], s[c])
    ensures HeapBelow(Swap(s, i, c), c)
  {
    var r := Swap(s, i, c);
    forall j | 0 < j < |r| && Parent(j) != c ensures !Before(r[j], r[Parent(j)]) {
      if j == i {
      } else if Parent(j) == i {
      } else {
        assert r[j] == s[j] && r[Parent(j)] == s[Parent(j)];
      }
    }
    forall j | 0 < j < |r| && Parent(j) == c ensures !Before(r[j], r[Parent(c)]) {
      assert r[j] == s[j] && r[i] == s[c];
    }
  }

  /** One step of sifting up: the parent goes down. */
  lemma RiseStep(s: seq<Result>, i: nat)
    requires HeapAbove(s, i) && 0 < i < |s| && Before(s[i], s[Parent(i)])
    ensures HeapAbove(Swap(s, Parent(i), i), Parent(i))
  {
    var p := Parent(i);
    var r := Swap(s, p, i);
    forall j | 0 < j < |r| && j != p ensures !Before(r[j], r[Parent(j)]) {
      if j == i {
      } else if Parent(j) == i {
        assert r[j] == s[j] && r[i] == s[p];
      } else if Parent(j) == p {
        assert r[j] == s[j] && r[p] == s[i];
      } else {
        assert r[j] == s[j] && r[Parent(j)] == s[Parent(j)];
      }
    }
    forall j | 0 < j < |r| && Parent(j) == p && p > 0 ensures !Before(r[j], r[Parent(p)]) {
      assert r[Parent(p)] == s[Parent(p)];
      assert !Before(s[p], s[Parent(p)]);
      assert r[j] == s[j] || r[j] == s[p];
    }
  }

  lemma PoppedHeap(s: seq<Result>)
    requires MinHeap(s) && s != []
    ensures HeapBelow(Popped(s), 0)
  {
    var r := Popped(s);
    forall j | 0 < j < |r| && Parent(j) != 0 ensures !Before(r[j], r[Parent(j)]) {
      assert r[j] == s[j] && r[Parent(j)] == s[Parent(j)];
    }
  }

  class Candidates {
    var items: seq<Result>

    ghost predicate Valid()
      reads this
    {
      MinHeap(items)
    }

    /** What is queued, nearest first. */
    ghost function View(): (s: seq<Result>)
      reads this
    {
      SortAll(items)
    }

    constructor ()
      ensures Valid() && View() == []
    {
      items := [];
    }

    method Reset()
      modifies this
      ensures Valid() && View() == []
    {
      items := [];
    }

    method Push(r: Result)
      requires Valid()
      modifies this
      ensures Valid() && View() == Insert(old(View()), r)
    {
      ghost var was := items;
      items := items + [r];
      var i := |items| - 1;
      while i > 0
        invariant 0 <= i < |items|
        invariant multiset(items) == multiset(was + [r])
        invariant HeapAbove(items, i)
      {
        var parent := (i - 1) / 2;
        if !Before(items[i], items[parent]) { break; }
        RiseStep(items, i);
        items := Swap(items, parent, i);
        i := parent;
      }
      SortAllAppend(was, r);
      SortAllOrderFree(items, was + [r]);
    }

    /** Takes the nearest off; the source indexes an empty slice when there is none. */
    method Pop() returns (top: Result)
      requires Valid() && items != []
      modifies this
      ensures Valid()
      ensures top == old(View())[0] && View() == old(View())[1..]
    {
      top := items[0];
      RootIsFirst(items);
      PopIsTail(items);
      PoppedHeap(items);
      items := Popped(items);
      ghost var popped := items;
      if items != [] { Sink(); }
      SortAllOrderFree(items, popped);
    }

    /** The sift-down loop of `Pop`, from the root. */
    method Sink()
      requires items != [] && HeapBelow(items, 0)
      modifies this
      ensures MinHeap(items) && |items| == old(|items|) && multiset(items) == old(multiset(items))
    {
      var i, n := 0, |items|;
      while true
        invariant 0 <= i < |items| == n
        invariant multiset(items) == old(multiset(items))
        invariant HeapBelow(items, i)
        decreases n - i
      {
        var best := i;
        var l, r := 2 * i + 1, 2 * i + 2;
        if l < n && Before(items[l], items[best]) { best := l; }
        if r < n && Before(items[r], items[best]) { best := r; }
        assert forall j :: 0 < j < n && Parent(j) == i ==> j == l || j == r;
        if best == i { return; }
        SinkStep(items, i, best);
        items := Swap(items, i, best);
        i := best;
      }
    }
  }
}
