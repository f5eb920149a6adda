/** The packed bottom layer: one array holding every bottom list end to end, and
the offsets where each begins. Filled by `compactBottom` in
`internal/index/hnsw.go` and by the two-pass loader in `internal/index/store.go`. */
module Packing {
  import opened Graph

  predicate HasBottom(links: Links) {
    forall i :: 0 <= i < |links| ==> 1 <= |links[i]|
  }

  /** How many bottom links the first n nodes hold. */
  function Total(links: Links, n: nat): (t: nat)
    requires n <= |links| && HasBottom(links)
  {
    if n == 0 then 0 else Total(links, n - 1) + |links[n - 1][0]|
  }

  /** Their bottom lists, end to end. */
  ghost function Concat(links: Links, n: nat): (s: seq<nat>)
    requires n <= |links| && HasBottom(links)
    ensures |s| == Total(links, n)
  {
    if n == 0 then [] else Concat(links, n - 1) + links[n - 1][0]
  }

  lemma {:induction false} TotalRises(links: Links, i: nat, n: nat)
    requires i <= n <= |links| && HasBottom(links)
    ensures Total(links, i) <= Total(links, n)
  {
    if i < n { TotalRises(links, i, n - 1); }
  }

  lemma {:induction false} ConcatPrefix(links: Links, i: nat, n: nat)
    requires i <= n <= |links| && HasBottom(links)
    ensures Total(links, i) <= Total(links, n) && Concat(links, n)[..Total(links, i)] == Concat(links, i)
  {
    if i < n {
      ConcatPrefix(links, i, n - 1);
    }
  }

  /** The packed layer says the same as the lists: the offsets are the running
  totals of the list lengths, and slice i of the array is list i. */
  ghost predicate Packed(links: Links, bottom: seq<nat>, offsets: seq<nat>) {
    && HasBottom(links)
    && |offsets| == |links| + 1
    && (forall i :: 0 <= i <= |links| ==> offsets[i] == Total(links, i))
    && bottom == Concat(links, |links|)
  }

  /** Slice i is in range and is exactly node i's bottom list. */
  lemma SliceIsList(links: Links, bottom: seq<nat>, offsets: seq<nat>, i: nat)
    requires Packed(links, bottom, offsets) && i < |links|
    ensures offsets[i] <= offsets[i + 1] <= |bottom|
    ensures bottom[offsets[i]..offsets[i + 1]] == links[i][0]
  {
    ConcatPrefix(links, i + 1, |links|);
    TotalRises(links, i + 1, |links|);
    var s := Concat(links, |links|);
    assert s[..Total(links, i + 1)] == Concat(links, i) + links[i][0];
    assert s[Total(links, i)..Total(links, i + 1)] == s[..Total(links, i + 1)][Total(links, i)..];
  }

  /** The slices tile the array: they start at 0, each begins where the one
  before ends, and the last ends at the end. */
  lemma SlicesTile(links: Links, bottom: seq<nat>, offsets: seq<nat>, p: nat) returns (i: nat)
    requires Packed(links, bottom, offsets) && p < |bottom|
    ensures offsets[0] == 0 && offsets[|links|] == |bottom|
    ensures i < |links| && offsets[i] <= p < offsets[i + 1]
    ensures forall j: nat :: j < |links| && offsets[j] <= p < offsets[j + 1] ==> j == i
  {
    i := 0;
    while offsets[i + 1] <= p
      invariant i < |links| && offsets[i] <= p
      decreases |links| - i
    {
      i := i + 1;
    }
    forall j: nat | j < |links| && offsets[j] <= p < offsets[j + 1] ensures j == i {
      if j < i { TotalRises(links, j + 1, i); }
      if i < j { TotalRises(links, i + 1, j); }
    }
  }

  /** Lists whose lengths agree place every slice alike. */
  lemma {:induction false} SameLengthsSameTotals(l1: Links, l2: Links, n: nat)
    requires HasBottom(l1) && HasBottom(l2) && n <= |l1| && n <= |l2|
    requires forall i :: 0 <= i < n ==> |l1[i][0]| == |l2[i][0]|
    ensures Total(l1, n) == Total(l2, n)
  {
    if n > 0 { SameLengthsSameTotals(l1, l2, n - 1); }
  }
}
