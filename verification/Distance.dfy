/** Squared Euclidean distance in exact arithmetic: the scalar loop of
`internal/distance/distance.go` and the blocked kernel of
`internal/distance/l2_amd64.s`. */
module Distance {

  function Term(a: seq<real>, b: seq<real>, i: nat): (t: real)
    requires i < |a| == |b|
  {
    (a[i] - b[i]) * (a[i] - b[i])
  }

  /** The first n coordinates' contribution. */
  function SumTo(a: seq<real>, b: seq<real>, n: nat): (s: real)
    requires n <= |a| == |b|
  {
    if n == 0 then 0.0 else SumTo(a, b, n - 1) + Term(a, b, n - 1)
  }

  function L2Squared(a: seq<real>, b: seq<real>): (d: real)
    requires |a| == |b|
  {
    SumTo(a, b, |a|)
  }

  lemma {:induction false} SumOfPrefix(a: seq<real>, b: seq<real>, x: real, y: real, n: nat)
    requires n <= |a| == |b|
    ensures SumTo(a + [x], b + [y], n) == SumTo(a, b, n)
  {
    if n > 0 { SumOfPrefix(a, b, x, y, n - 1); }
  }

  /** No coordinates are no distance apart; one more adds its squared difference. */
  lemma OneCoordinateMore(a: seq<real>, b: seq<real>, x: real, y: real)
    requires |a| == |b|
    ensures L2Squared([], []) == 0.0
    ensures L2Squared(a + [x], b + [y]) == L2Squared(a, b) + (x - y) * (x - y)
  {
    SumOfPrefix(a, b, x, y, |a|);
  }

  lemma {:induction false} SumSymmetric(a: seq<real>, b: seq<real>, n: nat)
    requires n <= |a| == |b|
    ensures SumTo(a, b, n) == SumTo(b, a, n) && SumTo(a, b, n) >= 0.0
  {
    if n > 0 {
      SumSymmetric(a, b, n - 1);
      var x := a[n - 1] - b[n - 1];
      assert b[n - 1] - a[n - 1] == -x;
      assert (-x) * (-x) == x * x && x * x >= 0.0;
    }
  }

  /** The distance the graph relies on is symmetric and never negative. */
  lemma Symmetric(a: seq<real>, b: seq<real>)
    requires |a| == |b|
    ensures L2Squared(a, b) == L2Squared(b, a) && L2Squared(a, b) >= 0.0
  {
    SumSymmetric(a, b, |a|);
  }

  method L2SquaredScalar(a: seq<real>, b: seq<real>) returns (sum: real)
    requires |a| == |b|
    ensures sum == L2Squared(a, b)
  {
    sum := 0.0;
    for i := 0 to |a|
      invariant sum == SumTo(a, b, i)
    {
      var d := a[i] - b[i];
      sum := sum + d * d;
    }
  }

  // ---------- The blocked kernel ----------

  /** An eight-lane register. */
  type Register = r: seq<real> | |r| == 8 witness [0.0, 0.0, 0.0, 0.0, 0.0, 0.0, 0.0, 0.0]

  function LaneTotal(y: Register): (t: real) {
    y[0] + y[1] + y[2] + y[3] + y[4] + y[5] + y[6] + y[7]
  }

  function AddLanes(x: Register, y: Register): (z: Register)
    ensures LaneTotal(z) == LaneTotal(x) + LaneTotal(y)
  {
    [x[0] + y[0], x[1] + y[1], x[2] + y[2], x[3] + y[3], x[4] + y[4], x[5] + y[5], x[6] + y[6], x[7] + y[7]]
  }

  /** Load eight coordinates of each operand, subtract, square. */
  function SquaredBlock(a: seq<real>, b: seq<real>, at: nat): (z: Register)
    requires at + 8 <= |a| == |b|
    ensures SumTo(a, b, at) + LaneTotal(z) == SumTo(a, b, at + 8)
  {
    BlockTotal(a, b, at);
    [Term(a, b, at), Term(a, b, at + 1), Term(a, b, at + 2), Term(a, b, at + 3),
     Term(a, b, at + 4), Term(a, b, at + 5), Term(a, b, at + 6), Term(a, b, at + 7)]
  }

  lemma BlockTotal(a: seq<real>, b: seq<real>, at: nat)
    requires at + 8 <= |a| == |b|
    ensures SumTo(a, b, at + 8) == SumTo(a, b, at) + Term(a, b, at) + Term(a, b, at + 1) + Term(a, b, at + 2)
      + Term(a, b, at + 3) + Term(a, b, at + 4) + Term(a, b, at + 5) + Term(a, b, at + 6) + Term(a, b, at + 7)
  {
    assert SumTo(a, b, at + 4) == SumTo(a, b, at) + Term(a, b, at) + Term(a, b, at + 1)
      + Term(a, b, at + 2) + Term(a, b, at + 3) by {
      assert SumTo(a, b, at + 2) == SumTo(a, b, at) + Term(a, b, at) + Term(a, b, at + 1);
    }
    assert SumTo(a, b, at + 6) == SumTo(a, b, at + 4) + Term(a, b, at + 4) + Term(a, b, at + 5);
  }

  /** Fold the upper half onto the lower, then two horizontal adds. */
  function Reduce(y: Register): (t: real)
    ensures t == LaneTotal(y)
  {
    var x := [y[0] + y[4], y[1] + y[5], y[2] + y[6], y[3] + y[7]];
    var h := [x[0] + x[1], x[2] + x[3]];
    h[0] + h[1]
  }

  /** Blocks of sixteen, maybe one of eight, and a tail of up to seven. */
  lemma BlockLengths(n: nat)
    ensures 16 * (n / 16) + 8 * (n % 16 / 8) + n % 8 == n && 0 <= n % 16 / 8 <= 1
  {
    var q, r := n / 16, n % 16;
    assert n == 16 * q + r;
    assert (8 * (2 * q) + r) % 8 == r % 8;
    assert r == 8 * (r / 8) + r % 8;
  }

  lemma OneMoreTerm(a: seq<real>, b: seq<real>, at: nat)
    requires at < |a| == |b|
    ensures SumTo(a, b, at + 1) == SumTo(a, b, at) + (a[at] - b[at]) * (a[at] - b[at])
  {}

  lemma EmptyLanes(a: seq<real>, b: seq<real>, zero: Register)
    requires |a| == |b| && forall i :: 0 <= i < 8 ==> zero[i] == 0.0
    ensures LaneTotal(zero) == 0.0 == SumTo(a, b, 0)
  {}

  /** The kernel: two accumulators over blocks of sixteen, one more block of
  eight if there is room, the reduction, then the last coordinates one by one. */
  method L2SquaredAVX2(a: seq<real>, b: seq<real>) returns (sum: real)
    requires |a| == |b|
    ensures sum == L2Squared(a, b)
  {
    hide SumTo, Term, LaneTotal;
    BlockLengths(|a|);
    var zero: Register := [0.0, 0.0, 0.0, 0.0, 0.0, 0.0, 0.0, 0.0];
    EmptyLanes(a, b, zero);
    var y0, y4 := zero, zero;
    var at, blocks, eights, left := 0, |a| / 16, |a| % 16 / 8, |a| % 8;
    while blocks > 0
      invariant 0 <= at && 0 <= blocks && at + 16 * blocks + 8 * eights + left == |a|
      invariant LaneTotal(y0) + LaneTotal(y4) == SumTo(a, b, at)
    {
      y0 := AddLanes(y0, SquaredBlock(a, b, at));
      y4 := AddLanes(y4, SquaredBlock(a, b, at + 8));
      at := at + 16;
      blocks := blocks - 1;
    }
    y0 := AddLanes(y0, y4);
    if eights == 1 {
      y0 := AddLanes(y0, SquaredBlock(a, b, at));
      at := at + 8;
    }
    sum := Reduce(y0);
    while left > 0
      invariant 0 <= at && 0 <= left && at + left == |a|
      invariant sum == SumTo(a, b, at)
    {
      OneMoreTerm(a, b, at);
      var d := a[at] - b[at];
      sum := sum + d * d;
      at := at + 1;
      left := left - 1;
    }
  }

  /** Which loop runs depends on the machine; the distance does not. */
  method Measure(a: seq<real>, b: seq<real>, useAVX2: bool) returns (sum: real)
    requires |a| == |b|
    ensures sum == L2Squared(a, b)
  {
    if useAVX2 && |a| >= 8 {
      sum := L2SquaredAVX2(a, b);
    } else {
      sum := L2SquaredScalar(a, b);
    }
  }
}
