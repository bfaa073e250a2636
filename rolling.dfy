/** Moving averages as the scripts compute them. pandas'
    Series.rolling(window=w).mean() is undefined (NaN) for the first w-1
    positions, and numpy's np.convolve(x, np.ones(w)/w, mode='valid') is
    defined only where the kernel fits. Values are exact rational means;
    an undefined value is None, and every comparison with it is false, as
    every comparison with NaN is. */
module Rolling {
  import opened Basics

  function Sum(s: seq<int>): int
  {
    if s == [] then 0 else s[0] + Sum(s[1..])
  }

  lemma {:induction false} SumAppend(a: seq<int>, b: seq<int>)
    ensures Sum(a + b) == Sum(a) + Sum(b)
  {
    if a != [] {
      assert (a + b)[1..] == a[1..] + b;
      SumAppend(a[1..], b);
    } else {
      assert a + b == b;
    }
  }

  /** Sum of the w values ending at position i (inclusive). */
  function WindowSum(s: seq<int>, i: int, w: int): int
    requires 1 <= w <= i + 1 <= |s|
  {
    Sum(s[i - w + 1..i + 1])
  }

  /** pandas' s.rolling(window=w).mean() at position i: defined exactly
      from position w-1 on, where it is the mean of the last w values. */
  function RollingMean(s: seq<int>, w: int, i: int): (m: Option<real>)
    requires 1 <= w && 0 <= i < |s|
    ensures m.Some? <==> i >= w - 1
    ensures m.Some? ==> m.value * (w as real) == WindowSum(s, i, w) as real
  {
    if i < w - 1 then None else Some(WindowSum(s, i, w) as real / w as real)
  }

  /** The whole rolling-mean column of a frame. */
  function Column(s: seq<int>, w: int): (c: seq<Option<real>>)
    requires 1 <= w
    ensures |c| == |s|
    ensures forall i :: 0 <= i < |s| ==> c[i] == RollingMean(s, w, i)
  {
    seq(|s|, i requires 0 <= i < |s| => RollingMean(s, w, i))
  }

  /** a < b on possibly-NaN values: false when either side is NaN. */
  predicate Less(a: Option<real>, b: Option<real>)
  {
    a.Some? && b.Some? && a.value < b.value
  }

  /** a > b on possibly-NaN values. */
  predicate Greater(a: Option<real>, b: Option<real>)
  {
    a.Some? && b.Some? && a.value > b.value
  }

  /** a <= b on possibly-NaN values. */
  predicate AtMost(a: Option<real>, b: Option<real>)
  {
    a.Some? && b.Some? && a.value <= b.value
  }

  /** a < x for a possibly-NaN value and a constant. */
  predicate Below(a: Option<real>, x: real)
  {
    a.Some? && a.value < x
  }

  /** The short mean is below the long one on day -i-1 and above it on
      day -i (Python negative indexing on columns of equal length). */
  predicate CrossUpAt(short: seq<Option<real>>, long: seq<Option<real>>, i: int)
    requires |short| == |long| && 1 <= i < |short|
  {
    var n := |short|;
    Less(short[n - i - 1], long[n - i - 1]) && Greater(short[n - i], long[n - i])
  }

  /** Some i in range(1, bound) is an upward crossing. */
  predicate HasGoldenCross(short: seq<Option<real>>, long: seq<Option<real>>, bound: int)
    requires |short| == |long| && bound <= |short|
  {
    exists i :: 1 <= i < bound && CrossUpAt(short, long, i)
  }

  /** The flag loop `for i in range(1, bound): if <cross at i>: flag = True; break`. */
  method FindGoldenCross(short: seq<Option<real>>, long: seq<Option<real>>, bound: int)
    returns (goldenCross: bool)
    requires |short| == |long| && bound <= |short|
    ensures goldenCross <==> HasGoldenCross(short, long, bound)
  {
    goldenCross := false;
    var i := 1;
    while i < bound
      invariant 1 <= i
      invariant forall j :: 1 <= j < i && j < bound ==> !CrossUpAt(short, long, j)
    {
      if CrossUpAt(short, long, i) {
        goldenCross := true;
        break;
      }
      i := i + 1;
    }
  }

  /** Comparing a 5-bar mean with a 20-bar mean is comparing four times
      the 5-bar sum with the 20-bar sum; before position 19 the long mean
      is NaN and neither comparison holds. */
  lemma MeanCompare(s: seq<int>, i: int)
    requires 0 <= i < |s|
    ensures Less(RollingMean(s, 5, i), RollingMean(s, 20, i))
            <==> i >= 19 && 4 * WindowSum(s, i, 5) < WindowSum(s, i, 20)
    ensures Greater(RollingMean(s, 5, i), RollingMean(s, 20, i))
            <==> i >= 19 && 4 * WindowSum(s, i, 5) > WindowSum(s, i, 20)
  {
    if i >= 19 {
      var a := WindowSum(s, i, 5) as real;
      var b := WindowSum(s, i, 20) as real;
      assert RollingMean(s, 5, i).value == a / 5.0;
      assert RollingMean(s, 20, i).value == b / 20.0;
    }
  }

  /** A crossing at day -i, stated on integer window sums of the closes. */
  lemma CrossUpAtSums(closes: seq<int>, i: int)
    requires 1 <= i < |closes|
    ensures CrossUpAt(Column(closes, 5), Column(closes, 20), i)
            <==> (var n := |closes|;
                  n - i - 1 >= 19
                  && 4 * WindowSum(closes, n - i - 1, 5) < WindowSum(closes, n - i - 1, 20)
                  && 4 * WindowSum(closes, n - i, 5) > WindowSum(closes, n - i, 20))
  {
    var n := |closes|;
    MeanCompare(closes, n - i - 1);
    MeanCompare(closes, n - i);
  }

  /** A crossing needs a defined 20-bar mean on day -i-1, so at least 21
      bars: a shorter series never crosses. */
  lemma CrossNeedsHistory(closes: seq<int>, bound: int)
    requires bound <= |closes|
    requires HasGoldenCross(Column(closes, 5), Column(closes, 20), bound)
    ensures |closes| >= 21
  {
    var i :| 1 <= i < bound && CrossUpAt(Column(closes, 5), Column(closes, 20), i);
    CrossUpAtSums(closes, i);
  }

  /** numpy's np.convolve(a, v, mode='valid'): position k is the sum of
      a[k + j] * v[len(v) - 1 - j], the kernel being flipped. */
  function Convolve(a: seq<int>, v: seq<real>): (c: seq<real>)
    requires 1 <= |v| <= |a|
    ensures |c| == |a| - |v| + 1
  {
    seq(|a| - |v| + 1, k requires 0 <= k <= |a| - |v| => FlippedDot(a[k..k + |v|], v))
  }

  /** Sum of x[j] * v[|v| - 1 - j]. */
  function FlippedDot(x: seq<int>, v: seq<real>): real
    requires |x| == |v|
  {
    if x == [] then 0.0 else x[0] as real * v[|v| - 1] + FlippedDot(x[1..], v[..|v| - 1])
  }

  /** np.ones(w) / w. */
  function MeanKernel(w: nat): (v: seq<real>)
    requires w >= 1
    ensures |v| == w
  {
    seq(w, _ => 1.0 / w as real)
  }

  lemma {:induction false} FlippedDotConstant(x: seq<int>, v: seq<real>, c: real)
    requires |x| == |v| && forall j :: 0 <= j < |v| ==> v[j] == c
    ensures FlippedDot(x, v) == Sum(x) as real * c
  {
    if x != [] {
      FlippedDotConstant(x[1..], v[..|v| - 1], c);
    }
  }

  /** The 'valid' convolution with the mean kernel is pandas' rolling mean,
      shifted: entry k is the mean of the w values ending at k + w - 1. */
  lemma ConvolveMean(a: seq<int>, w: nat, k: nat)
    requires 1 <= w <= |a| && k <= |a| - w
    ensures Convolve(a, MeanKernel(w))[k] == RollingMean(a, w, k + w - 1).value
    ensures Convolve(a, MeanKernel(w))[k] * (w as real) == Sum(a[k..k + w]) as real
  {
    FlippedDotConstant(a[k..k + w], MeanKernel(w), 1.0 / w as real);
    assert a[k..k + w] == a[(k + w - 1) - w + 1..(k + w - 1) + 1];
  }
}
