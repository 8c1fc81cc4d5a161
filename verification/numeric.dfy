/** Numbers as the JavaScript sources use them: millisecond time values,
    `Math.round`, the truncation a `Date` applies to a fractional time value,
    left-to-right sums, and the one NaN the analyzers can produce. */
module Numeric {

  const MsPerMinute: int := 60 * 1000
  const MsPerHour: int := 60 * MsPerMinute
  const MsPerDay: int := 24 * MsPerHour

  /** A JavaScript number that is either an ordinary value or NaN. */
  datatype Num = Finite(value: real) | NaN

  function Min(a: real, b: real): real {
    if a <= b then a else b
  }

  function Max(a: real, b: real): real {
    if a >= b then a else b
  }

  /** `Math.round`: the integer nearest to `x`, halves going toward +infinity. */
  function Round(x: real): (r: int)
    ensures x - 0.5 < r as real <= x + 0.5
  {
    (x + 0.5).Floor
  }

  /** `Math.round(x * 10) / 10`. */
  function RoundToTenth(x: real): (r: real)
    ensures x - 0.05 < r <= x + 0.05
    ensures (r * 10.0).Floor as real == r * 10.0
  {
    Round(x * 10.0) as real / 10.0
  }

  /** A whole number of tenths within that window is the rounded value. */
  lemma RoundToTenthUnique(x: real, r: real)
    requires x - 0.05 < r <= x + 0.05
    requires (r * 10.0).Floor as real == r * 10.0
    ensures r == RoundToTenth(x)
  {
    var k := (r * 10.0).Floor;
    var y := x * 10.0;
    assert k as real - 0.5 <= y < k as real + 0.5;
    assert Round(y) == k;
    assert r == k as real / 10.0;
  }

  /** `Math.round(x * 100) / 100`. */
  function RoundToHundredth(x: real): (r: real)
    ensures x - 0.005 < r <= x + 0.005
    ensures (r * 100.0).Floor as real == r * 100.0
  {
    Round(x * 100.0) as real / 100.0
  }

  /** A whole number of hundredths within that window is the rounded value. */
  lemma RoundToHundredthUnique(x: real, r: real)
    requires x - 0.005 < r <= x + 0.005
    requires (r * 100.0).Floor as real == r * 100.0
    ensures r == RoundToHundredth(x)
  {
    var k := (r * 100.0).Floor;
    var y := x * 100.0;
    assert k as real - 0.5 <= y < k as real + 0.5;
    assert Round(y) == k;
    assert r == k as real / 100.0;
  }

  /** The truncation toward zero a `Date` applies to a fractional time value. */
  function Trunc(x: real): (r: int)
    ensures 0.0 <= x ==> r as real <= x < r as real + 1.0
    ensures x < 0.0 ==> r as real - 1.0 < x <= r as real
  {
    if x >= 0.0 then x.Floor else -((-x).Floor)
  }

  /** The left-to-right sum that `reduce((a, b) => a + b, 0)` computes. */
  function Sum(s: seq<real>): real {
    if |s| == 0 then 0.0 else Sum(s[..|s| - 1]) + s[|s| - 1]
  }

  function Mean(s: seq<real>): real
    requires |s| > 0
  {
    Sum(s) / |s| as real
  }

  /** Summing a sequence whose every element is `c`. */
  lemma {:induction false} SumOfConstant(s: seq<real>, c: real)
    requires forall i :: 0 <= i < |s| ==> s[i] == c
    ensures Sum(s) == |s| as real * c
  {
    if |s| > 0 {
      SumOfConstant(s[..|s| - 1], c);
    }
  }

  /** The mean of a sequence whose every element is `c` is `c`. */
  lemma MeanOfConstant(s: seq<real>, c: real)
    requires |s| > 0
    requires forall i :: 0 <= i < |s| ==> s[i] == c
    ensures Mean(s) == c
  {
    SumOfConstant(s, c);
    var n := |s| as real;
    assert Mean(s) * n == n * c;
  }

  /** A sum of values in [lo, hi) lies in [n * lo, n * hi), strictly below when n > 0. */
  lemma {:induction false} SumBounds(s: seq<real>, lo: real, hi: real)
    requires forall i :: 0 <= i < |s| ==> lo <= s[i] < hi
    ensures |s| as real * lo <= Sum(s) <= |s| as real * hi
    ensures |s| > 0 ==> Sum(s) < |s| as real * hi
  {
    if |s| > 0 {
      var p := s[..|s| - 1];
      assert forall i :: 0 <= i < |p| ==> p[i] == s[i];
      SumBounds(p, lo, hi);
      var m := |p| as real;
      assert Sum(s) == Sum(p) + s[|s| - 1];
      assert |s| as real * lo == m * lo + lo;
      assert |s| as real * hi == m * hi + hi;
    }
  }

  /** A sum of values in [lo, hi] lies in [n * lo, n * hi]. */
  lemma {:induction false} SumWithin(s: seq<real>, lo: real, hi: real)
    requires forall i :: 0 <= i < |s| ==> lo <= s[i] <= hi
    ensures |s| as real * lo <= Sum(s) <= |s| as real * hi
  {
    if |s| > 0 {
      var p := s[..|s| - 1];
      assert forall i :: 0 <= i < |p| ==> p[i] == s[i];
      SumWithin(p, lo, hi);
      var m := |p| as real;
      assert Sum(s) == Sum(p) + s[|s| - 1];
      assert |s| as real * lo == m * lo + lo;
      assert |s| as real * hi == m * hi + hi;
    }
  }

  /** The mean of values in [lo, hi] lies in [lo, hi]. */
  lemma MeanWithin(s: seq<real>, lo: real, hi: real)
    requires |s| > 0
    requires forall i :: 0 <= i < |s| ==> lo <= s[i] <= hi
    ensures lo <= Mean(s) <= hi
  {
    SumWithin(s, lo, hi);
    var n := |s| as real;
    assert Mean(s) * n == Sum(s);
  }

  /** The mean of values in [lo, hi) lies in [lo, hi). */
  lemma MeanBounds(s: seq<real>, lo: real, hi: real)
    requires |s| > 0
    requires forall i :: 0 <= i < |s| ==> lo <= s[i] < hi
    ensures lo <= Mean(s) < hi
  {
    SumBounds(s, lo, hi);
    var n := |s| as real;
    assert Mean(s) * n == Sum(s);
  }
}
