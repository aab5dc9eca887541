/** Numeric helpers: the JavaScript rounding operations the services use, on mathematical reals. */
module Numbers {

  /** A JavaScript number as a caller can pass it: finite, or one of Infinity, -Infinity, NaN. */
  datatype Num = Finite(value: real) | NonFinite

  function Abs(x: real): (r: real)
    ensures r >= 0.0 && (r == x || r == -x)
  {
    if x < 0.0 then -x else x
  }

  function Min(x: real, y: real): (r: real)
    ensures r <= x && r <= y && (r == x || r == y)
  {
    if x <= y then x else y
  }

  /** A value with at most two decimal places. */
  ghost predicate IsCents(x: real) {
    (x * 100.0).Floor as real == x * 100.0
  }

  /** Rounds a value to hundredths, ties upwards. */
  function RoundHalfUpCents(x: real): real {
    ((x * 100.0 + 0.5).Floor as real) / 100.0
  }

  lemma RoundHalfUpCentsSpec(x: real)
    ensures IsCents(RoundHalfUpCents(x))
    ensures x - 0.005 < RoundHalfUpCents(x) <= x + 0.005
  {
    var k := (x * 100.0 + 0.5).Floor;
    assert k as real <= x * 100.0 + 0.5 < k as real + 1.0;
    var r := (k as real) / 100.0;
    assert r * 100.0 == k as real;
  }

  /**
   * Number(x.toFixed(2)): toFixed rounds the magnitude and keeps the sign,
   * choosing the larger magnitude on a tie.
   */
  function Round2(x: real): real {
    if x < 0.0 then -RoundHalfUpCents(-x) else RoundHalfUpCents(x)
  }

  /** Round2 gives a cent value within half a cent of its argument, of the same sign, ties away from zero. */
  lemma Round2Spec(x: real)
    ensures IsCents(Round2(x))
    ensures x >= 0.0 ==> x - 0.005 < Round2(x) <= x + 0.005
    ensures x < 0.0 ==> x - 0.005 <= Round2(x) < x + 0.005
    ensures (x >= 0.0 ==> Round2(x) >= 0.0) && (x <= 0.0 ==> Round2(x) <= 0.0)
  {
    if x < 0.0 {
      RoundHalfUpCentsSpec(-x);
      CentsNegate(RoundHalfUpCents(-x));
    } else {
      RoundHalfUpCentsSpec(x);
    }
  }

  lemma CentsNegate(x: real)
    requires IsCents(x)
    ensures IsCents(-x)
  {
    var k := (x * 100.0).Floor;
    assert (-x) * 100.0 == (-k) as real;
  }

  /** Two distinct cent values are at least one cent apart. */
  lemma CentsGap(a: real, b: real)
    requires IsCents(a) && IsCents(b) && a < b
    ensures a + 0.01 <= b
  {
    var ka, kb := (a * 100.0).Floor, (b * 100.0).Floor;
    assert ka < kb;
  }

  /** A value already in cents is left alone by rounding. */
  lemma Round2OfCents(x: real)
    requires IsCents(x)
    ensures Round2(x) == x
  {
    var r := Round2(x);
    Round2Spec(x);
    if r < x {
      CentsGap(r, x);
    } else if r > x {
      CentsGap(x, r);
    }
  }

  lemma Round2Idempotent(x: real)
    ensures Round2(Round2(x)) == Round2(x)
  {
    Round2Spec(x);
    Round2OfCents(Round2(x));
  }

  lemma Round2Monotone(x: real, y: real)
    requires x <= y
    ensures Round2(x) <= Round2(y)
  {
    var rx, ry := Round2(x), Round2(y);
    Round2Spec(x);
    Round2Spec(y);
    if rx > ry {
      CentsGap(ry, rx);
    }
  }

  /** Math.round: the nearest integer, ties towards positive infinity. */
  function JsRound(x: real): (n: int)
    ensures x - 0.5 < n as real <= x + 0.5
  {
    (x + 0.5).Floor
  }

  /** The check `x == Math.round(x * 100) / 100` holds exactly of the cent values. */
  lemma CentsRoundTrip(x: real)
    ensures IsCents(x) <==> x == (JsRound(x * 100.0) as real) / 100.0
  {
    var n := JsRound(x * 100.0);
    if IsCents(x) {
      var k := (x * 100.0).Floor;
      assert k as real == x * 100.0;
      assert n == k;
    }
    if x == (n as real) / 100.0 {
      assert x * 100.0 == n as real;
    }
  }

  function Sum(s: seq<real>): real {
    if |s| == 0 then 0.0 else s[0] + Sum(s[1..])
  }

  /** calculateAverage: the arithmetic mean, 0 for an empty list. */
  function Mean(s: seq<real>): real {
    if |s| == 0 then 0.0 else Sum(s) / (|s| as real)
  }

  /** The mean times the count gives back the sum. */
  lemma MeanTimesCount(s: seq<real>)
    requires |s| > 0
    ensures Mean(s) * (|s| as real) == Sum(s)
  {
  }

  lemma {:induction false} SumWithin(s: seq<real>, lo: real, hi: real)
    requires forall i :: 0 <= i < |s| ==> lo <= s[i] <= hi
    ensures lo * (|s| as real) <= Sum(s) <= hi * (|s| as real)
  {
    if |s| > 0 {
      SumWithin(s[1..], lo, hi);
      assert (|s| as real) == (|s[1..]| as real) + 1.0;
    }
  }

  /** The mean of values that all lie in [lo, hi] lies in [lo, hi]. */
  lemma MeanWithin(s: seq<real>, lo: real, hi: real)
    requires |s| > 0
    requires forall i :: 0 <= i < |s| ==> lo <= s[i] <= hi
    ensures lo <= Mean(s) <= hi
  {
    SumWithin(s, lo, hi);
    var n := |s| as real;
    assert Mean(s) - lo == (Sum(s) - lo * n) / n;
    assert hi - Mean(s) == (hi * n - Sum(s)) / n;
    QuotientNonNegative(Sum(s) - lo * n, n);
    QuotientNonNegative(hi * n - Sum(s), n);
  }

  /** Dividing by a positive number keeps the side of a comparison. */
  lemma QuotientBelow(d: real, m: real, c: real)
    requires m > 0.0
    ensures d / m < c <==> d < c * m
  {
    var q := d / m;
    assert q * m == d;
    if q < c {
      assert (c - q) * m > 0.0;
    } else {
      assert (q - c) * m >= 0.0;
    }
  }

  lemma QuotientNonNegative(a: real, b: real)
    requires a >= 0.0 && b > 0.0
    ensures a / b >= 0.0
  {
  }

  lemma MeanSingleton(v: real)
    ensures Mean([v]) == v
  {
    assert [v][1..] == [];
    assert Sum([v]) == v + Sum([]);
  }

  /** Math.min over a non-empty list. */
  function MinOf(s: seq<real>): (r: real)
    requires |s| > 0
    ensures r in s
    ensures forall i :: 0 <= i < |s| ==> r <= s[i]
  {
    if |s| == 1 then s[0]
    else
      var rest := MinOf(s[1..]);
      if s[0] <= rest then s[0] else rest
  }

  /** Math.max over a non-empty list. */
  function MaxOf(s: seq<real>): (r: real)
    requires |s| > 0
    ensures r in s
    ensures forall i :: 0 <= i < |s| ==> s[i] <= r
  {
    if |s| == 1 then s[0]
    else
      var rest := MaxOf(s[1..]);
      if s[0] >= rest then s[0] else rest
  }
}
