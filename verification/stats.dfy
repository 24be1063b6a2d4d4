/** The report arithmetic: guarded percentages and averages, and the ±20 %
    outlier indicator. Python evaluates these in floating point; the model
    uses exact real arithmetic. The two can differ at the boundary itself: a
    value exactly 20 % from the average is never flagged here, but Python's
    rounded quotient can flag it, as for 14 against the mean of 14, 14 and 7. */
module Stats {

  /** `(num / den * 100) if den > 0 else 0`. */
  function Percent(num: nat, den: nat): (r: real)
    ensures den == 0 ==> r == 0.0
    ensures den > 0 ==> r * (den as real) == 100.0 * (num as real)
    ensures 0.0 <= r
    ensures num <= den ==> r <= 100.0
  {
    if den > 0 then (num as real / den as real) * 100.0 else 0.0
  }

  /** `total / n if n > 0 else 0`. */
  function Mean(total: real, n: nat): (r: real)
    ensures n == 0 ==> r == 0.0
    ensures n > 0 ==> r * (n as real) == total
    ensures n > 0 && total >= 0.0 ==> r >= 0.0
  {
    if n > 0 then total / (n as real) else 0.0
  }

  /** `get_indicator`: ▲, ▼ or nothing. */
  datatype Indicator = Up | Down | Flat

  /** `OUTLIER_PCT`, the relative deviation beyond which a value is flagged. */
  const OutlierPct: real := 0.2

  function IndicatorOf(value: real, avg: real): Indicator {
    if avg == 0.0 then Flat
    else
      var diff := (value - avg) / avg;
      if diff > OutlierPct then Up
      else if diff < -OutlierPct then Down
      else Flat
  }

  /** Multiplying both sides by a positive factor keeps a strict comparison. */
  lemma MulCompare(x: real, y: real, k: real)
    requires k > 0.0
    ensures x > y <==> x * k > y * k
    ensures x < y <==> x * k < y * k
  {
    if x > y {
      assert (x - y) * k > 0.0;
    } else if x < y {
      assert (y - x) * k > 0.0;
    }
  }

  /** Against a positive average the indicator flags exactly the values above
      120 % of it (▲) and below 80 % of it (▼); the boundaries themselves are
      not flagged. A zero average flags nothing. */
  lemma IndicatorBands(value: real, avg: real)
    requires avg >= 0.0
    ensures avg == 0.0 ==> IndicatorOf(value, avg) == Flat
    ensures avg > 0.0 ==> (IndicatorOf(value, avg) == Up <==> 5.0 * value > 6.0 * avg)
    ensures avg > 0.0 ==> (IndicatorOf(value, avg) == Down <==> 5.0 * value < 4.0 * avg)
  {
    if avg > 0.0 {
      var diff := (value - avg) / avg;
      assert diff * avg == value - avg;
      MulCompare(diff, OutlierPct, avg);
      MulCompare(diff, -OutlierPct, avg);
    }
  }

  /** Comparing `5·x` with `c·avg` is comparing `5·x·k` with `c·t` when
      `avg·k` is `t`. */
  lemma ScaledCompare(x: real, avg: real, k: real, t: real, c: real)
    requires k > 0.0 && avg * k == t
    ensures 5.0 * x > c * avg <==> 5.0 * x * k > c * t
    ensures 5.0 * x < c * avg <==> 5.0 * x * k < c * t
  {
    assert (c * avg) * k == c * t;
    MulCompare(5.0 * x, c * avg, k);
  }

  /** Products of naturals agree with the products of their real values. */
  lemma CastProduct(v: nat, n: nat, total: nat)
    ensures 5.0 * (v as real) * (n as real) == (5 * v * n) as real
    ensures 6.0 * (total as real) == (6 * total) as real
    ensures 4.0 * (total as real) == (4 * total) as real
  {
  }

  /** A count `v` compared with the mean of `n` counts totalling `total`:
      flagged ▲ iff `5·v·n > 6·total`, ▼ iff `5·v·n < 4·total`. */
  lemma IndicatorOfMean(v: nat, total: nat, n: nat)
    requires n > 0 && total > 0
    ensures IndicatorOf(v as real, Mean(total as real, n)) == Up <==> 5 * v * n > 6 * total
    ensures IndicatorOf(v as real, Mean(total as real, n)) == Down <==> 5 * v * n < 4 * total
  {
    var avg := Mean(total as real, n);
    assert avg * (n as real) == total as real;
    assert avg != 0.0;
    IndicatorBands(v as real, avg);
    ScaledCompare(v as real, avg, n as real, total as real, 6.0);
    ScaledCompare(v as real, avg, n as real, total as real, 4.0);
    CastProduct(v, n, total);
  }

  /** Sum of a list of counts. */
  function Sum(xs: seq<nat>): nat {
    if xs == [] then 0 else Sum(xs[..|xs| - 1]) + xs[|xs| - 1]
  }

  /** The values 80, 100, 120, 100 average 100 and sit exactly on the ±20 %
      boundaries, which are not flagged: none of them gets an indicator. */
  lemma BoundaryValuesAreNotFlagged()
    ensures var xs := [80, 100, 120, 100];
            forall i :: 0 <= i < |xs| ==>
              IndicatorOf(xs[i] as real, Mean(Sum(xs) as real, |xs|)) == Flat
  {
    var xs: seq<nat> := [80, 100, 120, 100];
    assert xs[..1][..0] == [] && xs[..2][..1] == xs[..1] && xs[..3][..2] == xs[..2] && xs[..4][..3] == xs[..3];
    assert Sum(xs[..1]) == 80;
    assert Sum(xs[..2]) == 180;
    assert Sum(xs[..3]) == 300;
    assert xs[..4] == xs;
    assert Sum(xs) == 400;
    forall i | 0 <= i < |xs|
      ensures IndicatorOf(xs[i] as real, Mean(Sum(xs) as real, |xs|)) == Flat
    {
      IndicatorOfMean(xs[i], 400, 4);
    }
  }
}
