/** The sampled-equity drawdown of the replay, found in one pass with a running peak. */
module EquityDrawdown {
  import opened Basics

  datatype DrawdownError = InvalidCurve

  datatype Drawdowns = Drawdowns(quote: real, fraction: real)

  ghost predicate PositiveCurve(e: seq<real>) {
    e != [] && forall k :: 0 <= k < |e| ==> 0.0 < e[k]
  }

  ghost predicate Pair(e: seq<real>, i: int, j: int) {
    0 <= i <= j < |e|
  }

  /** Greatest fall from any sample to itself or a later one, in quote. */
  ghost predicate WorstFall(e: seq<real>, x: real) {
    && (forall i, j :: Pair(e, i, j) ==> e[i] - e[j] <= x)
    && (exists i, j :: Pair(e, i, j) && e[i] - e[j] == x)
  }

  /** Greatest fall as a fraction of the sample it fell from. */
  ghost predicate WorstFraction(e: seq<real>, x: real)
    requires PositiveCurve(e)
  {
    && (forall i, j :: Pair(e, i, j) ==> DrawdownFrom(e[i], e[j]) <= x)
    && (exists i, j :: Pair(e, i, j) && DrawdownFrom(e[i], e[j]) == x)
  }

  lemma QuotientOrder(e: real, x: real, p: real)
    requires 0.0 < e && 0.0 < x <= p
    ensures e / p <= e / x
  {
    var q := e / x;
    assert e == q * x && 0.0 < q;
    assert q * x <= q * p;
    assert (q * p) / p == q;
    QuotientMonotone(e, q * p, p);
  }

  lemma QuotientMonotone(a: real, b: real, p: real)
    requires 0.0 < p && a <= b
    ensures a / p <= b / p
  {
  }

  lemma SplitQuotient(x: real, e: real)
    requires 0.0 < x
    ensures DrawdownFrom(x, e) == 1.0 - e / x
  {
    assert (x - e) / x == x / x - e / x;
  }

  /** A higher peak never makes the fractional fall to the same sample smaller. */
  lemma FallFromHigherPeak(x: real, p: real, e: real)
    requires 0.0 < e && 0.0 < x <= p
    ensures DrawdownFrom(x, e) <= DrawdownFrom(p, e)
  {
    SplitQuotient(x, e);
    SplitQuotient(p, e);
    QuotientOrder(e, x, p);
  }

  /** The running peak over the samples so far, and where it was reached. */
  ghost predicate PeakAt(e: seq<real>, peak: real, m: int) {
    0 <= m < |e| && e[m] == peak && forall k :: 0 <= k < |e| ==> e[k] <= peak
  }

  lemma FallStep(e: seq<real>, x: real, worst: real, peak: real, m: int)
    requires PeakAt(e + [x], peak, m)
    requires if e == [] then worst == 0.0 else WorstFall(e, worst)
    ensures WorstFall(e + [x], Max(worst, peak - x))
  {
    var f := e + [x];
    forall i, j | Pair(f, i, j) ensures f[i] - f[j] <= Max(worst, peak - x) {
      if j < |e| {
        assert Pair(e, i, j);
      }
    }
    if worst < peak - x || e == [] {
      assert Pair(f, m, |e|) && Pair(f, |e|, |e|);
    } else {
      var i, j :| Pair(e, i, j) && e[i] - e[j] == worst;
      assert Pair(f, i, j) && f[i] - f[j] == worst;
    }
  }

  lemma FractionStep(e: seq<real>, x: real, worst: real, peak: real, m: int)
    requires PositiveCurve(e + [x]) && PeakAt(e + [x], peak, m)
    requires if e == [] then worst == 0.0 else PositiveCurve(e) && WorstFraction(e, worst)
    ensures WorstFraction(e + [x], Max(worst, DrawdownFrom(peak, x)))
  {
    var f := e + [x];
    var reached := DrawdownFrom(peak, x);
    forall i, j | Pair(f, i, j) ensures DrawdownFrom(f[i], f[j]) <= Max(worst, reached) {
      if j < |e| {
        assert Pair(e, i, j);
        assert DrawdownFrom(e[i], e[j]) <= worst;
      } else {
        assert f[|e|] == x;
        FallFromHigherPeak(f[i], peak, x);
      }
    }
    if worst < reached {
      assert Pair(f, m, |e|) && DrawdownFrom(f[m], f[|e|]) == reached;
    } else if e == [] {
      assert Pair(f, 0, 0) && DrawdownFrom(f[0], f[0]) == 0.0;
    } else {
      var i, j :| Pair(e, i, j) && DrawdownFrom(e[i], e[j]) == worst;
      assert Pair(f, i, j) && DrawdownFrom(f[i], f[j]) == worst;
    }
  }

  /** One pass finds the worst fall over all ordered pairs, in quote and as a fraction. */
  method Drawdown(equities: seq<real>) returns (r: Result<Drawdowns, DrawdownError>)
    ensures r.Ok? <==> PositiveCurve(equities)
    ensures r.Ok? ==> WorstFall(equities, r.value.quote) && WorstFraction(equities, r.value.fraction)
  {
    if equities == [] {
      return Err(InvalidCurve);
    }
    for k := 0 to |equities|
      invariant forall j :: 0 <= j < k ==> 0.0 < equities[j]
    {
      if equities[k] <= 0.0 {
        return Err(InvalidCurve);
      }
    }
    var peak := equities[0];
    var quote, fraction := 0.0, 0.0;
    ghost var m := 0;
    for k := 0 to |equities|
      invariant k == 0 ==> peak == equities[0] && quote == fraction == 0.0
      invariant k > 0 ==> PeakAt(equities[..k], peak, m)
      invariant k > 0 ==>
        && PositiveCurve(equities[..k]) && WorstFall(equities[..k], quote)
        && WorstFraction(equities[..k], fraction)
    {
      var equity := equities[k];
      assert equities[..k + 1] == equities[..k] + [equity];
      if peak < equity || k == 0 {
        m := k;
      }
      peak := Max(peak, equity);
      assert PeakAt(equities[..k] + [equity], peak, m);
      FallStep(equities[..k], equity, quote, peak, m);
      FractionStep(equities[..k], equity, fraction, peak, m);
      quote := Max(quote, peak - equity);
      fraction := Max(fraction, DrawdownFrom(peak, equity));
    }
    assert equities[..|equities|] == equities;
    return Ok(Drawdowns(quote, fraction));
  }

  // ---------- A drawdown kept bar by bar ----------

  /** The highest sample up to position k. */
  function PeakOf(curve: seq<real>, k: nat): real
    requires k < |curve|
  {
    if k == 0 then curve[0] else Max(PeakOf(curve, k - 1), curve[k])
  }

  lemma {:induction false} PeakIsHighest(curve: seq<real>, k: nat)
    requires k < |curve|
    ensures forall j :: 0 <= j <= k ==> curve[j] <= PeakOf(curve, k)
    ensures exists j :: 0 <= j <= k && curve[j] == PeakOf(curve, k)
  {
    if k == 0 {
      assert curve[0] == PeakOf(curve, k);
    } else {
      PeakIsHighest(curve, k - 1);
      if curve[k] <= PeakOf(curve, k - 1) {
        var j :| 0 <= j <= k - 1 && curve[j] == PeakOf(curve, k - 1);
        assert curve[j] == PeakOf(curve, k);
      }
    }
  }

  /** After the first sample, each one's fall below the highest sample up to it, as a fraction of that. */
  ghost predicate FallsOf(curve: seq<real>, falls: seq<real>) {
    && |curve| == |falls| + 1
    && forall k :: 1 <= k < |curve| ==>
      PeakOf(curve, k) != 0.0 && falls[k - 1] == DrawdownFrom(PeakOf(curve, k), curve[k])
  }

  /** The greatest of the falls, and never less than none. */
  ghost predicate WorstOf(falls: seq<real>, dd: real) {
    && 0.0 <= dd && (forall k :: 0 <= k < |falls| ==> falls[k] <= dd)
    && (dd == 0.0 || dd in falls)
  }

  /** What a simulator carries along a curve of samples: its peak and its worst fall. */
  ghost predicate Tracks(curve: seq<real>, peak: real, dd: real) {
    && curve != [] && peak == PeakOf(curve, |curve| - 1)
    && exists falls :: FallsOf(curve, falls) && WorstOf(falls, dd)
  }

  /** The worst fall along a curve. */
  ghost predicate WorstAlong(curve: seq<real>, dd: real) {
    exists peak :: Tracks(curve, peak, dd)
  }

  lemma {:induction false} PeakOfLonger(curve: seq<real>, x: real, k: nat)
    requires k < |curve|
    ensures PeakOf(curve + [x], k) == PeakOf(curve, k)
  {
    if k > 0 {
      PeakOfLonger(curve, x, k - 1);
    }
  }

  lemma FallsNext(curve: seq<real>, falls: seq<real>, x: real)
    requires curve != [] && FallsOf(curve, falls)
    requires var top := Max(PeakOf(curve, |curve| - 1), x); top != 0.0
    ensures var top := Max(PeakOf(curve, |curve| - 1), x);
      PeakOf(curve + [x], |curve|) == top && FallsOf(curve + [x], falls + [DrawdownFrom(top, x)])
  {
    forall k | 0 <= k < |curve| ensures PeakOf(curve + [x], k) == PeakOf(curve, k) {
      PeakOfLonger(curve, x, k);
    }
  }

  lemma WorstNext(falls: seq<real>, dd: real, fall: real)
    requires WorstOf(falls, dd)
    ensures WorstOf(falls + [fall], Max(dd, fall))
  {
    assert (falls + [fall])[|falls|] == fall;
  }

  lemma StartsTracking(initial: real)
    ensures Tracks([initial], initial, 0.0)
  {
    assert FallsOf([initial], []) && WorstOf([], 0.0);
  }

  lemma TracksNext(curve: seq<real>, peak: real, dd: real, x: real)
    requires Tracks(curve, peak, dd) && Max(peak, x) != 0.0
    ensures Tracks(curve + [x], Max(peak, x), Max(dd, DrawdownFrom(Max(peak, x), x)))
  {
    var fall := DrawdownFrom(Max(peak, x), x);
    var falls :| FallsOf(curve, falls) && WorstOf(falls, dd);
    FallsNext(curve, falls, x);
    WorstNext(falls, dd, fall);
  }

  /** A last sample measured against the peak before it counts alike, for above that peak it falls by nothing. */
  lemma LastSample(curve: seq<real>, peak: real, dd: real, x: real)
    requires Tracks(curve, peak, dd) && 0.0 < peak
    ensures WorstAlong(curve + [x], Max(dd, DrawdownFrom(peak, x)))
  {
    TracksNext(curve, peak, dd, x);
    assert Tracks(curve + [x], Max(peak, x), Max(dd, DrawdownFrom(Max(peak, x), x)));
    if peak < x {
      RiseIsNoFall(peak, x);
    }
  }

  lemma RiseIsNoFall(peak: real, x: real)
    requires 0.0 < peak < x
    ensures DrawdownFrom(peak, x) <= 0.0 == DrawdownFrom(x, x)
  {
    SplitQuotient(peak, x);
    QuotientMonotone(peak, x, peak);
    assert x - x == 0.0;
  }

  /** On positive samples the worst fall from the peak so far is the worst over all ordered pairs. */
  lemma TrackedIsWorst(curve: seq<real>, dd: real)
    requires PositiveCurve(curve) && WorstAlong(curve, dd)
    ensures WorstFraction(curve, dd)
  {
    var peak :| Tracks(curve, peak, dd);
    var falls :| FallsOf(curve, falls) && WorstOf(falls, dd);
    forall i, j | Pair(curve, i, j) ensures DrawdownFrom(curve[i], curve[j]) <= dd {
      PairWithin(curve, falls, i, j);
    }
    if dd == 0.0 {
      assert Pair(curve, 0, 0) && DrawdownFrom(curve[0], curve[0]) == 0.0;
    } else {
      var k :| 0 <= k < |falls| && falls[k] == dd;
      PeakIsHighest(curve, k + 1);
      var j :| 0 <= j <= k + 1 && curve[j] == PeakOf(curve, k + 1);
      assert Pair(curve, j, k + 1);
    }
  }

  lemma PairWithin(curve: seq<real>, falls: seq<real>, i: nat, j: nat)
    requires PositiveCurve(curve) && FallsOf(curve, falls) && i <= j < |curve|
    ensures DrawdownFrom(curve[i], curve[j]) <= if j == 0 then 0.0 else falls[j - 1]
  {
    if j == 0 {
      assert curve[i] - curve[j] == 0.0;
    } else {
      PeakIsHighest(curve, j);
      FallFromHigherPeak(curve[i], PeakOf(curve, j), curve[j]);
    }
  }
}
