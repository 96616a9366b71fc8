/**
 The moving-average columns, computed incrementally over contiguous hourly bars.
 Each value is compared with a definition over the closes since the last gap.
 */
module Indicators {
  import opened Basics

  datatype Family = Sma | Ema | Dema

  datatype Series = Series(times: seq<int>, closes: seq<real>)
  {
    predicate Valid() {
      |times| == |closes|
    }
  }

  /** First bar of the contiguous run that bar i belongs to. */
  function RunStart(times: seq<int>, i: nat): (start: nat)
    requires i < |times|
    ensures start <= i
  {
    if i == 0 || times[i] != times[i - 1] + HOUR then i else RunStart(times, i - 1)
  }

  /** The run is gap-free and cannot be extended to the left. */
  lemma {:induction false} RunIsMaximal(times: seq<int>, i: nat)
    requires i < |times|
    ensures forall k :: RunStart(times, i) < k <= i ==> times[k] == times[k - 1] + HOUR
    ensures RunStart(times, i) > 0 ==> times[RunStart(times, i)] != times[RunStart(times, i) - 1] + HOUR
  {
    if !(i == 0 || times[i] != times[i - 1] + HOUR) {
      RunIsMaximal(times, i - 1);
    }
  }

  /** Closes since the last gap, up to and including bar i. */
  function Visible(s: Series, i: nat): (xs: seq<real>)
    requires s.Valid() && i < |s.times|
    ensures xs != []
  {
    s.closes[RunStart(s.times, i)..i + 1]
  }

  // ---------- Definitions over the visible closes ----------

  function Smoothing(window: nat): real {
    2.0 / (window as real + 1.0)
  }

  function Blend(a: real, x: real, y: real): real {
    a * x + (1.0 - a) * y
  }

  function EmaOf(a: real, xs: seq<real>): real
    requires xs != []
  {
    if |xs| == 1 then xs[0] else Blend(a, xs[|xs| - 1], EmaOf(a, xs[..|xs| - 1]))
  }

  /** The average of the averages. */
  function EmaOfEma(a: real, xs: seq<real>): real
    requires xs != []
  {
    if |xs| == 1 then xs[0] else Blend(a, EmaOf(a, xs), EmaOfEma(a, xs[..|xs| - 1]))
  }

  function MeanOf(total: real, count: nat): real
    requires 0 < count
  {
    total / count as real
  }

  function WindowMean(xs: seq<real>, window: nat): real
    requires 0 < window <= |xs|
  {
    MeanOf(Sum(xs[|xs| - window..]), window)
  }

  /** The indicator of a gap-free history; undefined until the history fills the window. */
  function IndicatorOf(family: Family, window: nat, xs: seq<real>): Option<real>
    requires 0 < window && xs != []
  {
    if |xs| < window then None
    else match family
      case Sma => Some(WindowMean(xs, window))
      case Ema => Some(EmaOf(Smoothing(window), xs))
      case Dema => Some(2.0 * EmaOf(Smoothing(window), xs) - EmaOfEma(Smoothing(window), xs))
  }

  // ---------- The incremental computation ----------

  lemma {:induction false} SumDropFirst(xs: seq<real>)
    requires xs != []
    ensures Sum(xs) == xs[0] + Sum(xs[1..])
  {
    if |xs| > 1 {
      SumDropFirst(xs[..|xs| - 1]);
      assert xs[..|xs| - 1][1..] == xs[1..][..|xs| - 2];
    }
  }

  lemma VisibleStep(s: Series, i: nat)
    requires s.Valid() && 0 < i < |s.times|
    ensures s.times[i] != s.times[i - 1] + HOUR ==> Visible(s, i) == [s.closes[i]]
    ensures s.times[i] == s.times[i - 1] + HOUR ==> Visible(s, i) == Visible(s, i - 1) + [s.closes[i]]
  {
  }

  function LastUpTo(xs: seq<real>, window: nat): seq<real> {
    if |xs| <= window then xs else xs[|xs| - window..]
  }

  lemma RollingStep(xs: seq<real>, x: real, window: nat)
    requires 0 < window
    ensures var ys := xs + [x];
      Sum(LastUpTo(ys, window))
        == Sum(LastUpTo(xs, window)) + x - if |ys| > window then ys[|ys| - window - 1] else 0.0
  {
    var ys := xs + [x];
    var last := LastUpTo(xs, window);
    SumAppend(last, x);
    if |ys| > window {
      SumDropFirst(last + [x]);
      assert (last + [x])[1..] == LastUpTo(ys, window);
      assert last[0] == ys[|ys| - window - 1];
    } else {
      assert last + [x] == LastUpTo(ys, window);
    }
  }

  /** The close that leaves the window at bar i. */
  function Dropped(s: Series, window: nat, i: nat): real
    requires s.Valid() && i < |s.times| && 0 < window
  {
    if i - RunStart(s.times, i) + 1 > window then s.closes[i - window] else 0.0
  }

  /** The rolling total after bar i, as it is kept up to date. */
  function RollingTotal(s: Series, window: nat, i: nat): real
    requires s.Valid() && i < |s.times| && 0 < window
  {
    if i == 0 || s.times[i] != s.times[i - 1] + HOUR then s.closes[i]
    else
      RollingTotal(s, window, i - 1) + s.closes[i] - Dropped(s, window, i)
  }

  function WindowSum(s: Series, window: nat, i: nat): real
    requires s.Valid() && i < |s.times|
  {
    Sum(LastUpTo(Visible(s, i), window))
  }

  lemma WindowSumFirst(s: Series, window: nat, i: nat)
    requires s.Valid() && i < |s.times| && 0 < window
    requires i == 0 || s.times[i] != s.times[i - 1] + HOUR
    ensures WindowSum(s, window, i) == s.closes[i]
  {
    assert Visible(s, i) == [s.closes[i]];
    assert LastUpTo([s.closes[i]], window) == [] + [s.closes[i]];
    SumAppend([], s.closes[i]);
  }

  /** The visible closes are the run's own, counted back from i. */
  lemma VisibleFromEnd(s: Series, i: nat, back: nat)
    requires s.Valid() && i < |s.times| && back < |Visible(s, i)|
    ensures |Visible(s, i)| == i - RunStart(s.times, i) + 1
    ensures back <= i && Visible(s, i)[|Visible(s, i)| - 1 - back] == s.closes[i - back]
  {
  }

  lemma WindowSumNext(s: Series, window: nat, i: nat)
    requires s.Valid() && 0 < i < |s.times| && 0 < window && s.times[i] == s.times[i - 1] + HOUR
    ensures i - RunStart(s.times, i) + 1 > window ==> window <= i
    ensures WindowSum(s, window, i)
      == WindowSum(s, window, i - 1) + s.closes[i] - Dropped(s, window, i)
  {
    var xs, ys := Visible(s, i - 1), Visible(s, i);
    VisibleStep(s, i);
    if |ys| > window {
      VisibleFromEnd(s, i, window);
    }
    RollingStep(xs, s.closes[i], window);
  }

  lemma RollingTotalNext(s: Series, window: nat, i: nat)
    requires s.Valid() && 0 < i < |s.times| && 0 < window && s.times[i] == s.times[i - 1] + HOUR
    requires RollingTotal(s, window, i - 1) == WindowSum(s, window, i - 1)
    ensures RollingTotal(s, window, i) == WindowSum(s, window, i)
  {
    WindowSumNext(s, window, i);
  }

  /** The rolling total is the sum of the window's closes, or of the whole run while it is shorter. */
  lemma {:induction false} RollingTotalIsWindowSum(s: Series, window: nat, i: nat)
    requires s.Valid() && i < |s.times| && 0 < window
    ensures RollingTotal(s, window, i) == WindowSum(s, window, i)
  {
    if i == 0 || s.times[i] != s.times[i - 1] + HOUR {
      WindowSumFirst(s, window, i);
    } else {
      RollingTotalIsWindowSum(s, window, i - 1);
      RollingTotalNext(s, window, i);
    }
  }

  function RollingAverage(s: Series, window: nat, i: nat): Option<real>
    requires s.Valid() && i < |s.times| && 0 < window
  {
    if i - RunStart(s.times, i) + 1 >= window then Some(MeanOf(RollingTotal(s, window, i), window)) else None
  }

  lemma RollingAverageIsMean(s: Series, window: nat, i: nat)
    requires s.Valid() && i < |s.times| && 0 < window
    ensures RollingAverage(s, window, i) == IndicatorOf(Sma, window, Visible(s, i))
  {
    RollingTotalIsWindowSum(s, window, i);
    var xs := Visible(s, i);
    if |xs| >= window {
      assert LastUpTo(xs, window) == xs[|xs| - window..];
    }
  }

  method SimpleAverages(s: Series, window: nat) returns (out: array<Option<real>>)
    requires s.Valid() && 0 < window
    ensures fresh(out) && out.Length == |s.closes|
    ensures forall i :: 0 <= i < out.Length ==> out[i] == RollingAverage(s, window, i)
  {
    out := new Option<real>[|s.closes|](_ => None);
    var rolling := 0.0;
    var segmentStart := 0;
    for i := 0 to |s.closes|
      invariant forall k :: 0 <= k < i ==> out[k] == RollingAverage(s, window, k)
      invariant forall k :: i <= k < out.Length ==> out[k] == None
      invariant i > 0 ==> segmentStart == RunStart(s.times, i - 1) && rolling == RollingTotal(s, window, i - 1)
    {
      var price := s.closes[i];
      if i == 0 || s.times[i] != s.times[i - 1] + HOUR {
        segmentStart := i;
        rolling := price;
      } else {
        rolling := rolling + price;
      }
      var run := i - segmentStart + 1;
      if run > window {
        rolling := rolling - s.closes[i - window];
      }
      if run >= window {
        out[i] := Some(MeanOf(rolling, window));
      }
    }
  }

  /** Bar i restarts both averages after a gap, and blends its close in otherwise. */
  method AdvanceAverages(s: Series, alpha: real, i: nat, ema1: real, ema2: real, run: nat)
    returns (e1: real, e2: real, n: nat)
    requires s.Valid() && i < |s.times|
    requires i > 0 ==> run == |Visible(s, i - 1)| && ema1 == EmaOf(alpha, Visible(s, i - 1))
    requires i > 0 ==> ema2 == EmaOfEma(alpha, Visible(s, i - 1))
    ensures n == |Visible(s, i)| && e1 == EmaOf(alpha, Visible(s, i)) && e2 == EmaOfEma(alpha, Visible(s, i))
  {
    var price := s.closes[i];
    if i > 0 {
      VisibleStep(s, i);
    }
    if i == 0 || s.times[i] != s.times[i - 1] + HOUR {
      assert Visible(s, i) == [price];
      return price, price, 1;
    }
    ghost var xs := Visible(s, i);
    assert xs[..|xs| - 1] == Visible(s, i - 1);
    e1 := Blend(alpha, price, ema1);
    e2 := Blend(alpha, e1, ema2);
    n := run + 1;
  }

  /** The value shown after bar i: nothing until the run fills the window. */
  method AverageShown(family: Family, window: nat, ghost xs: seq<real>, e1: real, e2: real, run: nat)
    returns (v: Option<real>)
    requires 0 < window && xs != [] && !family.Sma? && run == |xs|
    requires e1 == EmaOf(Smoothing(window), xs) && e2 == EmaOfEma(Smoothing(window), xs)
    ensures v == IndicatorOf(family, window, xs)
  {
    if run < window {
      return None;
    }
    return Some(if family == Ema then e1 else 2.0 * e1 - e2);
  }

  method ExponentialAverages(s: Series, family: Family, window: nat) returns (out: array<Option<real>>)
    requires s.Valid() && 0 < window && !family.Sma?
    ensures fresh(out) && out.Length == |s.closes|
    ensures forall i :: 0 <= i < out.Length ==> out[i] == IndicatorOf(family, window, Visible(s, i))
  {
    out := new Option<real>[|s.closes|](_ => None);
    var ema1, ema2, run := 0.0, 0.0, 0;
    for i := 0 to |s.closes|
      invariant forall k :: 0 <= k < i ==> out[k] == IndicatorOf(family, window, Visible(s, k))
      invariant i > 0 ==> run == |Visible(s, i - 1)| && ema1 == EmaOf(Smoothing(window), Visible(s, i - 1))
      invariant i > 0 ==> ema2 == EmaOfEma(Smoothing(window), Visible(s, i - 1))
    {
      ema1, ema2, run := AdvanceAverages(s, Smoothing(window), i, ema1, ema2, run);
      out[i] := AverageShown(family, window, Visible(s, i), ema1, ema2, run);
    }
  }

  datatype IndicatorError = InvalidRequest

  /** Every column entry is its definition over the closes since the last gap. */
  method IndicatorSeries(s: Series, family: Family, window: int) returns (r: Result<seq<Option<real>>, IndicatorError>)
    requires s.Valid()
    ensures r.Err? <==> window < 1
    ensures r.Ok? ==> |r.value| == |s.closes|
    ensures r.Ok? ==> forall i :: 0 <= i < |s.closes| ==> r.value[i] == IndicatorOf(family, window, Visible(s, i))
  {
    if window < 1 {
      return Err(InvalidRequest);
    }
    var out: array<Option<real>>;
    if family == Sma {
      out := SimpleAverages(s, window);
      forall i | 0 <= i < out.Length ensures out[i] == IndicatorOf(Sma, window, Visible(s, i)) {
        RollingAverageIsMean(s, window, i);
      }
    } else {
      out := ExponentialAverages(s, family, window);
    }
    return Ok(out[..]);
  }

  // ---------- What the definitions promise ----------

  lemma {:induction false} SameRunStart(s: Series, t: Series, i: nat)
    requires i < |s.times| && i < |t.times| && s.times[..i + 1] == t.times[..i + 1]
    ensures RunStart(s.times, i) == RunStart(t.times, i)
  {
    assert s.times[i] == s.times[..i + 1][i] && t.times[i] == t.times[..i + 1][i];
    if i > 0 {
      assert s.times[i - 1] == s.times[..i + 1][i - 1] && t.times[i - 1] == t.times[..i + 1][i - 1];
      assert s.times[..i] == s.times[..i + 1][..i] && t.times[..i] == t.times[..i + 1][..i];
      SameRunStart(s, t, i - 1);
    }
  }

  /** No look-ahead and no memory across a gap: only closes from the run start up to i matter. */
  lemma DependsOnRunOnly(s: Series, t: Series, family: Family, window: nat, i: nat)
    requires s.Valid() && t.Valid() && i < |s.times| && i < |t.times| && 0 < window
    requires s.times[..i + 1] == t.times[..i + 1]
    requires forall k :: RunStart(s.times, i) <= k <= i ==> s.closes[k] == t.closes[k]
    ensures IndicatorOf(family, window, Visible(s, i)) == IndicatorOf(family, window, Visible(t, i))
  {
    SameRunStart(s, t, i);
    assert Visible(s, i) == Visible(t, i);
  }

  lemma PartOf(a: real, z: real)
    requires 0.0 <= a <= 1.0 && 0.0 <= z
    ensures 0.0 <= a * z <= z
  {
  }

  lemma BlendOfShift(a: real, y: real, z: real)
    ensures Blend(a, y + z, y) == y + a * z && Blend(a, y - z, y) == y - a * z
  {
  }

  lemma BlendAbove(a: real, x: real, y: real) returns (part: real)
    requires 0.0 <= a <= 1.0 && y <= x
    ensures 0.0 <= part <= x - y && Blend(a, x, y) == y + part
  {
    var z := x - y;
    PartOf(a, z);
    BlendOfShift(a, y, z);
    part := a * z;
  }

  lemma BlendBelow(a: real, x: real, y: real) returns (part: real)
    requires 0.0 <= a <= 1.0 && x <= y
    ensures 0.0 <= part <= y - x && Blend(a, x, y) == y - part
  {
    var z := y - x;
    PartOf(a, z);
    BlendOfShift(a, y, z);
    part := a * z;
  }

  lemma BlendWithin(a: real, x: real, y: real, lo: real, hi: real)
    requires 0.0 <= a <= 1.0 && lo <= x <= hi && lo <= y <= hi
    ensures lo <= Blend(a, x, y) <= hi
  {
    var part;
    if y <= x {
      part := BlendAbove(a, x, y);
    } else {
      part := BlendBelow(a, x, y);
    }
  }

  /** The exponential average, once or twice, stays between the extremes of its gap-free history. */
  lemma {:induction false} EmaWithinExtremes(a: real, xs: seq<real>, lo: real, hi: real)
    requires xs != [] && 0.0 <= a <= 1.0
    requires forall k :: 0 <= k < |xs| ==> lo <= xs[k] <= hi
    ensures lo <= EmaOf(a, xs) <= hi && lo <= EmaOfEma(a, xs) <= hi
  {
    if |xs| > 1 {
      EmaWithinExtremes(a, xs[..|xs| - 1], lo, hi);
      BlendWithin(a, xs[|xs| - 1], EmaOf(a, xs[..|xs| - 1]), lo, hi);
      BlendWithin(a, EmaOf(a, xs), EmaOfEma(a, xs[..|xs| - 1]), lo, hi);
    }
  }

  function Power(x: real, n: nat): real {
    if n == 0 then 1.0 else x * Power(x, n - 1)
  }

  /** Weight of the k-th of n closes in their exponential average. */
  function Weight(a: real, n: nat, k: nat): real
    requires k < n
  {
    if k == 0 then Power(1.0 - a, n - 1) else a * Power(1.0 - a, n - 1 - k)
  }

  function Weights(a: real, n: nat): seq<real> {
    seq(n, k requires 0 <= k < n => Weight(a, n, k))
  }

  function Dot(ws: seq<real>, xs: seq<real>): real
    requires |ws| == |xs|
  {
    if xs == [] then 0.0 else Dot(ws[..|ws| - 1], xs[..|xs| - 1]) + ws[|ws| - 1] * xs[|xs| - 1]
  }

  lemma WeightDecays(a: real, n: nat, k: nat)
    requires k < n
    ensures Weight(a, n + 1, k) == (1.0 - a) * Weight(a, n, k)
  {
    if k > 0 {
      var p := Power(1.0 - a, n - 1 - k);
      assert a * ((1.0 - a) * p) == (1.0 - a) * (a * p);
    }
  }

  ghost predicate Scaled(c: real, ws: seq<real>, vs: seq<real>) {
    |ws| == |vs| && forall k :: 0 <= k < |ws| ==> vs[k] == c * ws[k]
  }

  lemma {:induction false} DotScales(c: real, ws: seq<real>, vs: seq<real>, xs: seq<real>)
    requires |ws| == |xs| && Scaled(c, ws, vs)
    ensures Dot(vs, xs) == c * Dot(ws, xs)
  {
    if xs != [] {
      var n := |xs| - 1;
      DotScales(c, ws[..n], vs[..n], xs[..n]);
      assert (c * ws[n]) * xs[n] == c * (ws[n] * xs[n]);
    }
  }

  lemma NewestWeight(a: real, n: nat)
    requires 1 < n
    ensures Weights(a, n)[n - 1] == a
  {
    assert Power(1.0 - a, 0) == 1.0;
  }

  lemma WeightsDecay(a: real, n: nat)
    requires 1 < n
    ensures Weights(a, n)[n - 1] == a
    ensures Scaled(1.0 - a, Weights(a, n - 1), Weights(a, n)[..n - 1])
  {
    NewestWeight(a, n);
    var older, newer := Weights(a, n - 1), Weights(a, n)[..n - 1];
    forall k | 0 <= k < n - 1 ensures newer[k] == (1.0 - a) * older[k] {
      WeightDecays(a, n - 1, k);
      assert newer[k] == Weight(a, n, k) && older[k] == Weight(a, n - 1, k);
    }
  }

  lemma DotBlends(a: real, ws: seq<real>, xs: seq<real>, e: real)
    requires |ws| == |xs| > 1 && ws[|ws| - 1] == a && Dot(ws[..|ws| - 1], xs[..|xs| - 1]) == (1.0 - a) * e
    ensures Dot(ws, xs) == Blend(a, xs[|xs| - 1], e)
  {
  }

  lemma SingleWeight(a: real, xs: seq<real>)
    requires |xs| == 1
    ensures Dot(Weights(a, 1), xs) == xs[0]
  {
    var ws := Weights(a, 1);
    assert ws[0] == Power(1.0 - a, 0) == 1.0;
    assert Dot(ws[..0], xs[..0]) == 0.0;
  }

  /** The recursive average is the classical weighted sum with geometrically fading weights. */
  lemma {:induction false} EmaIsWeightedSum(a: real, xs: seq<real>)
    requires xs != []
    ensures EmaOf(a, xs) == Dot(Weights(a, |xs|), xs)
  {
    var n := |xs|;
    if n == 1 {
      SingleWeight(a, xs);
    } else {
      var older, ws := xs[..n - 1], Weights(a, n);
      EmaIsWeightedSum(a, older);
      WeightsDecay(a, n);
      DotScales(1.0 - a, Weights(a, n - 1), ws[..n - 1], older);
      DotBlends(a, ws, xs, EmaOf(a, older));
    }
  }

  lemma {:induction false} EmaOfConstant(a: real, xs: seq<real>, x: real)
    requires xs != [] && forall k :: 0 <= k < |xs| ==> xs[k] == x
    ensures EmaOf(a, xs) == x
  {
    if |xs| > 1 {
      EmaOfConstant(a, xs[..|xs| - 1], x);
      BlendOfShift(a, x, 0.0);
    }
  }

  /** The weights sum to one: averaging a constant history returns the constant. */
  lemma WeightsSumToOne(a: real, n: nat)
    requires 0 < n
    ensures Dot(Weights(a, n), seq(n, _ => 1.0)) == 1.0
  {
    var ones := seq(n, _ => 1.0);
    EmaIsWeightedSum(a, ones);
    EmaOfConstant(a, ones, 1.0);
  }

  // ---------- The indicators by their equations ----------

  /** The new value weighs its sample twice against window - 1 times the value before, out of window + 1. */
  ghost predicate Weighs(window: nat, x: real, before: real, after: real) {
    (window as real + 1.0) * after == 2.0 * x + (window as real - 1.0) * before
  }

  /** The values that start with the first sample and weigh in each further one. */
  ghost predicate Smoothed(window: nat, xs: seq<real>, es: seq<real>) {
    if |xs| <= 1 then es == xs
    else
      var n := |xs| - 1;
      |es| == |xs| && Smoothed(window, xs[..n], es[..n]) && Weighs(window, xs[n], es[n - 1], es[n])
  }

  lemma BlendWeighs(window: nat, x: real, y: real)
    ensures Weighs(window, x, y, Blend(Smoothing(window), x, y))
  {
    var n, a := window as real + 1.0, Smoothing(window);
    assert n * a == 2.0;
    assert n * (a * x + (1.0 - a) * y) == (n * a) * x + (n - n * a) * y;
  }

  lemma SmoothedNext(window: nat, xs: seq<real>, es: seq<real>, x: real, e: real)
    requires xs != [] && Smoothed(window, xs, es) && es != [] && Weighs(window, x, es[|es| - 1], e)
    ensures Smoothed(window, xs + [x], es + [e])
  {
    assert (xs + [x])[..|xs|] == xs && (es + [e])[..|xs|] == es;
  }

  lemma EmaUnfolds(a: real, xs: seq<real>, x: real)
    requires xs != []
    ensures EmaOf(a, xs + [x]) == Blend(a, x, EmaOf(a, xs))
    ensures EmaOfEma(a, xs + [x]) == Blend(a, EmaOf(a, xs + [x]), EmaOfEma(a, xs))
  {
    assert (xs + [x])[..|xs|] == xs;
  }

  /** Two lists that end in the averages of a history, bar by bar, and in the averages of those. */
  ghost predicate Averages(window: nat, xs: seq<real>, es: seq<real>, ds: seq<real>, e: real, d: real) {
    && xs != [] && |es| == |ds| == |xs| && Smoothed(window, xs, es) && Smoothed(window, es, ds)
    && es[|es| - 1] == e && ds[|ds| - 1] == d
  }

  lemma AveragesNext(window: nat, xs: seq<real>, es: seq<real>, ds: seq<real>, x: real)
    returns (fs: seq<real>, gs: seq<real>)
    requires xs != []
      && Averages(window, xs, es, ds, EmaOf(Smoothing(window), xs), EmaOfEma(Smoothing(window), xs))
    ensures Averages(window, xs + [x], fs, gs, EmaOf(Smoothing(window), xs + [x]),
                     EmaOfEma(Smoothing(window), xs + [x]))
  {
    var a := Smoothing(window);
    EmaUnfolds(a, xs, x);
    var e, d := EmaOf(a, xs + [x]), EmaOfEma(a, xs + [x]);
    BlendWeighs(window, x, EmaOf(a, xs));
    BlendWeighs(window, e, EmaOfEma(a, xs));
    SmoothedNext(window, xs, es, x, e);
    SmoothedNext(window, es, ds, e, d);
    fs, gs := es + [e], ds + [d];
  }

  lemma {:induction false} AveragesExactly(window: nat, xs: seq<real>) returns (es: seq<real>, ds: seq<real>)
    requires xs != []
    ensures Averages(window, xs, es, ds, EmaOf(Smoothing(window), xs), EmaOfEma(Smoothing(window), xs))
    decreases |xs|
  {
    if |xs| == 1 {
      return xs, xs;
    }
    var shorter, x := xs[..|xs| - 1], xs[|xs| - 1];
    assert shorter + [x] == xs;
    es, ds := AveragesExactly(window, shorter);
    es, ds := AveragesNext(window, shorter, es, ds, x);
  }

  /**
   The indicator by its equations: missing until the history fills the window, then the mean of the last window closes,
   the last smoothed close, or twice that less the last value smoothed again.
   */
  lemma IndicatorExactly(family: Family, window: nat, xs: seq<real>, v: Option<real>)
    returns (es: seq<real>, ds: seq<real>)
    requires 0 < window && xs != [] && IndicatorOf(family, window, xs) == v
    ensures v.Some? <==> window <= |xs|
    ensures v.Some? && family == Sma ==> v.value * window as real == Sum(xs[|xs| - window..])
    ensures |es| == |ds| == |xs| && Smoothed(window, xs, es) && Smoothed(window, es, ds)
    ensures v.Some? && family == Ema ==> v.value == es[|es| - 1]
    ensures v.Some? && family == Dema ==> v.value == 2.0 * es[|es| - 1] - ds[|ds| - 1]
  {
    es, ds := AveragesExactly(window, xs);
    if v.Some? && family == Sma {
      MeanExactly(Sum(xs[|xs| - window..]), window);
    }
  }

  lemma MeanExactly(total: real, count: nat)
    requires 0 < count
    ensures MeanOf(total, count) * count as real == total
  {
  }
}
