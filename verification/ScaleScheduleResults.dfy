/** What the scale schedule decides, stated by equations on the months' returns. */
module ScaleScheduleResults {
  import opened Basics
  import opened Calendars
  import opened ScaleSchedule

  ghost predicate ExactRoot(root: real -> real) {
    RootLike(root) && forall x {:trigger root(x)} :: 0.0 <= x ==> root(x) * root(x) == x
  }

  // ---------- Estimates ----------

  ghost function Falls(xs: seq<real>): nat -> bool {
    (k: nat) => k < |xs| && xs[k] < 0.0
  }

  function Square(x: real): real {
    x * x
  }

  /** The square of a fall, and nought for any other return. */
  function FallSquare(x: real): real {
    if x < 0.0 then x * x else 0.0
  }

  /** The squares of the falls, with nought for every other return. */
  function FallSquares(xs: seq<real>): (squares: seq<real>)
    ensures |squares| == |xs| && forall k :: 0 <= k < |xs| ==> squares[k] == FallSquare(xs[k])
  {
    seq(|xs|, k requires 0 <= k < |xs| => FallSquare(xs[k]))
  }

  function Squares(xs: seq<real>): (squares: seq<real>)
    ensures |squares| == |xs| && forall k :: 0 <= k < |xs| ==> squares[k] == Square(xs[k])
  {
    seq(|xs|, k requires 0 <= k < |xs| => Square(xs[k]))
  }

  lemma {:induction false} SquaresSummed(xs: seq<real>)
    ensures SumOfSquares(xs) == Sum(Squares(xs)) && 0.0 <= SumOfSquares(xs)
  {
    if xs != [] {
      var shorter, x := xs[..|xs| - 1], xs[|xs| - 1];
      SquaresSummed(shorter);
      SquareNonnegative(x);
      assert forall k :: 0 <= k < |shorter| ==> shorter[k] == xs[k];
      assert Squares(xs)[..|xs| - 1] == Squares(shorter);
    }
  }

  lemma SquareNonnegative(x: real)
    ensures 0.0 <= x * x
  {
  }

  lemma FallsCounted(xs: seq<real>)
    requires xs != []
    ensures HowMany(Falls(xs), 0, |xs|)
         == HowMany(Falls(xs[..|xs| - 1]), 0, |xs| - 1) + Count(xs[|xs| - 1] < 0.0)
  {
    HowManyStep(Falls(xs), 0, |xs| - 1);
    SameCount(Falls(xs), Falls(xs[..|xs| - 1]), |xs| - 1);
  }

  lemma FallSquaresSummed(xs: seq<real>)
    requires xs != []
    ensures var x := xs[|xs| - 1];
      Sum(FallSquares(xs)) == Sum(FallSquares(xs[..|xs| - 1])) + FallSquare(x)
  {
    var shorter := xs[..|xs| - 1];
    assert forall k :: 0 <= k < |shorter| ==> shorter[k] == xs[k];
    assert FallSquares(xs)[..|xs| - 1] == FallSquares(shorter);
  }

  lemma SumOfSquaresAppend(xs: seq<real>, x: real)
    ensures SumOfSquares(xs + [x]) == SumOfSquares(xs) + x * x
  {
    assert (xs + [x])[..|xs|] == xs;
  }

  lemma {:induction false} SumOfSquaresConcat(xs: seq<real>, ys: seq<real>)
    ensures SumOfSquares(xs + ys) == SumOfSquares(xs) + SumOfSquares(ys)
    decreases |ys|
  {
    if ys == [] {
      assert xs + ys == xs;
    } else {
      var shorter, y := ys[..|ys| - 1], ys[|ys| - 1];
      SumOfSquaresConcat(xs, shorter);
      assert xs + ys == xs + shorter + [y] && ys == shorter + [y];
      SumOfSquaresAppend(xs + shorter, y);
      SumOfSquaresAppend(shorter, y);
    }
  }

  lemma {:induction false} NegativesCounted(xs: seq<real>)
    ensures |Negatives(xs)| == HowMany(Falls(xs), 0, |xs|)
  {
    if xs == [] {
      assert (set k: nat | 0 <= k < 0 && Falls(xs)(k)) == {};
      return;
    }
    NegativesCounted(xs[..|xs| - 1]);
    FallsCounted(xs);
  }

  lemma {:induction false} NegativesSquared(xs: seq<real>)
    ensures SumOfSquares(Negatives(xs)) == Sum(FallSquares(xs))
  {
    if xs != [] {
      NegativesSquared(xs[..|xs| - 1]);
      FallSquaresSummed(xs);
      SumOfSquaresAppend(Negatives(xs[..|xs| - 1]), xs[|xs| - 1]);
    }
  }

  /** The negative returns are counted and squared as the returns say. */
  lemma NegativesMean(xs: seq<real>)
    ensures |Negatives(xs)| == HowMany(Falls(xs), 0, |xs|)
    ensures SumOfSquares(Negatives(xs)) == Sum(FallSquares(xs))
  {
    NegativesCounted(xs);
    NegativesSquared(xs);
  }

  /** An estimate is the root of a sum of squares, and missing exactly when that is nought. */
  ghost predicate RootOf(estimate: Option<real>, squares: real) {
    && (estimate.Some? <==> 0.0 < squares)
    && (estimate.Some? ==> 0.0 < estimate.value && estimate.value * estimate.value == squares)
  }

  lemma SpreadExactly(root: real -> real, xs: seq<real>)
    requires ExactRoot(root)
    ensures RootOf(Spread(root, xs), SumOfSquares(xs))
  {
    var x := SumOfSquares(xs);
    assert 0.0 < x ==> root(x) * root(x) == x;
  }

  /** The total estimate of a known month: its square is the sum of all squared returns. */
  lemma TotalExactly(root: real -> real, months: Months, k: nat)
    requires ExactRoot(root)
    ensures Get(months, k).None? ==> TotalSigma(root, months, k) == None
    ensures Get(months, k).Some? ==> RootOf(TotalSigma(root, months, k), Sum(Squares(Get(months, k).value.daily)))
  {
    if Get(months, k).Some? {
      SpreadExactly(root, Get(months, k).value.daily);
      SquaresSummed(Get(months, k).value.daily);
    }
  }

  /**
   The downside estimate of a known month: its square is the sum of the squared falls, its own if it has three, else
   those of the known month before it as well; with no such month there is no estimate.
   */
  lemma DownsideExactly(root: real -> real, months: Months, k: nat)
    requires ExactRoot(root)
    ensures var estimate := DownsideSigma(root, months, Before(months.Keys, k), k);
      match Get(months, k)
      case None => estimate == None
      case Some(month) =>
        var own := month.daily;
        if 3 <= HowMany(Falls(own), 0, |own|) then RootOf(estimate, Sum(FallSquares(own)))
        else match Before(months.Keys, k)
          case None => estimate == None
          case Some(j) =>
            match Get(months, j)
            case None => estimate == None
            case Some(earlier) => RootOf(estimate, Sum(FallSquares(own)) + Sum(FallSquares(earlier.daily)))
  {
    if Get(months, k).Some? {
      var own := Get(months, k).value.daily;
      NegativesMean(own);
      SpreadExactly(root, Negatives(own));
      if Before(months.Keys, k).Some? && Get(months, Before(months.Keys, k).value).Some? {
        BorrowedExactly(root, own, Get(months, Before(months.Keys, k).value).value.daily);
      }
    }
  }

  lemma BorrowedExactly(root: real -> real, own: seq<real>, earlier: seq<real>)
    requires ExactRoot(root)
    ensures RootOf(Spread(root, Negatives(own) + Negatives(earlier)), Sum(FallSquares(own)) + Sum(FallSquares(earlier)))
  {
    NegativesMean(own);
    NegativesMean(earlier);
    SumOfSquaresConcat(Negatives(own), Negatives(earlier));
    SpreadExactly(root, Negatives(own) + Negatives(earlier));
  }

  // ---------- Training pairs ----------

  /** The month before a month start is the one that ends there. */
  lemma MonthBeforeIsPrevious(e: Setup, m: int)
    requires e.cal.Valid()
    ensures e.MonthBefore(e.cal.first(m)) == e.cal.first(m - 1)
  {
    assert e.cal.first(m - 1) < e.cal.first(m);
    IndexUnique(e.cal, e.cal.first(m) - 1, m - 1);
  }

  /** At boundary t a pair enters training: the month just closed is managed and known, and an estimate preceded it. */
  ghost predicate Trains(e: Setup, months: Months, sigma: Sigmas, t: int) {
    var prior := e.MonthBefore(t);
    prior >= e.firstManaged && Get(months, prior).Some? && Get(sigma, e.MonthBefore(prior)).Some?
  }

  /** The pair is that month's return, plain and over the estimate. */
  ghost predicate IsPair(e: Setup, months: Months, sigma: Sigmas, t: int, p: Pair)
    requires Trains(e, months, sigma, t)
  {
    var prior := e.MonthBefore(t);
    p.f == Get(months, prior).value.total && p.z * Get(sigma, e.MonthBefore(prior)).value == p.f
  }

  /** The pairs of the boundaries, in order, from exactly those that train. */
  ghost predicate PairsOf(e: Setup, months: Months, sigma: Sigmas, bs: seq<int>, pairs: seq<Pair>, ix: seq<nat>) {
    && |ix| == |pairs| && (forall a, b :: 0 <= a < b < |ix| ==> ix[a] < ix[b])
    && (forall k :: 0 <= k < |ix| ==>
          ix[k] < |bs| && Trains(e, months, sigma, bs[ix[k]]) && IsPair(e, months, sigma, bs[ix[k]], pairs[k]))
    && forall i: nat :: i < |bs| ==> (i in ix <==> Trains(e, months, sigma, bs[i]))
  }

  lemma QuotientTimes(x: real, y: real)
    requires y != 0.0
    ensures x / y * y == x
  {
  }

  lemma TrainedExactly(e: Setup, months: Months, sigma: Sigmas, pairs: seq<Pair>, t: int)
    requires PositiveSigmas(sigma)
    ensures var r := Trained(e, months, sigma, pairs, t);
      && r.Ok?
      && if Trains(e, months, sigma, t)
         then |r.value| == |pairs| + 1 && pairs <= r.value && IsPair(e, months, sigma, t, r.value[|pairs|])
         else r.value == pairs
  {
    if Trains(e, months, sigma, t) {
      var prior := e.MonthBefore(t);
      QuotientTimes(Get(months, prior).value.total, Get(sigma, e.MonthBefore(prior)).value);
    }
  }

  lemma PairsGrow(e: Setup, months: Months, sigma: Sigmas, bs: seq<int>, pairs: seq<Pair>, ix: seq<nat>, t: int,
      after: seq<Pair>)
    returns (longer: seq<nat>)
    requires PairsOf(e, months, sigma, bs, pairs, ix) && PositiveSigmas(sigma)
    requires Trained(e, months, sigma, pairs, t) == Ok(after)
    ensures PairsOf(e, months, sigma, bs + [t], after, longer)
  {
    TrainedExactly(e, months, sigma, pairs, t);
    if Trains(e, months, sigma, t) {
      assert after == pairs + [after[|pairs|]];
      OnePairMore(e, months, sigma, bs, pairs, ix, t, after[|pairs|]);
      return ix + [|bs|];
    }
    NoPairMore(e, months, sigma, bs, pairs, ix, t);
    return ix;
  }

  lemma NoPairMore(e: Setup, months: Months, sigma: Sigmas, bs: seq<int>, pairs: seq<Pair>, ix: seq<nat>, t: int)
    requires PairsOf(e, months, sigma, bs, pairs, ix) && !Trains(e, months, sigma, t)
    ensures PairsOf(e, months, sigma, bs + [t], pairs, ix)
  {
    var longer := bs + [t];
    assert forall i :: 0 <= i < |bs| ==> longer[i] == bs[i];
    assert |bs| !in ix;
  }

  lemma OnePairMore(e: Setup, months: Months, sigma: Sigmas, bs: seq<int>, pairs: seq<Pair>, ix: seq<nat>, t: int,
      p: Pair)
    requires PairsOf(e, months, sigma, bs, pairs, ix) && Trains(e, months, sigma, t) && IsPair(e, months, sigma, t, p)
    ensures PairsOf(e, months, sigma, bs + [t], pairs + [p], ix + [|bs|])
  {
    var longer, all, jx := bs + [t], pairs + [p], ix + [|bs|];
    assert jx[|ix|] == |bs|;
    forall k | 0 <= k < |jx|
      ensures jx[k] < |longer| && Trains(e, months, sigma, longer[jx[k]])
      ensures IsPair(e, months, sigma, longer[jx[k]], all[k])
    {
      if k < |ix| {
        assert jx[k] == ix[k] && all[k] == pairs[k] && longer[ix[k]] == bs[ix[k]];
      }
    }
    forall i: nat | i < |longer| ensures i in jx <==> Trains(e, months, sigma, longer[i]) {
      assert i < |bs| ==> longer[i] == bs[i] && (i in jx <==> i in ix);
    }
  }

  // ---------- Decisions ----------

  /** The population standard deviation, by its defining equations. */
  ghost predicate IsStdev(xs: seq<real>, sd: real) {
    0.0 <= sd && exists mean :: mean * |xs| as real == Sum(xs) && sd * sd * |xs| as real == SquaredDistance(xs, mean)
  }

  lemma StdevExactly(root: real -> real, xs: seq<real>)
    requires ExactRoot(root) && xs != []
    ensures IsStdev(xs, PopulationStdev(root, xs))
  {
    var n, mean := |xs| as real, Mean(xs);
    QuotientTimes(Sum(xs), n);
    assert mean * n == Sum(xs);
    SquaredDistanceNonnegative(xs, mean);
    QuotientNonnegative(SquaredDistance(xs, mean), n);
    QuotientTimes(SquaredDistance(xs, mean), n);
    var sd := PopulationStdev(root, xs);
    assert sd * sd == SquaredDistance(xs, mean) / n;
    assert sd * sd * n == SquaredDistance(xs, mean);
  }

  /** The training constant: the spread of the returns over that of their quotients, once there are pairs enough. */
  ghost predicate IsConstant(e: Setup, pairs: seq<Pair>, c: Option<real>) {
    if |pairs| < e.minimumPairs then c == None
    else exists f, z ::
      && IsStdev(Fs(pairs), f) && IsStdev(Zs(pairs), z)
      && (c.Some? <==> 0.0 < z) && (c.Some? ==> c.value * z == f)
  }

  lemma ConstantExactly(e: Setup, pairs: seq<Pair>)
    requires ExactRoot(e.root) && 0 < e.minimumPairs
    ensures IsConstant(e, pairs, TrainingConstant(e, pairs))
  {
    if |pairs| >= e.minimumPairs {
      StdevExactly(e.root, Fs(pairs));
      StdevExactly(e.root, Zs(pairs));
      ConstantFrom(e, pairs, PopulationStdev(e.root, Fs(pairs)), PopulationStdev(e.root, Zs(pairs)));
    }
  }

  lemma ConstantFrom(e: Setup, pairs: seq<Pair>, f: real, z: real)
    requires e.minimumPairs <= |pairs| && IsStdev(Fs(pairs), f) && IsStdev(Zs(pairs), z)
    ensures IsConstant(e, pairs, if z > 0.0 then Some(f / z) else None)
  {
    if z > 0.0 {
      QuotientTimes(f, z);
    }
  }

  /** A renewed scale is the constant over the estimate, cut at one; any other stays as it was. */
  ghost predicate IsScale(estimate: Option<real>, c: Option<real>, previous: real, d: Decision) {
    && (d.renewed <==> estimate.Some? && c.Some?)
    && if d.renewed then
         && d.scale <= 1.0 && d.scale * estimate.value <= c.value
         && (d.scale == 1.0 || d.scale * estimate.value == c.value)
       else d.scale == previous
  }

  lemma CutAtOne(x: real, y: real)
    requires 0.0 < y
    ensures var q := Min(1.0, x / y); q <= 1.0 && q * y <= x && (q == 1.0 || q * y == x)
  {
    QuotientTimes(x, y);
    if 1.0 <= x / y {
      assert 1.0 * y <= x / y * y;
    }
  }

  /** What one scored boundary does to scale, decisions and counts. */
  ghost predicate DecidesExactly(before: Ledger, t: int, estimate: Option<real>, c: Option<real>, after: Ledger) {
    && DecidedAt(after, t).Some? && IsScale(estimate, c, before.scale, DecidedAt(after, t).value)
    && after.scale == DecidedAt(after, t).value.scale
    && after.counts.renewed == before.counts.renewed + Count(DecidedAt(after, t).value.renewed)
    && after.counts.carried == before.counts.carried + Count(!DecidedAt(after, t).value.renewed)
    && after.counts.noEstimate == before.counts.noEstimate + Count(estimate.None?)
    && after.counts.noConstant == before.counts.noConstant + Count(c.None?)
  }

  lemma DecideExactly(s: Ledger, t: int, estimate: Option<real>, c: Option<real>, after: Ledger)
    requires Decide(s, t, estimate, c) == Ok(after) && (estimate.Some? ==> 0.0 < estimate.value)
    ensures DecidesExactly(s, t, estimate, c, after) && after.pairs == s.pairs
  {
    if estimate.Some? && c.Some? {
      CutAtOne(c.value, estimate.value);
    }
  }

  // ---------- The whole run ----------

  /** The scale carried past the boundaries: that of the last scored one, or one. */
  ghost predicate CarriesScale(e: Setup, bs: seq<int>, s: Ledger) {
    if bs != [] && e.scoredStart <= bs[|bs| - 1] then
      DecidedAt(s, bs[|bs| - 1]).Some? && s.scale == DecidedAt(s, bs[|bs| - 1]).value.scale
    else s.scale == 1.0
  }

  /** At the last boundary of the list a scale was decided from the pairs of all of them. */
  ghost predicate LastDecision(e: Setup, months: Months, sigma: Sigmas, bs: seq<int>, previous: real, d: Decision)
    requires bs != []
  {
    exists pairs, ix: seq<nat>, c ::
      && PairsOf(e, months, sigma, bs, pairs, ix) && IsConstant(e, pairs, c)
      && IsScale(Get(sigma, e.MonthBefore(bs[|bs| - 1])), c, previous, d)
  }

  lemma EstimatePositive(sigma: Sigmas, k: int)
    requires PositiveSigmas(sigma)
    ensures Get(sigma, k).Some? ==> 0.0 < Get(sigma, k).value
  {
  }

  lemma BoundaryExactly(e: Setup, months: Months, sigma: Sigmas, bs: seq<int>, s: Ledger, ix: seq<nat>, t: int,
      after: Ledger)
    returns (longer: seq<nat>)
    requires ExactRoot(e.root) && 0 < e.minimumPairs && PositiveSigmas(sigma)
    requires PairsOf(e, months, sigma, bs, s.pairs, ix) && Boundary(e, months, sigma, s, t) == Ok(after)
    ensures PairsOf(e, months, sigma, bs + [t], after.pairs, longer)
    ensures t < e.scoredStart ==> after.scale == s.scale && after.decisions == s.decisions
    ensures t >= e.scoredStart ==>
      && DecidedAt(after, t).Some? && after.scale == DecidedAt(after, t).value.scale
      && LastDecision(e, months, sigma, bs + [t], s.scale, DecidedAt(after, t).value)
  {
    var pairs := Trained(e, months, sigma, s.pairs, t).value;
    longer := PairsGrow(e, months, sigma, bs, s.pairs, ix, t, pairs);
    if t >= e.scoredStart {
      var c := TrainingConstant(e, pairs);
      ConstantExactly(e, pairs);
      EstimatePositive(sigma, e.MonthBefore(t));
      DecideExactly(s.(pairs := pairs), t, Get(sigma, e.MonthBefore(t)), c, after);
    }
  }

  lemma {:induction false} RunPairs(e: Setup, months: Months, sigma: Sigmas, bs: seq<int>, s: Ledger)
    returns (ix: seq<nat>)
    requires ExactRoot(e.root) && 0 < e.minimumPairs && PositiveSigmas(sigma) && StrictlyIncreasing(bs)
    requires RunSchedule(e, months, sigma, bs) == Ok(s)
    ensures PairsOf(e, months, sigma, bs, s.pairs, ix) && CarriesScale(e, bs, s)
    decreases |bs|
  {
    if bs == [] {
      return [];
    }
    var shorter, t := bs[..|bs| - 1], bs[|bs| - 1];
    EarlierFailure(e, months, sigma, bs);
    var before := RunSchedule(e, months, sigma, shorter).value;
    ix := RunPairs(e, months, sigma, shorter, before);
    LastBoundary(e, months, sigma, bs, before);
    ix := BoundaryExactly(e, months, sigma, shorter, before, ix, t, s);
    assert shorter + [t] == bs;
  }

  lemma LatestExactly(e: Setup, months: Months, sigma: Sigmas, bs: seq<int>, s: Ledger) returns (previous: real)
    requires ExactRoot(e.root) && 0 < e.minimumPairs && PositiveSigmas(sigma) && StrictlyIncreasing(bs) && bs != []
    requires RunSchedule(e, months, sigma, bs) == Ok(s) && e.scoredStart <= bs[|bs| - 1]
    ensures DecidedAt(s, bs[|bs| - 1]).Some?
    ensures LastDecision(e, months, sigma, bs, previous, DecidedAt(s, bs[|bs| - 1]).value)
    ensures |bs| > 1 && e.scoredStart <= bs[|bs| - 2] ==>
      DecidedAt(s, bs[|bs| - 2]).Some? && previous == DecidedAt(s, bs[|bs| - 2]).value.scale
    ensures !(|bs| > 1 && e.scoredStart <= bs[|bs| - 2]) ==> previous == 1.0
  {
    var shorter, t := bs[..|bs| - 1], bs[|bs| - 1];
    EarlierFailure(e, months, sigma, bs);
    var before := RunSchedule(e, months, sigma, shorter).value;
    var ix := RunPairs(e, months, sigma, shorter, before);
    LastBoundary(e, months, sigma, bs, before);
    ix := BoundaryExactly(e, months, sigma, shorter, before, ix, t, s);
    assert shorter + [t] == bs;
    previous := before.scale;
    if |bs| > 1 {
      BoundaryKeepsDecisions(e, months, sigma, before, t, bs[|bs| - 2]);
    }
  }

  /**
   Every scored boundary of a whole run: the pairs come from exactly the months closed by then and managed, a scale is
   renewed exactly when the latest month has an estimate and the pairs give a constant, it is then the constant over
   the estimate cut at one, and otherwise it is the previous boundary's scale, or one at the first.
   */
  lemma ScheduleExactly(e: Setup, months: Months, sigma: Sigmas, bs: seq<int>, k: nat, s: Ledger)
    returns (previous: real)
    requires ExactRoot(e.root) && 0 < e.minimumPairs && PositiveSigmas(sigma) && StrictlyIncreasing(bs)
    requires k < |bs| && e.scoredStart <= bs[k] && RunSchedule(e, months, sigma, bs) == Ok(s)
    ensures DecidedAt(s, bs[k]).Some?
    ensures LastDecision(e, months, sigma, bs[..k + 1], previous, DecidedAt(s, bs[k]).value)
    ensures k > 0 && e.scoredStart <= bs[k - 1] ==>
      DecidedAt(s, bs[k - 1]).Some? && previous == DecidedAt(s, bs[k - 1]).value.scale
    ensures !(k > 0 && e.scoredStart <= bs[k - 1]) ==> previous == 1.0
  {
    var early := FinalAt(e, months, sigma, bs, k);
    previous := LatestExactly(e, months, sigma, early, RunSchedule(e, months, sigma, early).value);
    if k > 0 {
      DecisionsAreFinal(e, months, sigma, bs, k + 1, bs[k - 1]);
    }
  }

  /** Each scored boundary is counted once, as renewed or carried, and by what it lacked. */
  lemma CountedExactly(e: Setup, months: Months, sigma: Sigmas, bs: seq<int>, before: Ledger, s: Ledger)
    returns (c: Option<real>)
    requires ExactRoot(e.root) && 0 < e.minimumPairs && PositiveSigmas(sigma) && bs != []
    requires RunSchedule(e, months, sigma, bs[..|bs| - 1]) == Ok(before) && RunSchedule(e, months, sigma, bs) == Ok(s)
    ensures IsConstant(e, s.pairs, c)
    ensures if bs[|bs| - 1] < e.scoredStart then s.counts == before.counts
      else DecidesExactly(before, bs[|bs| - 1], Get(sigma, e.MonthBefore(bs[|bs| - 1])), c, s)
  {
    var t := bs[|bs| - 1];
    LastBoundary(e, months, sigma, bs, before);
    var pairs := Trained(e, months, sigma, before.pairs, t).value;
    c := TrainingConstant(e, pairs);
    ConstantExactly(e, pairs);
    if t >= e.scoredStart {
      EstimatePositive(sigma, e.MonthBefore(t));
      DecideExactly(before.(pairs := pairs), t, Get(sigma, e.MonthBefore(t)), c, s);
    }
  }
}
