/** What the scaled cell counts, when it stops, and the figures it reports, from the bars and the schedule. */
module VolScalingReports {
  import opened Basics
  import opened Costs
  import opened CycleAccount
  import opened Crossover
  import opened VolScaling
  import opened VolScalingResults
  import opened EquityDrawdown

  // ---------- What each bar counts ----------

  /** Bar i opens a month for which the cell is scaled, and both averages are known there. */
  ghost predicate OpensMonth(c: Cell, i: nat)
    requires c.Valid() && i < c.end
  {
    c.schedule.Some? && c.bars.times[i] == c.monthStart(c.bars.times[i]) && Known(c.bars, i)
  }

  /** Bar i asks for a fill: an entry, an exit, or a new month's scale while bought. */
  ghost predicate Wants(c: Cell, i: nat)
    requires c.Valid() && i < c.end
  {
    var held := Held(c.bars, c.start, c.end, i);
    if held then CrossesDown(c.bars, i) || OpensMonth(c, i) else CrossesUp(c.bars, i)
  }

  /** What bar i adds to the counts: only the last bar leaves a fill missing, and a rebalance changes the holding. */
  ghost predicate TalliedExactly(c: Cell, i: nat, s: Sim, after: Sim)
    requires c.Valid() && i < c.end
  {
    var held := Held(c.bars, c.start, c.end, i);
    var t, u := s.tally, after.tally;
    && u.missing == t.missing + Count(Wants(c, i) && i == c.end - 1)
    && u.belowOne == t.belowOne + Count(Renews(c, i) && u.scale < 1.0)
    && u.scaledEntries == t.scaledEntries + Count(!held && CrossesUp(c.bars, i) && i < c.end - 1 && u.scale < 1.0)
    && u.rebalances == t.rebalances
         + Count(held && OpensMonth(c, i) && !CrossesDown(c.bars, i)
                 && after.legs.base.quantity != s.legs.base.quantity)
  }

  /** What a bought bar adds: its scale, and its exposure at the close. */
  ghost predicate ExposedExactly(c: Cell, i: nat, s: Sim, after: Sim)
    requires c.Valid() && i < c.end
  {
    var t, u := s.tally, after.tally;
    if Held(c.bars, c.start, c.end, i) then
      && u.scales == t.scales + [t.scale]
      && u.exposure == t.exposure + s.legs.base.quantity * c.bars.closes[i]
    else u.scales == t.scales && u.exposure == t.exposure
  }

  lemma StepExposes(c: Cell, s: Sim, i: nat, after: Sim)
    requires c.Valid() && c.start <= i < c.end && Step(c, s, i) == Ok(after)
    requires s.tally.long == Held(c.bars, c.start, c.end, i)
    ensures ExposedExactly(c, i, s, after)
  {
  }

  lemma StepTallies(c: Cell, s: Sim, i: nat, after: Sim)
    requires c.Valid() && c.start <= i < c.end && Step(c, s, i) == Ok(after)
    requires HoldsScaled(c, s) && HoldsScaled(c, after) && s.tally.long == Held(c.bars, c.start, c.end, i)
    ensures TalliedExactly(c, i, s, after)
  {
    CrossingsExactly(c.bars, c.end, i);
  }

  /** Every bar of a run counts exactly what the bars and the schedule show there. */
  lemma BarTallies(c: Cell, i: nat, s: Sim, after: Sim)
    requires c.Valid() && c.start <= i < c.end && Run(c, i) == Ok(s) && Run(c, i + 1) == Ok(after)
    ensures TalliedExactly(c, i, s, after) && ExposedExactly(c, i, s, after)
  {
    PositionIsHeld(c, i, s);
    QuantityFollowsScale(c, i, s);
    QuantityFollowsScale(c, i + 1, after);
    OneStep(c, i, s);
    StepTallies(c, s, i, after);
    StepExposes(c, s, i, after);
  }

  /** A cell is opened with nothing counted, or not at all. */
  lemma StartsExactly(c: Cell)
    requires c.Valid()
    ensures Start(c) == Err(EmptyCell) <==> c.end <= c.start
    ensures Start(c) == Err(MissingStartScale) <==>
      c.start < c.end && c.schedule.Some? && c.monthStart(c.bars.times[c.start]) !in c.schedule.value
    ensures Start(c).Err? ==> Start(c).error == EmptyCell || Start(c).error == MissingStartScale
    ensures Start(c).Ok? ==>
      var t := Start(c).value.tally;
      t.missing == t.rebalances == t.scaledEntries == t.belowOne == 0 && t.exposure == 0.0 && t.scales == []
  {
  }

  // ---------- When a run stops ----------

  lemma StepStopsExactly(c: Cell, s: Sim, i: nat)
    requires c.Valid() && c.start <= i < c.end
    requires s.tally.long == Held(c.bars, c.start, c.end, i) && 0.0 < s.tally.peak
    ensures Step(c, s, i) == Err(MissingMonthlyScale) <==>
      OpensMonth(c, i) && c.bars.times[i] !in c.schedule.value
    ensures Step(c, s, i) == Err(MissingFillBar) <==>
      && !(OpensMonth(c, i) && c.bars.times[i] !in c.schedule.value)
      && Wants(c, i) && i < c.end - 1 && !NextHour(c.bars, c.end, i)
  {
    CrossingsExactly(c.bars, c.end, i);
  }

  /** A run stops for a scale exactly where a month opens without one, and for a bar where a wanted fill has none. */
  lemma StopsExactly(c: Cell, i: nat, s: Sim)
    requires c.Valid() && 0.0 < c.policy.initial && c.start <= i < c.end && Run(c, i) == Ok(s)
    ensures Run(c, i + 1) == Err(MissingMonthlyScale) <==>
      OpensMonth(c, i) && c.bars.times[i] !in c.schedule.value
    ensures Run(c, i + 1) == Err(MissingFillBar) <==>
      && !(OpensMonth(c, i) && c.bars.times[i] !in c.schedule.value)
      && Wants(c, i) && i < c.end - 1 && !NextHour(c.bars, c.end, i)
  {
    PositionIsHeld(c, i, s);
    PeakStaysPositive(c, i, s);
    OneStep(c, i, s);
    StepStopsExactly(c, s, i);
  }

  // ---------- The reported figures ----------

  /** The capital, then what the base account is worth at each close up to bar i. */
  ghost predicate Sampled(c: Cell, i: nat, curve: seq<real>)
    requires c.Valid() && i <= c.end
  {
    && c.start <= i && |curve| == i - c.start + 1 && curve[0] == c.policy.initial
    && forall k: nat :: c.start <= k < i ==>
      Run(c, k).Ok? && curve[k - c.start + 1] == Run(c, k).value.legs.base.Equity(c.bars.closes[k], c.policy.costs.base)
  }

  lemma StepTracks(c: Cell, s: Sim, i: nat, after: Sim, curve: seq<real>)
    requires c.Valid() && i < c.end && Step(c, s, i) == Ok(after)
    requires Tracks(curve, s.tally.peak, s.tally.drawdown)
    ensures var equity := s.legs.base.Equity(c.bars.closes[i], c.policy.costs.base);
      Tracks(curve + [equity], after.tally.peak, after.tally.drawdown)
  {
    var equity := s.legs.base.Equity(c.bars.closes[i], c.policy.costs.base);
    StepMarks(c, s, i, after);
    TracksNext(curve, s.tally.peak, s.tally.drawdown, equity);
  }

  lemma StepMarks(c: Cell, s: Sim, i: nat, after: Sim)
    requires c.Valid() && i < c.end && Step(c, s, i) == Ok(after)
    ensures var top := Max(s.tally.peak, s.legs.base.Equity(c.bars.closes[i], c.policy.costs.base));
      && top != 0.0 && after.tally.peak == top
      && after.tally.drawdown
        == Max(s.tally.drawdown, DrawdownFrom(top, s.legs.base.Equity(c.bars.closes[i], c.policy.costs.base)))
  {
  }

  lemma SampledNext(c: Cell, i: nat, s: Sim, curve: seq<real>)
    requires c.Valid() && c.start <= i < c.end && Run(c, i) == Ok(s) && Sampled(c, i, curve)
    ensures Sampled(c, i + 1, curve + [s.legs.base.Equity(c.bars.closes[i], c.policy.costs.base)])
  {
  }

  /** Peak and drawdown so far are those of the sampled curve. */
  lemma {:induction false} DrawdownSoFar(c: Cell, i: nat, s: Sim) returns (curve: seq<real>)
    requires c.Valid() && c.start <= i <= c.end && Run(c, i) == Ok(s)
    ensures Sampled(c, i, curve) && Tracks(curve, s.tally.peak, s.tally.drawdown)
    decreases i, 1
  {
    if i == c.start {
      AtStart(c, s);
      StartsTracking(c.policy.initial);
      return [c.policy.initial];
    }
    var before := Earlier(c, i, s);
    curve := DrawdownNext(c, i - 1, before, s);
  }

  lemma {:induction false} DrawdownNext(c: Cell, i: nat, s: Sim, after: Sim) returns (curve: seq<real>)
    requires c.Valid() && c.start <= i < c.end && Run(c, i) == Ok(s) && Run(c, i + 1) == Ok(after)
    ensures Sampled(c, i + 1, curve) && Tracks(curve, after.tally.peak, after.tally.drawdown)
    decreases i + 1, 0
  {
    var shorter := DrawdownSoFar(c, i, s);
    OneStep(c, i, s);
    SampledNext(c, i, s, shorter);
    StepTracks(c, s, i, after, shorter);
    curve := shorter + [s.legs.base.Equity(c.bars.closes[i], c.policy.costs.base)];
  }

  /**
   The reported net is what selling out at the last close would leave, less the capital, for both accounts; the realized
   results are the closed cycles'; and the drawdown is the worst of the sampled curve with that final value.
   */
  lemma ReportExactly(c: Cell, r: Report) returns (s: Sim, curve: seq<real>)
    requires c.Valid() && 0.0 < c.policy.initial && Outcome(c) == Ok(r)
    ensures c.start < c.end && Run(c, c.end) == Ok(s) && r.sim == s && Sampled(c, c.end, curve)
    ensures r.baseNet == SoldOut(s.legs.base, c.bars.closes[c.end - 1], c.policy.costs.base) - c.policy.initial
    ensures r.stressNet == SoldOut(s.legs.stress, c.bars.closes[c.end - 1], c.policy.costs.stress) - c.policy.initial
    ensures r.realized == Sum(s.legs.base.realized) && r.stressRealized == Sum(s.legs.stress.realized)
    ensures r.completed == s.tally.exits
    ensures WorstAlong(curve + [r.baseNet + c.policy.initial], r.drawdown)
  {
    s := Run(c, c.end).value;
    NonEmpty(c, c.end);
    QuantityFollowsScale(c, c.end, s);
    PeakStaysPositive(c, c.end, s);
    curve := DrawdownSoFar(c, c.end, s);
    ClosedExactly(c, s, r);
    LastSample(curve, s.tally.peak, s.tally.drawdown, r.baseNet + c.policy.initial);
  }

  lemma ClosedExactly(c: Cell, s: Sim, r: Report)
    requires c.Valid() && c.start < c.end && Closed(c, s) == Ok(r)
    ensures r.sim == s
    ensures r.baseNet == SoldOut(s.legs.base, c.bars.closes[c.end - 1], c.policy.costs.base) - c.policy.initial
    ensures r.stressNet == SoldOut(s.legs.stress, c.bars.closes[c.end - 1], c.policy.costs.stress) - c.policy.initial
    ensures r.realized == Sum(s.legs.base.realized) && r.stressRealized == Sum(s.legs.stress.realized)
    ensures r.completed == |s.legs.base.realized|
    ensures s.tally.peak != 0.0
      && r.drawdown == Max(s.tally.drawdown, DrawdownFrom(s.tally.peak, r.baseNet + c.policy.initial))
  {
    EquityIsSoldOut(s.legs.base, c.bars.closes[c.end - 1], c.policy.costs.base);
    EquityIsSoldOut(s.legs.stress, c.bars.closes[c.end - 1], c.policy.costs.stress);
  }
}
