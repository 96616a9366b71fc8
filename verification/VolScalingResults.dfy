/** What the scaled and control cells promise over whole runs. */
module VolScalingResults {
  import opened Basics
  import opened Costs
  import opened CycleAccount
  import opened Crossover
  import opened VolScaling

  // ---------- Direction does not depend on scale ----------

  lemma HeadingStep(c: Cell, s: Sim, i: nat, after: Sim)
    requires c.Valid() && c.start <= i < c.end && Step(c, s, i) == Ok(after)
    ensures after.tally.Heading() == Turn(c.bars, c.end, s.tally.Heading(), i)
  {
  }

  /** A run that has not failed is going exactly where the crossover automaton goes, whatever its schedule. */
  lemma {:induction false} HeadingIsCourse(c: Cell, i: nat, s: Sim)
    requires c.Valid() && c.start <= i <= c.end && Run(c, i) == Ok(s)
    ensures s.tally.Heading() == Course(c.bars, c.start, c.end, i)
  {
    if i == c.start {
      return;
    }
    var before := Earlier(c, i, s);
    HeadingIsCourse(c, i - 1, before);
    OneStep(c, i - 1, before);
    HeadingStep(c, before, i - 1, s);
  }

  /** Scaling preserves direction: position, signals, fills and active hours of two schedules agree at every bar. */
  lemma ScalingPreservesDirection(c: Cell, d: Cell, i: nat, s: Sim, t: Sim)
    requires c.Valid() && d == c.(schedule := d.schedule) && i <= c.end
    requires Run(c, i) == Ok(s) && Run(d, i) == Ok(t)
    ensures s.tally.Heading() == t.tally.Heading()
  {
    if c.start <= i {
      HeadingIsCourse(c, i, s);
      HeadingIsCourse(d, i, t);
    }
  }

  ghost predicate ShadowMatchesRun(c: Cell, reset: nat)
    requires c.Valid()
  {
    forall i :: c.start <= i < c.end ==> Run(c, i).Ok? && Shadow(c.bars, reset, i) == Run(c, i).value.tally.long
  }

  lemma PositionIsCourse(c: Cell, i: nat)
    requires c.Valid() && Run(c, c.end).Ok? && c.start <= i <= c.end
    ensures Run(c, i).Ok? && Run(c, i).value.tally.long == Course(c.bars, c.start, c.end, i).long
  {
    if Run(c, i).Err? {
      FailureIsFinal(c, i, c.end);
    }
    HeadingIsCourse(c, i, Run(c, i).value);
  }

  /**
   The shadow position behind the volatility estimate, reset at or before the cell's first bar, is the simulator's
   position at every bar if and only if it is flat when the cell starts and no entry fills off the reset bar.
   */
  lemma ShadowIsSimulatedPosition(c: Cell, reset: nat)
    requires c.Valid() && reset <= c.start < c.end && Run(c, c.end).Ok?
    ensures ShadowMatchesRun(c, reset)
       <==> !Shadow(c.bars, reset, c.start) && !IgnoredEntry(c.bars, reset, c.start, c.end)
  {
    forall i | c.start <= i < c.end
      ensures Run(c, i).Ok? && Run(c, i).value.tally.long == Course(c.bars, c.start, c.end, i).long
    {
      PositionIsCourse(c, i);
    }
    if ShadowMatchesRun(c, reset) {
      assert ShadowTracks(c.bars, reset, c.start, c.end);
    }
    ShadowAgreesExactlyWhen(c.bars, reset, c.start, c.end);
  }

  /**
   A later cell against the same shadow: a long simulator means a long shadow, and they are equal at a bar if and
   only if the shadow was flat when the cell started or a crossing has been filled since.
   */
  lemma ShadowRejoinsPosition(c: Cell, reset: nat, i: nat)
    requires c.Valid() && Run(c, c.end).Ok? && reset <= c.start <= i < c.end
    requires !IgnoredEntry(c.bars, reset, c.start, c.end)
    ensures Run(c, i).Ok?
    ensures Run(c, i).value.tally.long ==> Shadow(c.bars, reset, i)
    ensures Shadow(c.bars, reset, i) == Run(c, i).value.tally.long
       <==> !Shadow(c.bars, reset, c.start) || SettledBetween(c.bars, c.end, c.start, i)
  {
    PositionIsCourse(c, i);
    ShadowAgainstCourse(c.bars, reset, c.start, c.end, i);
  }

  // ---------- Quantity follows scale ----------

  /** While long both accounts hold the scaled base quantity inside an open cycle; while flat they hold nothing. */
  predicate HoldsScaled(c: Cell, s: Sim) {
    var held := if s.tally.long then c.Target(s.tally.scale) else 0.0;
    && s.legs.base.quantity == held && s.legs.stress.quantity == held
    && s.legs.base.cycle.Some? == s.tally.long && s.legs.stress.cycle.Some? == s.tally.long
    && |s.legs.base.realized| == s.tally.exits && |s.legs.stress.realized| == s.tally.exits
    && |s.tally.scales| == s.tally.hours
  }

  lemma HoldsScaledStep(c: Cell, s: Sim, i: nat, after: Sim)
    requires c.Valid() && c.start <= i < c.end && Step(c, s, i) == Ok(after) && HoldsScaled(c, s)
    ensures HoldsScaled(c, after)
  {
  }

  lemma {:induction false} QuantityFollowsScale(c: Cell, i: nat, s: Sim)
    requires c.Valid() && c.start <= i <= c.end && Run(c, i) == Ok(s)
    ensures HoldsScaled(c, s)
  {
    if i == c.start {
      return;
    }
    var before := Earlier(c, i, s);
    QuantityFollowsScale(c, i - 1, before);
    OneStep(c, i - 1, before);
    HoldsScaledStep(c, before, i - 1, s);
  }

  // ---------- Exposure ----------

  ghost predicate LongOnlyCell(c: Cell) {
    c.Valid() && 0.0 <= c.policy.baseQuantity && c.ScalesWithinOne()
  }

  lemma ScaleStep(c: Cell, s: Sim, i: nat, after: Sim)
    requires c.Valid() && i < c.end && Step(c, s, i) == Ok(after)
    ensures
      || after.tally.scale == s.tally.scale
      || (c.schedule.Some? && c.bars.times[i] in c.schedule.value
          && after.tally.scale == c.schedule.value[c.bars.times[i]])
  {
  }

  lemma ScaleStaysWithinOne(c: Cell, s: Sim, i: nat, after: Sim)
    requires LongOnlyCell(c) && i < c.end && Step(c, s, i) == Ok(after) && 0.0 <= s.tally.scale <= 1.0
    ensures 0.0 <= after.tally.scale <= 1.0
  {
    ScaleStep(c, s, i, after);
    if c.schedule.Some? && c.bars.times[i] in c.schedule.value {
      var t := c.bars.times[i];
      assert t in c.schedule.value && 0.0 <= c.schedule.value[t] <= 1.0;
    }
  }

  lemma StartScaleWithinOne(c: Cell, s: Sim)
    requires LongOnlyCell(c) && Start(c) == Ok(s)
    ensures 0.0 <= s.tally.scale <= 1.0
  {
    if c.schedule.Some? {
      var t := c.monthStart(c.bars.times[c.start]);
      assert t in c.schedule.value && 0.0 <= c.schedule.value[t] <= 1.0;
    }
  }

  lemma {:induction false} ScaleWithinOne(c: Cell, i: nat, s: Sim)
    requires LongOnlyCell(c) && c.start <= i <= c.end && Run(c, i) == Ok(s)
    ensures 0.0 <= s.tally.scale <= 1.0
  {
    if i == c.start {
      AtStart(c, s);
      StartScaleWithinOne(c, s);
      return;
    }
    var before := Earlier(c, i, s);
    ScaleWithinOne(c, i - 1, before);
    OneStep(c, i - 1, before);
    ScaleStaysWithinOne(c, before, i - 1, s);
  }

  lemma TargetWithinBase(c: Cell, scale: real)
    requires 0.0 <= c.policy.baseQuantity && 0.0 <= scale <= 1.0
    ensures 0.0 <= c.Target(scale) <= c.Target(1.0)
  {
    var q := c.policy.baseQuantity;
    MulOrder(q, q, scale, 1.0);
    assert c.Target(scale) == q * scale && c.Target(1.0) == q * 1.0;
  }

  lemma {:induction false} ControlScaleIsOne(c: Cell, i: nat, s: Sim)
    requires c.Valid() && c.schedule.None? && c.start <= i <= c.end && Run(c, i) == Ok(s)
    ensures s.tally.scale == 1.0
  {
    if i == c.start {
      return;
    }
    var before := Earlier(c, i, s);
    ControlScaleIsOne(c, i - 1, before);
    OneStep(c, i - 1, before);
    ScaleStep(c, before, i - 1, s);
  }

  /** The two cells are alike but for their schedule, and the second has none. */
  ghost predicate IsControlOf(d: Cell, c: Cell) {
    d == c.(schedule := None)
  }

  lemma HoldingOrder(c: Cell, d: Cell, s: Sim, t: Sim)
    requires IsControlOf(d, c) && 0.0 <= c.policy.baseQuantity && HoldsScaled(c, s) && HoldsScaled(d, t)
    requires s.tally.long == t.tally.long && 0.0 <= s.tally.scale <= 1.0 && t.tally.scale == 1.0
    ensures 0.0 <= s.legs.base.quantity <= t.legs.base.quantity
  {
    TargetWithinBase(c, s.tally.scale);
    if s.tally.long {
      assert s.legs.base.quantity == c.Target(s.tally.scale);
      assert t.legs.base.quantity == d.Target(1.0) == c.Target(1.0);
    }
  }

  /** At every bar the scaled holding is within the control holding. */
  lemma HoldingWithinControl(c: Cell, d: Cell, i: nat, s: Sim, t: Sim)
    requires LongOnlyCell(c) && IsControlOf(d, c) && c.start <= i <= c.end && Run(c, i) == Ok(s) && Run(d, i) == Ok(t)
    ensures 0.0 <= s.legs.base.quantity <= t.legs.base.quantity
  {
    ScalingPreservesDirection(c, d, i, s, t);
    QuantityFollowsScale(c, i, s);
    QuantityFollowsScale(d, i, t);
    ScaleWithinOne(c, i, s);
    ControlScaleIsOne(d, i, t);
    HoldingOrder(c, d, s, t);
  }

  lemma ExposureStep(c: Cell, s: Sim, i: nat, after: Sim)
    requires c.Valid() && i < c.end && Step(c, s, i) == Ok(after)
    ensures after.tally.exposure
         == s.tally.exposure + if s.tally.long then Notional(s.legs.base.quantity, c.bars.closes[i]) else 0.0
  {
  }

  /** One bar later the scaled exposure is still within the control's. */
  lemma ExposureOrder(c: Cell, d: Cell, s: Sim, t: Sim, i: nat, after: Sim, controlAfter: Sim)
    requires c.Valid() && IsControlOf(d, c) && i < c.end && 0.0 <= c.bars.closes[i]
    requires 0.0 <= s.legs.base.quantity <= t.legs.base.quantity
    requires s.tally.long == t.tally.long && s.tally.exposure <= t.tally.exposure
    requires Step(c, s, i) == Ok(after) && Step(d, t, i) == Ok(controlAfter)
    ensures after.tally.exposure <= controlAfter.tally.exposure
  {
    ExposureStep(c, s, i, after);
    ExposureStep(d, t, i, controlAfter);
    NotionalOrder(s.legs.base.quantity, t.legs.base.quantity, c.bars.closes[i]);
  }

  lemma ExposureNext(c: Cell, d: Cell, i: nat, s: Sim, t: Sim, after: Sim, controlAfter: Sim)
    requires LongOnlyCell(c) && c.bars.Priced() && IsControlOf(d, c) && c.start <= i < c.end
    requires Run(c, i) == Ok(s) && Run(d, i) == Ok(t) && s.tally.exposure <= t.tally.exposure
    requires Run(c, i + 1) == Ok(after) && Run(d, i + 1) == Ok(controlAfter)
    ensures after.tally.exposure <= controlAfter.tally.exposure
  {
    OneStep(c, i, s);
    OneStep(d, i, t);
    HoldingWithinControl(c, d, i, s, t);
    ScalingPreservesDirection(c, d, i, s, t);
    ExposureOrder(c, d, s, t, i, after, controlAfter);
  }

  /** Scaling never adds exposure: the notional exposure sum stays within the control's. */
  lemma {:induction false} ExposureWithinControl(c: Cell, d: Cell, i: nat, s: Sim, t: Sim)
    requires LongOnlyCell(c) && c.bars.Priced() && IsControlOf(d, c)
    requires c.start <= i <= c.end && Run(c, i) == Ok(s) && Run(d, i) == Ok(t)
    ensures s.tally.exposure <= t.tally.exposure
  {
    if i == c.start {
      return;
    }
    var before := Earlier(c, i, s);
    var controlBefore := Earlier(d, i, t);
    ExposureWithinControl(c, d, i - 1, before, controlBefore);
    ExposureNext(c, d, i - 1, before, controlBefore, s, t);
  }

  // ---------- Both accounts are trade histories ----------

  /** The trade, if any, that bar i made in both accounts. */
  ghost predicate TradedLegs(c: Cell, l: Legs, after: Legs, t: Option<Trade>, i: nat)
    requires c.Valid() && i < c.end
  {
    match t
    case None => after == l
    case Some(x) =>
      && i + 1 < c.end && x.reference == c.bars.opens[i + 1] && x.costs == c.policy.costs.base
      && Traded(l.base, x) == Ok(after.base)
      && Traded(l.stress, x.(costs := c.policy.costs.stress)) == Ok(after.stress)
  }

  lemma StepTrades(c: Cell, s: Sim, i: nat, after: Sim) returns (t: Option<Trade>)
    requires c.Valid() && c.start <= i < c.end && Step(c, s, i) == Ok(after) && HoldsScaled(c, s)
    ensures TradedLegs(c, s.legs, after.legs, t, i)
  {
    var cross := CrossAt(c.bars, i);
    var enter := !s.tally.long && cross == Up;
    var exit := s.tally.long && cross == Down;
    var boundary := if cross == Undefined then None else c.BoundaryScale(i);
    if cross == Undefined || !(enter || exit || (s.tally.long && boundary.Some?)) || i + 1 >= c.end {
      return None;
    }
    var reference := c.bars.opens[i + 1];
    if exit {
      t := Some(Trade.Sell(reference, s.legs.base.quantity, c.policy.costs.base, true));
    } else if enter {
      var next := if boundary.Some? then boundary.value else s.tally.scale;
      t := Some(Trade.Buy(reference, c.Target(next), c.policy.costs.base, true));
    } else {
      var delta := c.Target(boundary.value) - s.legs.base.quantity;
      t := if delta > 0.0 then Some(Trade.Buy(reference, delta, c.policy.costs.base, false))
      else if delta < 0.0 then Some(Trade.Sell(reference, -delta, c.policy.costs.base, false))
      else None;
    }
  }

  ghost predicate HistoryOf(c: Cell, ts: seq<Trade>, costs: CostPolicy, b: Book)
    requires c.Valid()
  {
    && Replay(c.policy.initial, ts) == Ok(b)
    && forall k :: 0 <= k < |ts| ==> ts[k].costs == costs && (c.bars.Priced() ==> 0.0 <= ts[k].reference)
  }

  lemma HistoryExtends(c: Cell, ts: seq<Trade>, t: Trade, b: Book, after: Book)
    requires c.Valid() && HistoryOf(c, ts, t.costs, b) && Traded(b, t) == Ok(after)
    requires c.bars.Priced() ==> 0.0 <= t.reference
    ensures HistoryOf(c, ts + [t], t.costs, after)
  {
    assert (ts + [t])[..|ts|] == ts;
  }

  /** The histories of both accounts, one trade longer if the bar traded. */
  lemma HistoriesNext(c: Cell, i: nat, s: Sim, after: Sim, ts: seq<Trade>, us: seq<Trade>)
    returns (ts': seq<Trade>, us': seq<Trade>)
    requires c.Valid() && c.start <= i < c.end && Run(c, i) == Ok(s) && Run(c, i + 1) == Ok(after)
    requires HistoryOf(c, ts, c.policy.costs.base, s.legs.base)
      && HistoryOf(c, us, c.policy.costs.stress, s.legs.stress)
    ensures HistoryOf(c, ts', c.policy.costs.base, after.legs.base)
    ensures HistoryOf(c, us', c.policy.costs.stress, after.legs.stress)
  {
    OneStep(c, i, s);
    QuantityFollowsScale(c, i, s);
    var t := StepTrades(c, s, i, after);
    if t.None? {
      return ts, us;
    }
    var u := t.value.(costs := c.policy.costs.stress);
    HistoryExtends(c, ts, t.value, s.legs.base, after.legs.base);
    HistoryExtends(c, us, u, s.legs.stress, after.legs.stress);
    return ts + [t.value], us + [u];
  }

  lemma {:induction false} AccountsAreHistories(c: Cell, i: nat, s: Sim) returns (ts: seq<Trade>, us: seq<Trade>)
    requires c.Valid() && c.start <= i <= c.end && Run(c, i) == Ok(s)
    ensures HistoryOf(c, ts, c.policy.costs.base, s.legs.base)
    ensures HistoryOf(c, us, c.policy.costs.stress, s.legs.stress)
    decreases i, 1
  {
    if i == c.start {
      AtStart(c, s);
      StartIsEmptyHistory(c, s);
      return [], [];
    }
    var before := Earlier(c, i, s);
    ts, us := HistoriesUpTo(c, i - 1, before, s);
  }

  lemma {:induction false} HistoriesUpTo(c: Cell, i: nat, s: Sim, after: Sim) returns (ts: seq<Trade>, us: seq<Trade>)
    requires c.Valid() && c.start <= i < c.end && Run(c, i) == Ok(s) && Run(c, i + 1) == Ok(after)
    ensures HistoryOf(c, ts, c.policy.costs.base, after.legs.base)
    ensures HistoryOf(c, us, c.policy.costs.stress, after.legs.stress)
    decreases i + 1, 0
  {
    ts, us := AccountsAreHistories(c, i, s);
    ts, us := HistoriesNext(c, i, s, after, ts, us);
  }

  lemma StartIsEmptyHistory(c: Cell, s: Sim)
    requires c.Valid() && Start(c) == Ok(s)
    ensures HistoryOf(c, [], c.policy.costs.base, s.legs.base) && HistoryOf(c, [], c.policy.costs.stress, s.legs.stress)
  {
  }

  /**
   Cash is capital plus cycle results, and capital less reference spend less costs; costs are charged at their rates.
   */
  predicate Conserved(initial: real, ts: seq<Trade>, costs: CostPolicy, b: Book) {
    && b.cash == initial + Sum(b.realized) + b.OpenFlow()
    && b.cash == initial - NetSpend(ts) - b.fee - b.slippage
    && b.quantity == NetQuantity(ts)
    && b.fee == AtRate(costs.FeeRate(), b.turnover)
    && b.slippage == AtRate(costs.SlipRate(), Volume(ts))
  }

  lemma HistoryConserves(c: Cell, ts: seq<Trade>, costs: CostPolicy, b: Book)
    requires c.Valid() && HistoryOf(c, ts, costs, b)
    ensures Conserved(c.policy.initial, ts, costs, b)
  {
    Conservation(c.policy.initial, ts);
    CostLedgers(c.policy.initial, ts, costs);
  }

  /** Conservation inside the simulator, for both accounts, with every cost accounted at its rate. */
  lemma CellConserves(c: Cell, i: nat, s: Sim) returns (ts: seq<Trade>, us: seq<Trade>)
    requires c.Valid() && c.start <= i <= c.end && Run(c, i) == Ok(s)
    ensures HistoryOf(c, ts, c.policy.costs.base, s.legs.base)
    ensures HistoryOf(c, us, c.policy.costs.stress, s.legs.stress)
    ensures Conserved(c.policy.initial, ts, c.policy.costs.base, s.legs.base)
    ensures Conserved(c.policy.initial, us, c.policy.costs.stress, s.legs.stress)
  {
    ts, us := AccountsAreHistories(c, i, s);
    HistoryConserves(c, ts, c.policy.costs.base, s.legs.base);
    HistoryConserves(c, us, c.policy.costs.stress, s.legs.stress);
  }

  /** Neither account is ever overdrawn or short. */
  lemma CellNeverOverdrawn(c: Cell, i: nat, s: Sim)
    requires c.Valid() && c.bars.Priced() && 0.0 <= c.policy.initial
    requires c.policy.costs.base.Legal() && c.policy.costs.stress.Legal()
    requires c.start <= i <= c.end && Run(c, i) == Ok(s)
    ensures Solvent(s.legs.base) && Solvent(s.legs.stress)
  {
    var ts, us := AccountsAreHistories(c, i, s);
    NeverOverdrawn(c.policy.initial, ts);
    NeverOverdrawn(c.policy.initial, us);
  }

  // ---------- Stress is never better than base ----------

  ghost predicate StressedCell(c: Cell) {
    && c.Valid() && c.bars.Priced() && c.policy.costs.base.Legal() && c.policy.costs.stress.Legal()
    && c.policy.costs.base.Within(c.policy.costs.stress)
  }

  lemma DominanceStep(c: Cell, s: Sim, i: nat, after: Sim)
    requires StressedCell(c) && c.start <= i < c.end && Step(c, s, i) == Ok(after) && HoldsScaled(c, s)
    requires Dominates(s.legs.base, s.legs.stress)
    ensures Dominates(after.legs.base, after.legs.stress)
  {
    var t := StepTrades(c, s, i, after);
    if t.Some? {
      TradeKeepsDominance(s.legs.base, s.legs.stress, t.value, c.policy.costs.stress);
    }
  }

  lemma {:induction false} BaseDominates(c: Cell, i: nat, s: Sim)
    requires StressedCell(c) && c.start <= i <= c.end && Run(c, i) == Ok(s)
    ensures Dominates(s.legs.base, s.legs.stress)
    decreases i, 1
  {
    if i == c.start {
      StartDominates(c, s);
    } else {
      var before := Earlier(c, i, s);
      StepDominates(c, i - 1, before, s);
    }
  }

  lemma {:induction false} StepDominates(c: Cell, i: nat, s: Sim, after: Sim)
    requires StressedCell(c) && c.start <= i < c.end && Run(c, i) == Ok(s) && Run(c, i + 1) == Ok(after)
    ensures Dominates(after.legs.base, after.legs.stress)
    decreases i + 1, 0
  {
    BaseDominates(c, i, s);
    QuantityFollowsScale(c, i, s);
    OneStep(c, i, s);
    DominanceStep(c, s, i, after);
  }

  lemma StartDominates(c: Cell, s: Sim)
    requires c.Valid() && Start(c) == Ok(s)
    ensures Dominates(s.legs.base, s.legs.stress)
  {
  }

  /** Stress dominance over the whole run: equal holdings, no better cash, equity, realized results or net. */
  lemma StressNeverBetter(c: Cell)
    requires StressedCell(c) && Outcome(c).Ok?
    ensures forall i :: c.start <= i <= c.end ==>
      Run(c, i).Ok? && Dominates(Run(c, i).value.legs.base, Run(c, i).value.legs.stress)
    ensures forall i, mark :: c.start <= i <= c.end && 0.0 <= mark ==>
      Run(c, i).value.legs.stress.Equity(mark, c.policy.costs.stress)
        <= Run(c, i).value.legs.base.Equity(mark, c.policy.costs.base)
    ensures Outcome(c).value.stressNet <= Outcome(c).value.baseNet
    ensures Outcome(c).value.stressRealized <= Outcome(c).value.realized
  {
    forall i | c.start <= i <= c.end
      ensures Run(c, i).Ok? && Dominates(Run(c, i).value.legs.base, Run(c, i).value.legs.stress)
    {
      if Run(c, i).Err? {
        FailureIsFinal(c, i, c.end);
      }
      BaseDominates(c, i, Run(c, i).value);
    }
    forall i, mark | c.start <= i <= c.end && 0.0 <= mark
      ensures Run(c, i).value.legs.stress.Equity(mark, c.policy.costs.stress)
        <= Run(c, i).value.legs.base.Equity(mark, c.policy.costs.base)
    {
      EquityDominance(Run(c, i).value.legs.base, Run(c, i).value.legs.stress, mark,
                      c.policy.costs.base, c.policy.costs.stress);
    }
    NonEmpty(c, c.end);
    var l := Run(c, c.end).value.legs;
    SumPointwise(l.stress.realized, l.base.realized);
  }

  // ---------- Which raises can happen ----------

  /** The only ways a long-only cell with positive capital can stop. */
  predicate ReachableStop(e: SimError) {
    || e == EmptyCell || e == MissingStartScale || e == MissingMonthlyScale || e == MissingFillBar
    || e == Refused(InsufficientCash)
  }

  lemma PeakStep(c: Cell, s: Sim, i: nat, after: Sim)
    requires c.Valid() && i < c.end && Step(c, s, i) == Ok(after) && 0.0 < s.tally.peak
    ensures 0.0 < after.tally.peak
  {
  }

  lemma StartPeak(c: Cell, s: Sim)
    requires c.Valid() && c.start <= c.end && Run(c, c.start) == Ok(s)
    ensures s.tally.peak == c.policy.initial
  {
    AtStart(c, s);
  }

  lemma {:induction false} PeakStaysPositive(c: Cell, i: nat, s: Sim)
    requires c.Valid() && 0.0 < c.policy.initial && c.start <= i <= c.end && Run(c, i) == Ok(s)
    ensures 0.0 < s.tally.peak
    decreases i, 1
  {
    if i == c.start {
      StartPeak(c, s);
    } else {
      var before := Earlier(c, i, s);
      NextPeak(c, i - 1, before, s);
    }
  }

  lemma {:induction false} NextPeak(c: Cell, i: nat, s: Sim, after: Sim)
    requires c.Valid() && 0.0 < c.policy.initial && c.start <= i < c.end
    requires Run(c, i) == Ok(s) && Run(c, i + 1) == Ok(after)
    ensures 0.0 < after.tally.peak
    decreases i + 1, 0
  {
    PeakStaysPositive(c, i, s);
    OneStep(c, i, s);
    PeakStep(c, s, i, after);
  }

  lemma StepStops(c: Cell, s: Sim, i: nat)
    requires LongOnlyCell(c) && c.start <= i < c.end && Step(c, s, i).Err?
    requires HoldsScaled(c, s) && 0.0 <= s.tally.scale <= 1.0 && 0.0 < s.tally.peak
    ensures ReachableStop(Step(c, s, i).error)
  {
    TargetWithinBase(c, s.tally.scale);
    if c.AtBoundary(i) && c.bars.times[i] in c.schedule.value {
      TargetWithinBase(c, c.schedule.value[c.bars.times[i]]);
    }
  }

  /**
   No simulated cell ever overlaps entries, trades outside its cycle, oversells, leaves a residue or divides by
   nought.
   */
  lemma {:induction false} OnlyReachableStops(c: Cell, i: nat)
    requires LongOnlyCell(c) && 0.0 < c.policy.initial && c.start <= i <= c.end && Run(c, i).Err?
    ensures ReachableStop(Run(c, i).error)
  {
    if i == c.start {
      return;
    }
    if Run(c, i - 1).Err? {
      OnlyReachableStops(c, i - 1);
      FailureIsFinal(c, i - 1, i);
    } else {
      StopsNext(c, i - 1, Run(c, i - 1).value);
    }
  }

  lemma StopsNext(c: Cell, i: nat, s: Sim)
    requires LongOnlyCell(c) && 0.0 < c.policy.initial && c.start <= i < c.end
    requires Run(c, i) == Ok(s) && Run(c, i + 1).Err?
    ensures ReachableStop(Run(c, i + 1).error)
  {
    OneStep(c, i, s);
    QuantityFollowsScale(c, i, s);
    ScaleWithinOne(c, i, s);
    PeakStaysPositive(c, i, s);
    StepStops(c, s, i);
  }

  // ---------- The scale in force ----------

  /**
   Bar j takes over its month's scale: it opens a month, both averages are known there, and no fill asked for at it is
   cut off by the end of the cell.
   */
  ghost predicate Renews(c: Cell, j: nat)
    requires c.Valid() && j < c.end
  {
    && c.schedule.Some? && c.bars.times[j] == c.monthStart(c.bars.times[j]) && Known(c.bars, j)
    && (j + 1 < c.end || !(Held(c.bars, c.start, c.end, j) || CrossesUp(c.bars, j)))
  }

  ghost predicate LatestRenewal(c: Cell, i: nat, j: nat)
    requires c.Valid() && i <= c.end
  {
    c.start <= j < i && Renews(c, j) && forall k :: j < k < i ==> !Renews(c, k)
  }

  /** The scale of the latest renewal before bar i or, if there is none, of the month the cell starts in. */
  ghost predicate InForceAt(c: Cell, i: nat, scale: real)
    requires c.Valid() && c.start < c.end && i <= c.end
  {
    if exists j: nat :: LatestRenewal(c, i, j) then
      exists j: nat :: LatestRenewal(c, i, j)
        && c.bars.times[j] in c.schedule.value && scale == c.schedule.value[c.bars.times[j]]
    else if c.schedule.None? then scale == 1.0
    else
      var month := c.monthStart(c.bars.times[c.start]);
      month in c.schedule.value && scale == c.schedule.value[month]
  }

  lemma StepRenews(c: Cell, s: Sim, i: nat, after: Sim)
    requires c.Valid() && c.start <= i < c.end && Step(c, s, i) == Ok(after)
    requires s.tally.long == Held(c.bars, c.start, c.end, i)
    ensures Renews(c, i) ==>
      c.bars.times[i] in c.schedule.value && after.tally.scale == c.schedule.value[c.bars.times[i]]
    ensures !Renews(c, i) ==> after.tally.scale == s.tally.scale
  {
    CrossingsExactly(c.bars, c.end, i);
  }

  lemma InForceNext(c: Cell, i: nat, scale: real, after: real)
    requires c.Valid() && c.start <= i < c.end && InForceAt(c, i, scale)
    requires Renews(c, i) ==> c.bars.times[i] in c.schedule.value && after == c.schedule.value[c.bars.times[i]]
    requires !Renews(c, i) ==> after == scale
    ensures InForceAt(c, i + 1, after)
  {
    var n := i + 1;
    if Renews(c, i) {
      assert LatestRenewal(c, n, i);
    } else {
      forall j: nat ensures LatestRenewal(c, n, j) <==> LatestRenewal(c, i, j) {
      }
    }
  }

  lemma StartsInForce(c: Cell, s: Sim)
    requires c.Valid() && Start(c) == Ok(s)
    ensures c.start < c.end && InForceAt(c, c.start, s.tally.scale)
  {
  }

  /** At every bar the scale in force is that of the latest renewal, which bars and schedule alone decide. */
  lemma {:induction false} ScaleIsLatest(c: Cell, i: nat, s: Sim)
    requires c.Valid() && c.start <= i <= c.end && Run(c, i) == Ok(s)
    ensures c.start < c.end && InForceAt(c, i, s.tally.scale)
    decreases i, 1
  {
    if i == c.start {
      AtStart(c, s);
      StartsInForce(c, s);
    } else {
      var before := Earlier(c, i, s);
      NextIsLatest(c, i - 1, before, s);
    }
  }

  lemma {:induction false} NextIsLatest(c: Cell, i: nat, s: Sim, after: Sim)
    requires c.Valid() && c.start <= i < c.end && Run(c, i) == Ok(s) && Run(c, i + 1) == Ok(after)
    ensures InForceAt(c, i + 1, after.tally.scale)
    decreases i + 1, 0
  {
    ScaleIsLatest(c, i, s);
    PositionIsHeld(c, i, s);
    OneStep(c, i, s);
    StepRenews(c, s, i, after);
    InForceNext(c, i, s.tally.scale, after.tally.scale);
  }

  lemma PositionIsHeld(c: Cell, i: nat, s: Sim)
    requires c.Valid() && c.start <= i <= c.end && Run(c, i) == Ok(s)
    ensures s.tally.long == Held(c.bars, c.start, c.end, i)
  {
    HeadingIsCourse(c, i, s);
    LongMeansHeld(c.bars, c.start, c.end, i);
  }

  lemma HoldingOf(c: Cell, s: Sim, held: bool)
    requires HoldsScaled(c, s) && s.tally.long == held
    ensures s.legs.base.quantity == s.legs.stress.quantity
    ensures s.legs.base.quantity == if held then c.policy.baseQuantity * s.tally.scale else 0.0
  {
  }

  /** The holding at every bar, from bars and schedule alone: the base quantity at the scale in force while bought. */
  lemma HoldingExactly(c: Cell, i: nat, s: Sim)
    requires c.Valid() && c.start <= i <= c.end && Run(c, i) == Ok(s)
    ensures c.start < c.end && InForceAt(c, i, s.tally.scale)
    ensures s.legs.base.quantity == s.legs.stress.quantity
    ensures s.legs.base.quantity
         == if Held(c.bars, c.start, c.end, i) then c.policy.baseQuantity * s.tally.scale else 0.0
  {
    PositionIsHeld(c, i, s);
    QuantityFollowsScale(c, i, s);
    HoldingOf(c, s, Held(c.bars, c.start, c.end, i));
    ScaleIsLatest(c, i, s);
  }
}
