/** The pending-rebalance variant keeps the promises of the monthly one. */
module DownsideVolScalingResults {
  import opened Basics
  import opened Costs
  import opened CycleAccount
  import opened Crossover
  import opened DownsideVolScaling

  lemma HeadingStep(c: Cell, s: Sim, i: nat, after: Sim)
    requires c.Valid() && c.start <= i < c.end && Step(c, s, i) == Ok(after)
    ensures after.tally.Heading() == Turn(c.bars, c.end, s.tally.Heading(), i)
  {
  }

  lemma {:induction false} HeadingIsCourse(c: Cell, i: nat, s: Sim)
    requires c.Valid() && c.start <= i <= c.end && Run(c, i) == Ok(s)
    ensures s.tally.Heading() == Course(c.bars, c.start, c.end, i)
  {
    if i == c.start {
      return;
    }
    var before := Earlier(c, i, s);
    HeadingIsCourse(c, i - 1, before);
    OneStep(c, i - 1, before);
    HeadingStep(c, before, i - 1, s);
  }

  /** Position, signals, fills and active hours do not depend on the decisions. */
  lemma ScalingPreservesDirection(c: Cell, d: Cell, i: nat, s: Sim, t: Sim)
    requires c.Valid() && d == c.(decisions := d.decisions) && i <= c.end
    requires Run(c, i) == Ok(s) && Run(d, i) == Ok(t)
    ensures s.tally.Heading() == t.tally.Heading()
  {
    if c.start <= i {
      HeadingIsCourse(c, i, s);
      HeadingIsCourse(d, i, t);
    }
  }

  /** Holdings match the scale in force, and a rebalance is left pending only past the last bar. */
  predicate HoldsScaled(c: Cell, s: Sim, i: nat) {
    var held := if s.tally.long then c.Target(s.tally.scale) else 0.0;
    && s.legs.base.quantity == held && s.legs.stress.quantity == held
    && s.legs.base.cycle.Some? == s.tally.long && s.legs.stress.cycle.Some? == s.tally.long
    && |s.legs.base.realized| == s.tally.exits && |s.legs.stress.realized| == s.tally.exits
    && (s.tally.pending.Some? ==> i == c.end)
  }

  lemma HoldsScaledStep(c: Cell, s: Sim, i: nat, after: Sim)
    requires c.Valid() && c.start <= i < c.end && Step(c, s, i) == Ok(after) && HoldsScaled(c, s, i)
    ensures HoldsScaled(c, after, i + 1)
  {
  }

  lemma {:induction false} QuantityFollowsScale(c: Cell, i: nat, s: Sim)
    requires c.Valid() && c.start <= i <= c.end && Run(c, i) == Ok(s)
    ensures HoldsScaled(c, s, i)
  {
    if i == c.start {
      return;
    }
    var before := Earlier(c, i, s);
    QuantityFollowsScale(c, i - 1, before);
    OneStep(c, i - 1, before);
    HoldsScaledStep(c, before, i - 1, s);
  }

  // ---------- Exposure ----------

  ghost predicate LongOnlyCell(c: Cell) {
    c.Valid() && 0.0 <= c.policy.baseQuantity && c.ScalesWithinOne()
  }

  lemma ScaleStep(c: Cell, s: Sim, i: nat, after: Sim)
    requires c.Valid() && i < c.end && Step(c, s, i) == Ok(after)
    ensures after.tally.scale == s.tally.scale
         || (c.FreshAt(i) && after.tally.scale == c.decisions.value[c.bars.times[i]].scale)
  {
  }

  lemma ScaleStaysWithinOne(c: Cell, s: Sim, i: nat, after: Sim)
    requires LongOnlyCell(c) && i < c.end && Step(c, s, i) == Ok(after) && 0.0 <= s.tally.scale <= 1.0
    ensures 0.0 <= after.tally.scale <= 1.0
  {
    ScaleStep(c, s, i, after);
    if c.FreshAt(i) {
      var t := c.bars.times[i];
      assert t in c.decisions.value && 0.0 <= c.decisions.value[t].scale <= 1.0;
    }
  }

  lemma {:induction false} ScaleWithinOne(c: Cell, i: nat, s: Sim)
    requires LongOnlyCell(c) && c.start <= i <= c.end && Run(c, i) == Ok(s)
    ensures 0.0 <= s.tally.scale <= 1.0
  {
    if i == c.start {
      AtStart(c, s);
      StartScaleWithinOne(c, s);
      return;
    }
    var before := Earlier(c, i, s);
    ScaleWithinOne(c, i - 1, before);
    OneStep(c, i - 1, before);
    ScaleStaysWithinOne(c, before, i - 1, s);
  }

  lemma StartScaleWithinOne(c: Cell, s: Sim)
    requires LongOnlyCell(c) && Start(c) == Ok(s)
    ensures 0.0 <= s.tally.scale <= 1.0
  {
    if c.decisions.Some? {
      var t := c.monthStart(c.bars.times[c.start]);
      assert t in c.decisions.value && 0.0 <= c.decisions.value[t].scale <= 1.0;
    }
  }

  lemma {:induction false} ControlScaleIsOne(c: Cell, i: nat, s: Sim)
    requires c.Valid() && c.decisions.None? && c.start <= i <= c.end && Run(c, i) == Ok(s)
    ensures s.tally.scale == 1.0
  {
    if i == c.start {
      return;
    }
    var before := Earlier(c, i, s);
    ControlScaleIsOne(c, i - 1, before);
    OneStep(c, i - 1, before);
    ScaleStep(c, before, i - 1, s);
  }

  /** The two cells are alike but for their decisions, and the second has none. */
  ghost predicate IsControlOf(d: Cell, c: Cell) {
    d == c.(decisions := None)
  }

  lemma HoldingOrder(c: Cell, d: Cell, s: Sim, t: Sim, i: nat)
    requires IsControlOf(d, c) && 0.0 <= c.policy.baseQuantity && HoldsScaled(c, s, i) && HoldsScaled(d, t, i)
    requires s.tally.long == t.tally.long && 0.0 <= s.tally.scale <= 1.0 && t.tally.scale == 1.0
    ensures 0.0 <= s.legs.base.quantity <= t.legs.base.quantity
  {
    TargetWithinBase(c, s.tally.scale);
    if s.tally.long {
      assert s.legs.base.quantity == c.Target(s.tally.scale);
      assert t.legs.base.quantity == d.Target(1.0) == c.Target(1.0);
    }
  }

  lemma TargetWithinBase(c: Cell, scale: real)
    requires 0.0 <= c.policy.baseQuantity && 0.0 <= scale <= 1.0
    ensures 0.0 <= c.Target(scale) <= c.Target(1.0)
  {
    var q := c.policy.baseQuantity;
    MulOrder(q, q, scale, 1.0);
    assert c.Target(scale) == q * scale && c.Target(1.0) == q * 1.0;
  }

  lemma HoldingWithinControl(c: Cell, d: Cell, i: nat, s: Sim, t: Sim)
    requires LongOnlyCell(c) && IsControlOf(d, c) && c.start <= i <= c.end && Run(c, i) == Ok(s) && Run(d, i) == Ok(t)
    ensures 0.0 <= s.legs.base.quantity <= t.legs.base.quantity
  {
    ScalingPreservesDirection(c, d, i, s, t);
    QuantityFollowsScale(c, i, s);
    QuantityFollowsScale(d, i, t);
    ScaleWithinOne(c, i, s);
    ControlScaleIsOne(d, i, t);
    HoldingOrder(c, d, s, t, i);
  }

  lemma ExposureStep(c: Cell, s: Sim, i: nat, after: Sim)
    requires c.Valid() && i < c.end && Step(c, s, i) == Ok(after)
    ensures after.tally.exposure
         == s.tally.exposure + if s.tally.long then Notional(s.legs.base.quantity, c.bars.closes[i]) else 0.0
  {
  }

  /** One bar later the scaled exposure is still within the control's. */
  lemma ExposureOrder(c: Cell, d: Cell, s: Sim, t: Sim, i: nat, after: Sim, controlAfter: Sim)
    requires c.Valid() && IsControlOf(d, c) && i < c.end && 0.0 <= c.bars.closes[i]
    requires 0.0 <= s.legs.base.quantity <= t.legs.base.quantity
    requires s.tally.long == t.tally.long && s.tally.exposure <= t.tally.exposure
    requires Step(c, s, i) == Ok(after) && Step(d, t, i) == Ok(controlAfter)
    ensures after.tally.exposure <= controlAfter.tally.exposure
  {
    ExposureStep(c, s, i, after);
    ExposureStep(d, t, i, controlAfter);
    NotionalOrder(s.legs.base.quantity, t.legs.base.quantity, c.bars.closes[i]);
  }

  /** Accumulated exposure never exceeds the control's. */
  lemma {:induction false} ExposureWithinControl(c: Cell, d: Cell, i: nat, s: Sim, t: Sim)
    requires LongOnlyCell(c) && c.bars.Priced() && IsControlOf(d, c)
    requires c.start <= i <= c.end && Run(c, i) == Ok(s) && Run(d, i) == Ok(t)
    ensures s.tally.exposure <= t.tally.exposure
  {
    if i == c.start {
      return;
    }
    var before := Earlier(c, i, s);
    var controlBefore := Earlier(d, i, t);
    ExposureWithinControl(c, d, i - 1, before, controlBefore);
    ExposureNext(c, d, i - 1, before, controlBefore, s, t);
  }

  lemma ExposureNext(c: Cell, d: Cell, i: nat, s: Sim, t: Sim, after: Sim, controlAfter: Sim)
    requires LongOnlyCell(c) && c.bars.Priced() && IsControlOf(d, c) && c.start <= i < c.end
    requires Run(c, i) == Ok(s) && Run(d, i) == Ok(t) && s.tally.exposure <= t.tally.exposure
    requires Run(c, i + 1) == Ok(after) && Run(d, i + 1) == Ok(controlAfter)
    ensures after.tally.exposure <= controlAfter.tally.exposure
  {
    OneStep(c, i, s);
    OneStep(d, i, t);
    HoldingWithinControl(c, d, i, s, t);
    ScalingPreservesDirection(c, d, i, s, t);
    ExposureOrder(c, d, s, t, i, after, controlAfter);
  }

  // ---------- Stress ----------

  ghost predicate StressedCell(c: Cell) {
    && c.Valid() && c.bars.Priced() && c.policy.costs.base.Legal() && c.policy.costs.stress.Legal()
    && c.policy.costs.base.Within(c.policy.costs.stress)
  }

  /** Every bar trades the two accounts alike: the same trade at each account's costs, or none. */
  lemma StepTrades(c: Cell, s: Sim, i: nat, after: Sim) returns (t: Option<Trade>)
    requires c.Valid() && c.start <= i < c.end && Step(c, s, i) == Ok(after) && HoldsScaled(c, s, i)
    ensures match t
      case None => after.legs == s.legs
      case Some(x) =>
        && i + 1 < c.end && x.reference == c.bars.opens[i + 1] && x.costs == c.policy.costs.base
        && Traded(s.legs.base, x) == Ok(after.legs.base)
        && Traded(s.legs.stress, x.(costs := c.policy.costs.stress)) == Ok(after.legs.stress)
  {
    var cross := CrossAt(c.bars, i);
    var enter := !s.tally.long && cross == Up;
    var exit := s.tally.long && cross == Down;
    var scale := if c.FreshAt(i) then c.decisions.value[c.bars.times[i]].scale else s.tally.scale;
    var pending := s.tally.long && scale != s.tally.scale;
    if i == 0 || !(enter || exit || pending) || i + 1 >= c.end {
      return None;
    }
    var price := c.bars.opens[i + 1];
    if exit {
      t := Some(Trade.Sell(price, s.legs.base.quantity, c.policy.costs.base, true));
    } else if enter {
      t := Some(Trade.Buy(price, c.Target(scale), c.policy.costs.base, true));
    } else {
      var delta := c.Target(scale) - s.legs.base.quantity;
      t := if delta > 0.0 then Some(Trade.Buy(price, delta, c.policy.costs.base, false))
      else if delta < 0.0 then Some(Trade.Sell(price, -delta, c.policy.costs.base, false))
      else None;
    }
  }

  lemma DominanceStep(c: Cell, s: Sim, i: nat, after: Sim)
    requires StressedCell(c) && c.start <= i < c.end && Step(c, s, i) == Ok(after) && HoldsScaled(c, s, i)
    requires Dominates(s.legs.base, s.legs.stress)
    ensures Dominates(after.legs.base, after.legs.stress)
  {
    var t := StepTrades(c, s, i, after);
    if t.Some? {
      TradeKeepsDominance(s.legs.base, s.legs.stress, t.value, c.policy.costs.stress);
    }
  }

  lemma {:induction false} BaseDominates(c: Cell, i: nat, s: Sim)
    requires StressedCell(c) && c.start <= i <= c.end && Run(c, i) == Ok(s)
    ensures Dominates(s.legs.base, s.legs.stress)
    decreases i, 1
  {
    if i == c.start {
      StartDominates(c, s);
    } else {
      var before := Earlier(c, i, s);
      StepDominates(c, i - 1, before, s);
    }
  }

  lemma {:induction false} StepDominates(c: Cell, i: nat, s: Sim, after: Sim)
    requires StressedCell(c) && c.start <= i < c.end && Run(c, i) == Ok(s) && Run(c, i + 1) == Ok(after)
    ensures Dominates(after.legs.base, after.legs.stress)
    decreases i + 1, 0
  {
    BaseDominates(c, i, s);
    QuantityFollowsScale(c, i, s);
    OneStep(c, i, s);
    DominanceStep(c, s, i, after);
  }

  lemma StartDominates(c: Cell, s: Sim)
    requires c.Valid() && Start(c) == Ok(s)
    ensures Dominates(s.legs.base, s.legs.stress)
  {
  }

  lemma ReachedBeforeEnd(c: Cell, i: nat)
    requires c.Valid() && c.start <= i <= c.end && Run(c, c.end).Ok?
    ensures Run(c, i).Ok?
  {
    if Run(c, i).Err? {
      FailureIsFinal(c, i, c.end);
    }
  }

  /** Stress is dominated at every bar, and so is never better in equity or net. */
  lemma StressNeverBetter(c: Cell)
    requires StressedCell(c) && Outcome(c).Ok?
    ensures forall i :: c.start <= i <= c.end ==>
      Run(c, i).Ok? && Dominates(Run(c, i).value.legs.base, Run(c, i).value.legs.stress)
    ensures forall i, mark :: c.start <= i <= c.end && 0.0 <= mark ==>
      Run(c, i).value.legs.stress.Equity(mark, c.policy.costs.stress)
        <= Run(c, i).value.legs.base.Equity(mark, c.policy.costs.base)
    ensures Outcome(c).value.stressNet <= Outcome(c).value.baseNet
  {
    forall i | c.start <= i <= c.end
      ensures Run(c, i).Ok? && Dominates(Run(c, i).value.legs.base, Run(c, i).value.legs.stress)
    {
      ReachedBeforeEnd(c, i);
      BaseDominates(c, i, Run(c, i).value);
    }
    forall i, mark | c.start <= i <= c.end && 0.0 <= mark
      ensures Run(c, i).value.legs.stress.Equity(mark, c.policy.costs.stress)
        <= Run(c, i).value.legs.base.Equity(mark, c.policy.costs.base)
    {
      EquityDominance(Run(c, i).value.legs.base, Run(c, i).value.legs.stress, mark,
                      c.policy.costs.base, c.policy.costs.stress);
    }
    NonEmpty(c, c.end);
  }

  // ---------- The scale in force ----------

  /** A decision of bar j's own time is in effect, and says so itself. */
  ghost predicate DecidesAt(c: Cell, j: nat)
    requires c.Valid() && j < c.end
  {
    0 < j && c.decisions.Some? && c.bars.times[j] in c.decisions.value && c.decisions.value[c.bars.times[j]].renewed
  }

  /** Bar j takes over a fresh decision's scale, unless the end of the cell cuts off the fill that goes with it. */
  ghost predicate Renews(c: Cell, j: nat)
    requires c.Valid() && j < c.end
  {
    DecidesAt(c, j) && (j + 1 < c.end || !(Held(c.bars, c.start, c.end, j) || CrossesUp(c.bars, j)))
  }

  ghost predicate LatestRenewal(c: Cell, i: nat, j: nat)
    requires c.Valid() && i <= c.end
  {
    c.start <= j < i && Renews(c, j) && forall k :: j < k < i ==> !Renews(c, k)
  }

  /** The scale of the latest renewal before bar i or, if there is none, of the month the cell starts in. */
  ghost predicate InForceAt(c: Cell, i: nat, scale: real)
    requires c.Valid() && c.start < c.end && i <= c.end
  {
    if exists j: nat :: LatestRenewal(c, i, j) then
      exists j: nat :: LatestRenewal(c, i, j) && scale == c.decisions.value[c.bars.times[j]].scale
    else if c.decisions.None? then scale == 1.0
    else
      var month := c.monthStart(c.bars.times[c.start]);
      month in c.decisions.value && scale == c.decisions.value[month].scale
  }

  lemma StepRenews(c: Cell, s: Sim, i: nat, after: Sim)
    requires c.Valid() && c.start <= i < c.end && Step(c, s, i) == Ok(after) && s.tally.pending.None?
    requires s.tally.long == Held(c.bars, c.start, c.end, i)
    ensures Renews(c, i) ==> after.tally.scale == c.decisions.value[c.bars.times[i]].scale
    ensures !Renews(c, i) ==> after.tally.scale == s.tally.scale
  {
    CrossingsExactly(c.bars, c.end, i);
  }

  lemma InForceNext(c: Cell, i: nat, scale: real, after: real)
    requires c.Valid() && c.start <= i < c.end && InForceAt(c, i, scale)
    requires Renews(c, i) ==> after == c.decisions.value[c.bars.times[i]].scale
    requires !Renews(c, i) ==> after == scale
    ensures InForceAt(c, i + 1, after)
  {
    var n := i + 1;
    if Renews(c, i) {
      assert LatestRenewal(c, n, i);
    } else {
      forall j: nat ensures LatestRenewal(c, n, j) <==> LatestRenewal(c, i, j) {
      }
    }
  }

  lemma StartsInForce(c: Cell, s: Sim)
    requires c.Valid() && Start(c) == Ok(s)
    ensures c.start < c.end && InForceAt(c, c.start, s.tally.scale)
  {
  }

  /** At every bar the scale in force is that of the latest renewal, which bars and decisions alone decide. */
  lemma {:induction false} ScaleIsLatest(c: Cell, i: nat, s: Sim)
    requires c.Valid() && c.start <= i <= c.end && Run(c, i) == Ok(s)
    ensures c.start < c.end && InForceAt(c, i, s.tally.scale)
    decreases i, 1
  {
    if i == c.start {
      AtStart(c, s);
      StartsInForce(c, s);
    } else {
      var before := Earlier(c, i, s);
      NextIsLatest(c, i - 1, before, s);
    }
  }

  lemma {:induction false} NextIsLatest(c: Cell, i: nat, s: Sim, after: Sim)
    requires c.Valid() && c.start <= i < c.end && Run(c, i) == Ok(s) && Run(c, i + 1) == Ok(after)
    ensures InForceAt(c, i + 1, after.tally.scale)
    decreases i + 1, 0
  {
    ScaleIsLatest(c, i, s);
    PositionIsHeld(c, i, s);
    QuantityFollowsScale(c, i, s);
    OneStep(c, i, s);
    StepRenews(c, s, i, after);
    InForceNext(c, i, s.tally.scale, after.tally.scale);
  }

  lemma PositionIsHeld(c: Cell, i: nat, s: Sim)
    requires c.Valid() && c.start <= i <= c.end && Run(c, i) == Ok(s)
    ensures s.tally.long == Held(c.bars, c.start, c.end, i)
  {
    HeadingIsCourse(c, i, s);
    LongMeansHeld(c.bars, c.start, c.end, i);
  }

  lemma HoldingOf(c: Cell, s: Sim, i: nat, held: bool)
    requires HoldsScaled(c, s, i) && s.tally.long == held
    ensures s.legs.base.quantity == s.legs.stress.quantity
    ensures s.legs.base.quantity == if held then c.policy.baseQuantity * s.tally.scale else 0.0
  {
  }

  /** The holding at every bar, from bars and decisions alone: the base quantity at the scale in force while bought. */
  lemma HoldingExactly(c: Cell, i: nat, s: Sim)
    requires c.Valid() && c.start <= i <= c.end && Run(c, i) == Ok(s)
    ensures c.start < c.end && InForceAt(c, i, s.tally.scale)
    ensures s.legs.base.quantity == s.legs.stress.quantity
    ensures s.legs.base.quantity
         == if Held(c.bars, c.start, c.end, i) then c.policy.baseQuantity * s.tally.scale else 0.0
  {
    PositionIsHeld(c, i, s);
    QuantityFollowsScale(c, i, s);
    HoldingOf(c, s, i, Held(c.bars, c.start, c.end, i));
    ScaleIsLatest(c, i, s);
  }
}
