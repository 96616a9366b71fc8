/** The figures of a search cell, from the results the exact accounts realized. */
module TrendSearchReports {
  import opened Basics
  import opened Costs
  import opened Crossover
  import opened UnitAccount
  import opened EagerFills
  import opened EquityDrawdown
  import opened TrendSearch

  // ---------- Wins and losses ----------

  /** The gains among the results, with nought for every other. */
  function Gains(xs: seq<real>): (gs: seq<real>)
    ensures |gs| == |xs| && forall k :: 0 <= k < |xs| ==> gs[k] == if xs[k] > 0.0 then xs[k] else 0.0
  {
    seq(|xs|, k requires 0 <= k < |xs| => if xs[k] > 0.0 then xs[k] else 0.0)
  }

  function Losses(xs: seq<real>): (ls: seq<real>)
    ensures |ls| == |xs| && forall k :: 0 <= k < |xs| ==> ls[k] == if xs[k] < 0.0 then -xs[k] else 0.0
  {
    seq(|xs|, k requires 0 <= k < |xs| => if xs[k] < 0.0 then -xs[k] else 0.0)
  }

  ghost function Winning(xs: seq<real>): nat -> bool {
    (k: nat) => k < |xs| && xs[k] > 0.0
  }

  ghost function Losing(xs: seq<real>): nat -> bool {
    (k: nat) => k < |xs| && xs[k] < 0.0
  }

  /** Counts, gross figures and best win are those of the realized results. */
  ghost predicate Summarizes(o: Outcomes, xs: seq<real>) {
    && o.completed == |xs| == o.wins + o.losses + o.breakeven
    && o.wins == HowMany(Winning(xs), 0, |xs|) && o.losses == HowMany(Losing(xs), 0, |xs|)
    && o.grossProfit == Sum(Gains(xs)) && o.grossLoss == Sum(Losses(xs))
    && (forall k :: 0 <= k < |xs| ==> xs[k] <= o.largest)
    && (if o.wins == 0 then o.largest == 0.0 else o.largest in xs)
    && 0.0 <= o.largest
  }

  lemma GainsGrow(xs: seq<real>, x: real)
    ensures Gains(xs + [x]) == Gains(xs) + [if x > 0.0 then x else 0.0]
  {
  }

  lemma LossesGrow(xs: seq<real>, x: real)
    ensures Losses(xs + [x]) == Losses(xs) + [if x < 0.0 then -x else 0.0]
  {
  }

  lemma ListsGrow(xs: seq<real>, x: real)
    ensures Sum(Gains(xs + [x])) == Sum(Gains(xs)) + if x > 0.0 then x else 0.0
    ensures Sum(Losses(xs + [x])) == Sum(Losses(xs)) + if x < 0.0 then -x else 0.0
  {
    var gain, loss := if x > 0.0 then x else 0.0, if x < 0.0 then -x else 0.0;
    GainsGrow(xs, x);
    SumAppend(Gains(xs), gain);
    LossesGrow(xs, x);
    SumAppend(Losses(xs), loss);
  }

  lemma CountsGrow(xs: seq<real>, x: real)
    ensures HowMany(Winning(xs + [x]), 0, |xs| + 1) == HowMany(Winning(xs), 0, |xs|) + Count(x > 0.0)
    ensures HowMany(Losing(xs + [x]), 0, |xs| + 1) == HowMany(Losing(xs), 0, |xs|) + Count(x < 0.0)
  {
    HowManyStep(Winning(xs + [x]), 0, |xs|);
    SameCount(Winning(xs + [x]), Winning(xs), |xs|);
    HowManyStep(Losing(xs + [x]), 0, |xs|);
    SameCount(Losing(xs + [x]), Losing(xs), |xs|);
  }

  lemma CloseSummarizes(o: Outcomes, xs: seq<real>, x: real, charge: real)
    requires Summarizes(o, xs)
    ensures Summarizes(o.Close(x, charge), xs + [x])
  {
    ListsGrow(xs, x);
    CountsGrow(xs, x);
    var longer := xs + [x];
    assert longer[|xs|] == x;
    if o.wins > 0 {
      var k :| 0 <= k < |xs| && xs[k] == o.largest;
      assert longer[k] == o.largest;
    }
  }

  /** The books of a bar: nothing realized and at most a charge, or one result closed. */
  lemma StepOutcomes(c: SearchCell, s: Sim, core: Core, i: nat, after: Sim, coreAfter: Core)
    requires c.Valid() && i < c.cell.end && SimIsCore(s, core)
    requires Step(c, s, i) == Ok(after) && EagerTurn(c.cell, core, i) == Ok(coreAfter)
    ensures var xs, ys := core.legs.base.realized, coreAfter.legs.base.realized;
      || (ys == xs && after.outcomes == s.outcomes.(cost := after.outcomes.cost))
      || (exists x, charge :: ys == xs + [x] && after.outcomes == s.outcomes.Close(x, charge))
  {
    var bars := c.cell.bars;
    if s.long && CrossAt(bars, i) == Down && Fillable(bars, c.cell.end, i) {
      var e := SellExecution(bars.opens[i + 1], c.cell.costs.quantity, c.cell.costs.base);
      var x := SellProceeds(bars.opens[i + 1], c.cell.costs.quantity, c.cell.costs.base) - s.base.entryDebit;
      assert coreAfter.legs.base.realized == core.legs.base.realized + [x];
      assert after.outcomes == s.outcomes.Close(x, e.slippage + e.fee);
    }
  }

  lemma StepSummarizes(c: SearchCell, s: Sim, core: Core, i: nat, after: Sim, coreAfter: Core)
    requires c.Valid() && i < c.cell.end && SimIsCore(s, core) && Summarizes(s.outcomes, core.legs.base.realized)
    requires Step(c, s, i) == Ok(after) && EagerTurn(c.cell, core, i) == Ok(coreAfter)
    ensures Summarizes(after.outcomes, coreAfter.legs.base.realized)
  {
    var xs, ys := core.legs.base.realized, coreAfter.legs.base.realized;
    StepOutcomes(c, s, core, i, after, coreAfter);
    if ys != xs {
      var x, charge :| ys == xs + [x] && after.outcomes == s.outcomes.Close(x, charge);
      CloseSummarizes(s.outcomes, xs, x, charge);
    }
  }

  // ---------- The whole cell ----------

  /** What the search marks: cash and, while long, the whole quantity at the close, no cost taken off. */
  function GrossWorth(b: UnitBook, long: bool, quantity: real, close: real): real {
    if long then b.cash + quantity * close else b.cash
  }

  /** The capital, then the gross worth of the eager run's base account at each close up to bar i. */
  ghost predicate Sampled(c: SearchCell, i: nat, curve: seq<real>)
    requires c.Valid() && i <= c.cell.end
  {
    var u := c.cell;
    && c.start <= i && |curve| == i - c.start + 1 && curve[0] == u.initial
    && forall k: nat :: c.start <= k < i ==>
      && EagerRun(u, c.start, k).Ok?
      && var core := EagerRun(u, c.start, k).value;
        curve[k - c.start + 1] == GrossWorth(core.legs.base, core.long, u.costs.quantity, u.bars.closes[k])
  }

  /** Outcomes, peak and drawdown of the cell at bar i, from the exact accounts and the sampled curve. */
  ghost predicate Exact(c: SearchCell, i: nat, s: Sim, core: Core, curve: seq<real>)
    requires c.Valid() && i <= c.cell.end
  {
    && EagerRun(c.cell, c.start, i) == Ok(core) && SimIsCore(s, core)
    && Summarizes(s.outcomes, core.legs.base.realized)
    && Sampled(c, i, curve) && Tracks(curve, s.peak, s.drawdown) && 0.0 < s.peak
  }

  lemma StepMarks(c: SearchCell, s: Sim, i: nat, after: Sim, x: real)
    requires c.Valid() && i < c.cell.end && Step(c, s, i) == Ok(after) && 0.0 < s.peak
    requires x == MarkedEquity(s.base, s.long, c.cell.costs.quantity, c.cell.bars.closes[i])
    ensures 0.0 < Max(s.peak, x) == after.peak
    ensures after.drawdown == Max(s.drawdown, DrawdownFrom(after.peak, x))
  {
  }

  lemma GrossMark(s: Sim, core: Core, quantity: real, close: real)
    requires SimIsCore(s, core)
    ensures MarkedEquity(s.base, s.long, quantity, close) == GrossWorth(core.legs.base, core.long, quantity, close)
    ensures MarkedEquity(s.stress, s.long, quantity, close) == GrossWorth(core.legs.stress, core.long, quantity, close)
  {
  }

  lemma SampledNext(c: SearchCell, i: nat, core: Core, curve: seq<real>, x: real)
    requires c.Valid() && c.start <= i < c.cell.end && EagerRun(c.cell, c.start, i) == Ok(core) && Sampled(c, i, curve)
    requires x == GrossWorth(core.legs.base, core.long, c.cell.costs.quantity, c.cell.bars.closes[i])
    ensures Sampled(c, i + 1, curve + [x])
  {
  }

  lemma ExactNext(c: SearchCell, i: nat, s: Sim, core: Core, curve: seq<real>, after: Sim)
    returns (coreAfter: Core, longer: seq<real>)
    requires c.Valid() && c.start <= i < c.cell.end && Exact(c, i, s, core, curve) && Step(c, s, i) == Ok(after)
    ensures Exact(c, i + 1, after, coreAfter, longer)
  {
    StepIsExact(c, s, core, i);
    EagerOneTurn(c.cell, c.start, i, core);
    coreAfter := EagerTurn(c.cell, core, i).value;
    StepSummarizes(c, s, core, i, after, coreAfter);
    GrossMark(s, core, c.cell.costs.quantity, c.cell.bars.closes[i]);
    var x := MarkedEquity(s.base, s.long, c.cell.costs.quantity, c.cell.bars.closes[i]);
    StepMarks(c, s, i, after, x);
    TracksNext(curve, s.peak, s.drawdown, x);
    SampledNext(c, i, core, curve, x);
    longer := curve + [x];
  }

  lemma StartIsExact(c: SearchCell) returns (core: Core, curve: seq<real>)
    requires c.Valid() && c.start <= c.cell.end && 0.0 < c.cell.initial
    ensures Exact(c, c.start, Start(c), core, curve)
  {
    core := NewCore(c.cell);
    curve := [c.cell.initial];
    StartsTracking(c.cell.initial);
    assert Gains([]) == [] && Losses([]) == [];
    assert (set k: nat | 0 <= k < 0 && Winning([])(k)) == {} && (set k: nat | 0 <= k < 0 && Losing([])(k)) == {};
  }

  lemma {:induction false} CellIsExact(c: SearchCell, i: nat, s: Sim) returns (core: Core, curve: seq<real>)
    requires c.Valid() && 0.0 < c.cell.initial && c.start <= i <= c.cell.end && Run(c, i) == Ok(s)
    ensures Exact(c, i, s, core, curve)
    decreases i, 1
  {
    if i == c.start {
      core, curve := StartIsExact(c);
      return;
    }
    var before := Earlier(c, i, s);
    core, curve := ExactUpTo(c, i - 1, before, s);
  }

  lemma {:induction false} ExactUpTo(c: SearchCell, i: nat, s: Sim, after: Sim) returns (core: Core, curve: seq<real>)
    requires c.Valid() && 0.0 < c.cell.initial && c.start <= i < c.cell.end
    requires Run(c, i) == Ok(s) && Run(c, i + 1) == Ok(after)
    ensures Exact(c, i + 1, after, core, curve)
    decreases i + 1, 0
  {
    core, curve := CellIsExact(c, i, s);
    OneStep(c, i, s);
    core, curve := ExactNext(c, i, s, core, curve, after);
  }

  /**
   The cell's figures: outcomes sum up what the eager run realized, net results are the gross worth of its accounts at
   the last close less the capital, and the drawdown is the worst along the sampled curve.
   */
  lemma SearchExactly(c: SearchCell, r: Report) returns (core: Core, curve: seq<real>)
    requires c.Valid() && 0.0 < c.cell.initial && Outcome(c) == Ok(r)
    ensures c.start < c.cell.end && EagerRun(c.cell, c.start, c.cell.end) == Ok(core)
    ensures Summarizes(r.sim.outcomes, core.legs.base.realized)
    ensures var u := c.cell;
      var close := u.bars.closes[u.end - 1];
      && r.baseNet == GrossWorth(core.legs.base, core.long, u.costs.quantity, close) - u.initial
      && r.stressNet == GrossWorth(core.legs.stress, core.long, u.costs.quantity, close) - u.initial
    ensures Sampled(c, c.cell.end, curve) && WorstAlong(curve, r.sim.drawdown)
  {
    var s := Run(c, c.cell.end).value;
    core, curve := CellIsExact(c, c.cell.end, s);
    GrossMark(s, core, c.cell.costs.quantity, c.cell.bars.closes[c.cell.end - 1]);
    assert Tracks(curve, s.peak, s.drawdown);
  }

  /** A cell is refused only for holding no candle or for an entry the exact accounts could not pay for. */
  lemma FinishesExactlyWhen(c: SearchCell)
    requires c.Valid()
    ensures Outcome(c) == Err(NoCandles) <==> c.cell.end <= c.start
    ensures Outcome(c).Ok? <==> c.start < c.cell.end && EagerRun(c.cell, c.start, c.cell.end).Ok?
  {
    if c.start < c.cell.end {
      SearchIsExact(c, c.cell.end);
      NeverWithoutCandles(c, c.cell.end);
    }
  }

  lemma {:induction false} NeverWithoutCandles(c: SearchCell, i: nat)
    requires c.Valid() && c.start <= i <= c.cell.end
    ensures Run(c, i) != Err(NoCandles)
  {
    if i == c.start {
      return;
    }
    NeverWithoutCandles(c, i - 1);
    if Run(c, i - 1).Err? {
      FailureIsFinal(c, i - 1, i);
    } else {
      OneStep(c, i - 1, Run(c, i - 1).value);
    }
  }
}
