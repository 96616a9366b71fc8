/** Entries, stops and figures of the overlay, from the bars and the threshold. */
module StopOverlayReports {
  import opened Basics
  import opened Crossover
  import opened UnitAccount
  import opened EagerFills
  import opened EquityDrawdown
  import opened StopOverlay

  // ---------- Entries and exits ----------

  /** Bought at the open after bar j, the close of bar k has fallen by the threshold's percentage or more. */
  ghost predicate StopHit(c: StopCell, j: nat, k: nat)
    requires c.Valid() && j + 1 < c.cell.end && k < c.cell.end
  {
    && c.threshold.Some? && Known(c.cell.bars, k)
    && c.cell.bars.closes[k] * 100.0 <= c.cell.bars.opens[j + 1] * (100.0 - c.threshold.value as real)
  }

  /** A position bought after bar j is left at bar k: by crossing or by stop, and only for a next hour. */
  ghost predicate Leaves(c: StopCell, j: nat, k: nat)
    requires c.Valid() && j + 1 < c.cell.end && k < c.cell.end
  {
    (CrossesDown(c.cell.bars, k) || StopHit(c, j, k)) && NextHour(c.cell.bars, c.cell.end, k)
  }

  /** The bar whose crossing the position at bar i was bought on, if there is a position. */
  ghost function EntryBar(c: StopCell, i: nat): (r: Option<nat>)
    requires c.Valid() && i <= c.cell.end
    ensures r.Some? ==> c.start <= r.value < i && r.value + 1 < c.cell.end
  {
    if i <= c.start then None
    else match EntryBar(c, i - 1)
      case None =>
        if CrossesUp(c.cell.bars, i - 1) && NextHour(c.cell.bars, c.cell.end, i - 1) then Some(i - 1) else None
      case Some(j) => if Leaves(c, j, i - 1) then None else Some(j)
  }

  /** The entry is an upward crossing met flat with a next hour, and nothing since has been a reason to leave. */
  ghost predicate EnteredAt(c: StopCell, j: nat, i: nat)
    requires c.Valid() && i <= c.cell.end
  {
    && c.start <= j < i && j + 1 < c.cell.end
    && CrossesUp(c.cell.bars, j) && NextHour(c.cell.bars, c.cell.end, j) && EntryBar(c, j).None?
    && forall k :: j < k < i ==> !Leaves(c, j, k)
  }

  lemma {:induction false} EntryBarMeans(c: StopCell, i: nat, j: nat)
    requires c.Valid() && i <= c.cell.end
    ensures EntryBar(c, i) == Some(j) <==> EnteredAt(c, j, i)
  {
    if i <= c.start {
      return;
    }
    EntryBarMeans(c, i - 1, j);
    if EnteredAt(c, j, i) && j < i - 1 {
      assert EnteredAt(c, j, i - 1);
    }
  }

  /** The position and what it was bought at. */
  ghost predicate Positioned(c: StopCell, s: Sim, entry: Option<nat>)
    requires c.Valid() && (entry.Some? ==> entry.value + 1 < c.cell.end)
  {
    && s.long == entry.Some?
    && s.entryReference == (if entry.Some? then Some(c.cell.bars.opens[entry.value + 1]) else None)
  }

  lemma StopLevelExactly(c: StopCell, reference: real, close: real)
    requires c.threshold.Some?
    ensures close <= c.StopLevel(reference) <==> close * 100.0 <= reference * (100.0 - c.threshold.value as real)
  {
    var t := c.threshold.value as real;
    assert reference * (1.0 - t / 100.0) * 100.0 == reference * (100.0 - t);
  }

  /** Which exit, if any, bar i books, and what it leaves undone for want of a next hour. */
  ghost predicate TalliedExactly(c: StopCell, i: nat, entry: Option<nat>, s: Sim, after: Sim)
    requires c.Valid() && i < c.cell.end && (entry.Some? ==> entry.value + 1 < c.cell.end)
  {
    var fill := NextHour(c.cell.bars, c.cell.end, i);
    var up := entry.None? && CrossesUp(c.cell.bars, i);
    var down := entry.Some? && CrossesDown(c.cell.bars, i);
    var stop := entry.Some? && StopHit(c, entry.value, i);
    && after.entries == s.entries + Count(up && fill)
    && after.ordinaryExits == s.ordinaryExits + Count(down && !stop && fill)
    && after.stopExits == s.stopExits + Count(stop && !down && fill)
    && after.dualExits == s.dualExits + Count(down && stop && fill)
    && after.missingStops == s.missingStops + Count(stop && !fill)
    && after.missingSignals == s.missingSignals + Count((up || (down && !stop)) && !fill)
  }

  /** Bar i fills at the next open: a purchase after an entry, a sale after an exit, and nothing otherwise. */
  ghost predicate FilledExactly(c: StopCell, i: nat, entry: Option<nat>, s: Sim, after: Sim)
    requires c.Valid() && i < c.cell.end && (entry.Some? ==> entry.value + 1 < c.cell.end)
  {
    var bars := c.cell.bars;
    if entry.None? && CrossesUp(bars, i) && NextHour(bars, c.cell.end, i) then
      FilledBoth(s.legs, true, bars.opens[i + 1], c.cell.costs) == Ok(after.legs)
    else if entry.Some? && Leaves(c, entry.value, i) then
      FilledBoth(s.legs, false, bars.opens[i + 1], c.cell.costs) == Ok(after.legs)
    else after.legs == s.legs
  }

  lemma StepPositions(c: StopCell, s: Sim, i: nat, after: Sim, entry: Option<nat>)
    requires c.Valid() && i < c.cell.end && (entry.Some? ==> entry.value + 1 < c.cell.end)
    requires Positioned(c, s, entry) && Step(c, s, i) == Ok(after)
    ensures TalliedExactly(c, i, entry, s, after) && FilledExactly(c, i, entry, s, after)
    ensures Positioned(c, after,
      match entry
      case None =>
        if CrossesUp(c.cell.bars, i) && NextHour(c.cell.bars, c.cell.end, i) then Some(i) else None
      case Some(j) => if Leaves(c, j, i) then None else Some(j))
  {
    CrossingsExactly(c.cell.bars, c.cell.end, i);
    if c.threshold.Some? && entry.Some? {
      StopLevelExactly(c, c.cell.bars.opens[entry.value + 1], c.cell.bars.closes[i]);
    }
  }

  /** At every bar the position, and the price it was bought at, are those of the entry bar. */
  lemma {:induction false} PositionExactly(c: StopCell, i: nat, s: Sim)
    requires c.Valid() && c.start <= i <= c.cell.end && Run(c, i) == Ok(s)
    ensures Positioned(c, s, EntryBar(c, i))
    decreases i, 1
  {
    if i > c.start {
      var before := Earlier(c, i, s);
      PositionNext(c, i - 1, before, s);
    }
  }

  lemma {:induction false} PositionNext(c: StopCell, i: nat, s: Sim, after: Sim)
    requires c.Valid() && c.start <= i < c.cell.end && Run(c, i) == Ok(s) && Run(c, i + 1) == Ok(after)
    ensures Positioned(c, after, EntryBar(c, i + 1))
    decreases i + 1, 0
  {
    PositionExactly(c, i, s);
    OneStep(c, i, s);
    StepPositions(c, s, i, after, EntryBar(c, i));
  }

  /**
   What each bar of a run does: it exits by stop alone exactly when the close has fallen from the entry's own fill price
   by the threshold or more, without a downward crossing, and a next hour can fill it; and it fills at that hour's open.
   */
  lemma BarExactly(c: StopCell, i: nat, s: Sim, after: Sim)
    requires c.Valid() && c.start <= i < c.cell.end && Run(c, i) == Ok(s) && Run(c, i + 1) == Ok(after)
    ensures TalliedExactly(c, i, EntryBar(c, i), s, after) && FilledExactly(c, i, EntryBar(c, i), s, after)
  {
    PositionExactly(c, i, s);
    OneStep(c, i, s);
    StepPositions(c, s, i, after, EntryBar(c, i));
  }

  lemma StartsExactly(c: StopCell)
    requires c.Valid()
    ensures Start(c) == Err(EmptyCell) <==> c.cell.end <= c.start
    ensures Start(c) == Err(ThresholdOutsideGrid) <==>
      c.start < c.cell.end && c.threshold.Some? && c.threshold.value !in [10, 20, 30, 40, 50]
    ensures Start(c).Err? ==> Start(c).error == EmptyCell || Start(c).error == ThresholdOutsideGrid
    ensures Start(c).Ok? ==>
      var s := Start(c).value;
      && s.legs == NewLegs(c.cell.initial)
      && s.entries == s.ordinaryExits == s.stopExits == s.dualExits == s.missingSignals == s.missingStops == 0
  {
  }

  // ---------- The reported figures ----------

  /** The capital, then what the base account is worth at each close up to bar i. */
  ghost predicate Sampled(c: StopCell, i: nat, curve: seq<real>)
    requires c.Valid() && i <= c.cell.end
  {
    var u := c.cell;
    && c.start <= i && |curve| == i - c.start + 1 && curve[0] == u.initial
    && forall k: nat :: c.start <= k < i ==>
      && Run(c, k).Ok?
      && curve[k - c.start + 1] == Run(c, k).value.legs.base.Equity(u.bars.closes[k], u.costs.quantity, u.costs.base)
  }

  lemma StepMarks(c: StopCell, s: Sim, i: nat, after: Sim, x: real)
    requires c.Valid() && i < c.cell.end && Step(c, s, i) == Ok(after)
    requires x == s.legs.base.Equity(c.cell.bars.closes[i], c.cell.costs.quantity, c.cell.costs.base)
    ensures Max(s.peak, x) != 0.0 && after.peak == Max(s.peak, x)
    ensures after.drawdown == Max(s.drawdown, DrawdownFrom(Max(s.peak, x), x))
  {
  }

  lemma SampledNext(c: StopCell, i: nat, s: Sim, curve: seq<real>, x: real)
    requires c.Valid() && c.start <= i < c.cell.end && Run(c, i) == Ok(s) && Sampled(c, i, curve)
    requires x == s.legs.base.Equity(c.cell.bars.closes[i], c.cell.costs.quantity, c.cell.costs.base)
    ensures Sampled(c, i + 1, curve + [x])
  {
  }

  lemma {:induction false} DrawdownSoFar(c: StopCell, i: nat, s: Sim) returns (curve: seq<real>)
    requires c.Valid() && c.start <= i <= c.cell.end && Run(c, i) == Ok(s)
    ensures Sampled(c, i, curve) && Tracks(curve, s.peak, s.drawdown)
    decreases i, 1
  {
    if i == c.start {
      StartsTracking(c.cell.initial);
      return [c.cell.initial];
    }
    var before := Earlier(c, i, s);
    curve := DrawdownNext(c, i - 1, before, s);
  }

  lemma {:induction false} DrawdownNext(c: StopCell, i: nat, s: Sim, after: Sim) returns (curve: seq<real>)
    requires c.Valid() && c.start <= i < c.cell.end && Run(c, i) == Ok(s) && Run(c, i + 1) == Ok(after)
    ensures Sampled(c, i + 1, curve) && Tracks(curve, after.peak, after.drawdown)
    decreases i + 1, 0
  {
    var shorter := DrawdownSoFar(c, i, s);
    var x := s.legs.base.Equity(c.cell.bars.closes[i], c.cell.costs.quantity, c.cell.costs.base);
    OneStep(c, i, s);
    SampledNext(c, i, s, shorter, x);
    StepMarks(c, s, i, after, x);
    TracksNext(shorter, s.peak, s.drawdown, x);
    curve := shorter + [x];
  }

  /** Net results are the accounts' worth at the last close less the capital; the drawdown is the sampled curve's. */
  lemma ReportExactly(c: StopCell, r: Report) returns (s: Sim, curve: seq<real>)
    requires c.Valid() && 0.0 < c.cell.initial && Outcome(c) == Ok(r)
    ensures c.start < c.cell.end && Run(c, c.cell.end) == Ok(s) && r.sim == s
    ensures var u := c.cell;
      var close := u.bars.closes[u.end - 1];
      && r.baseNet == s.legs.base.Equity(close, u.costs.quantity, u.costs.base) - u.initial
      && r.stressNet == s.legs.stress.Equity(close, u.costs.quantity, u.costs.stress) - u.initial
    ensures Sampled(c, c.cell.end, curve) && WorstAlong(curve + [r.baseNet + c.cell.initial], r.drawdown)
  {
    s := Run(c, c.cell.end).value;
    curve := DrawdownSoFar(c, c.cell.end, s);
    PeakIsHighest(curve, |curve| - 1);
    LastSample(curve, s.peak, s.drawdown, r.baseNet + c.cell.initial);
  }
}
