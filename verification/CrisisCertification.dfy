/**
 The crisis-unit simulator: a crossing leaves a pending order that is filled when
 the next bar opens, after a lead-in and against a baseline struck at the score start.
 */
module CrisisCertification {
  import opened Basics
  import opened Crossover
  import opened UnitAccount
  import opened EagerFills
  import BlindOos

  datatype SimError =
    | InvalidRange
    | TargetDrifted
    | BaselineNotSet
    | UnitBaselineMissing
    | DivisionByZero
    | Refused(reason: UnitError)

  datatype Order = Order(enter: bool, target: nat)

  /** The accounts together with the order waiting for the next open. */
  datatype Desk = Desk(core: Core, pending: Option<Order>)

  /** Fill the order waiting for bar i, if any. */
  function Settled(c: UnitCell, d: Desk, i: nat): Result<Desk, SimError>
    requires c.Valid() && i < c.end
  {
    match d.pending
    case None => Ok(d)
    case Some(o) =>
      if o.target != i then Err(TargetDrifted)
      else match Booked(d.core, o.enter, c.bars.opens[i], c.costs)
        case Err(e) => Err(Refused(e))
        case Ok(core) => Ok(Desk(core, None))
  }

  /** Read the crossing at the close of bar i; the lead bar itself decides nothing. */
  function Signalled(c: UnitCell, lead: nat, d: Desk, i: nat): Desk
    requires c.Valid() && i < c.end
  {
    if i <= lead then d
    else match Wanted(d.core.long, CrossAt(c.bars, i))
      case None => d
      case Some(enter) =>
        if !Fillable(c.bars, c.end, i) then d.(core := d.core.(missing := d.core.missing + 1))
        else d.(pending := Some(Order(enter, i + 1)))
  }

  /** The deferred run when bar i is reached, before its pending order is filled. */
  function DeferredRun(c: UnitCell, lead: nat, i: nat): Result<Desk, SimError>
    requires c.Valid() && i <= c.end
  {
    if i <= lead then Ok(Desk(NewCore(c), None))
    else match DeferredRun(c, lead, i - 1)
      case Err(e) => Err(e)
      case Ok(d) =>
        match Settled(c, d, i - 1)
        case Err(e) => Err(e)
        case Ok(after) => Ok(Signalled(c, lead, after, i - 1))
  }

  // ---------- Deferred fills equal eager fills ----------

  /** The desk as it stands at the close of bar i, or past the last bar. */
  function AtClose(c: UnitCell, r: Result<Desk, SimError>, i: nat): Result<Desk, SimError>
    requires c.Valid() && i <= c.end
  {
    match r
    case Err(e) => Err(e)
    case Ok(d) => if i < c.end then Settled(c, d, i) else Ok(d)
  }

  function Idle(r: Result<Core, UnitError>): Result<Desk, SimError> {
    match r
    case Err(e) => Err(Refused(e))
    case Ok(core) => Ok(Desk(core, None))
  }

  lemma SignalThenSettle(c: UnitCell, lead: nat, core: Core, i: nat)
    requires c.Valid() && lead < i < c.end
    ensures AtClose(c, Ok(Signalled(c, lead, Desk(core, None), i)), i + 1) == Idle(EagerTurn(c, core, i))
  {
  }

  /** From one bar close to the next, the deferred desk does what the eager run does. */
  lemma DeferredTurn(c: UnitCell, lead: nat, i: nat)
    requires c.Valid() && lead < i < c.end
    requires AtClose(c, DeferredRun(c, lead, i), i) == Idle(EagerRun(c, lead + 1, i))
    ensures AtClose(c, DeferredRun(c, lead, i + 1), i + 1) == Idle(EagerRun(c, lead + 1, i + 1))
  {
    var before := EagerRun(c, lead + 1, i);
    if before.Err? {
      EagerFailureIsFinal(c, lead + 1, i, i + 1);
      return;
    }
    EagerOneTurn(c, lead + 1, i, before.value);
    SignalThenSettle(c, lead, before.value, i);
  }

  /** At every bar close the deferred desk, refusals included, is the eager run with no order outstanding. */
  lemma {:induction false} DeferredEqualsEager(c: UnitCell, lead: nat, i: nat)
    requires c.Valid() && lead < i <= c.end
    ensures AtClose(c, DeferredRun(c, lead, i), i) == Idle(EagerRun(c, lead + 1, i))
  {
    if i == lead + 1 {
      assert DeferredRun(c, lead, lead) == Ok(Desk(NewCore(c), None));
      return;
    }
    DeferredEqualsEager(c, lead, i - 1);
    DeferredTurn(c, lead, i - 1);
  }

  // ---------- The scored simulation ----------

  datatype Score = Score(
    baseline: Option<real>,
    stressBaseline: Option<real>,
    peak: Option<real>,
    drawdown: real,
    entries: nat,
    exits: nat,
    heldAtStart: bool)

  datatype Sim = Sim(desk: Desk, score: Score)

  datatype CrisisUnit = CrisisUnit(cell: UnitCell, lead: nat, score: nat)
  {
    predicate Valid() {
      cell.Valid() && lead <= |cell.bars.times| && score <= |cell.bars.times|
    }
  }

  /** At the score start both accounts are struck at the open, before any pending fill. */
  function Struck(u: CrisisUnit, s: Sim, i: nat): Score
    requires u.Valid() && i < u.cell.end
  {
    var c := u.cell;
    if i != u.score then s.score
    else
      var mark := c.bars.opens[i];
      var baseline := s.desk.core.legs.base.Equity(mark, c.costs.quantity, c.costs.base);
      s.score.(baseline := Some(baseline),
               stressBaseline := Some(s.desk.core.legs.stress.Equity(mark, c.costs.quantity, c.costs.stress)),
               peak := Some(baseline), heldAtStart := s.desk.core.long)
  }

  function FillCounted(u: CrisisUnit, score: Score, pending: Option<Order>, i: nat): Score {
    if pending.None? || i < u.score then score
    else if pending.value.enter then score.(entries := score.entries + 1)
    else score.(exits := score.exits + 1)
  }

  function Marked(u: CrisisUnit, score: Score, base: UnitBook, i: nat): Result<Score, SimError>
    requires u.Valid() && i < u.cell.end
  {
    var c := u.cell;
    if i < u.score then Ok(score)
    else if score.peak.None? then Err(BaselineNotSet)
    else
      var equity := base.Equity(c.bars.closes[i], c.costs.quantity, c.costs.base);
      var peak := if equity > score.peak.value then equity else score.peak.value;
      if peak == 0.0 then Err(DivisionByZero)
      else
        var dd := DrawdownFrom(peak, equity);
        Ok(score.(peak := Some(peak), drawdown := if dd > score.drawdown then dd else score.drawdown))
  }

  function Step(u: CrisisUnit, s: Sim, i: nat): Result<Sim, SimError>
    requires u.Valid() && i < u.cell.end
  {
    match Settled(u.cell, s.desk, i)
    case Err(e) => Err(e)
    case Ok(desk) =>
      match Marked(u, FillCounted(u, Struck(u, s, i), s.desk.pending, i), desk.core.legs.base, i)
      case Err(e) => Err(e)
      case Ok(score) => Ok(Sim(Signalled(u.cell, u.lead, desk, i), score))
  }

  function Run(u: CrisisUnit, i: nat): Result<Sim, SimError>
    requires u.Valid() && i <= u.cell.end
    decreases i, 0
  {
    if i <= u.lead then Ok(Sim(Desk(NewCore(u.cell), None), Score(None, None, None, 0.0, 0, 0, false)))
    else Next(u, i - 1)
  }

  /** The run once bar i is done. */
  function Next(u: CrisisUnit, i: nat): Result<Sim, SimError>
    requires u.Valid() && i < u.cell.end
    decreases i, 1
  {
    match Run(u, i)
    case Err(e) => Err(e)
    case Ok(s) => Step(u, s, i)
  }

  /** A bar that is reached was reached from the bar before. */
  lemma Earlier(u: CrisisUnit, i: nat, s: Sim) returns (before: Sim)
    requires u.Valid() && u.lead < i <= u.cell.end && Run(u, i) == Ok(s)
    ensures Run(u, i - 1) == Ok(before)
  {
    assert Next(u, i - 1) == Ok(s);
    before := Run(u, i - 1).value;
  }

  /** Neighbouring bars of a run are one step apart. */
  lemma OneStep(u: CrisisUnit, i: nat, s: Sim)
    requires u.Valid() && u.lead <= i < u.cell.end && Run(u, i) == Ok(s)
    ensures Run(u, i + 1) == Step(u, s, i)
  {
    assert Run(u, i + 1) == Next(u, i);
  }

  lemma {:induction false} FailureIsFinal(u: CrisisUnit, i: nat, j: nat)
    requires u.Valid() && u.lead <= i <= j <= u.cell.end && Run(u, i).Err?
    ensures Run(u, j) == Run(u, i)
  {
    if i < j {
      FailureIsFinal(u, i, j - 1);
      assert Run(u, j) == Next(u, j - 1);
    }
  }

  datatype Report = Report(core: Core, score: Score, baseNet: real, stressNet: real)

  function Closed(u: CrisisUnit, s: Sim): Result<Report, SimError>
    requires u.Valid() && 0 < u.cell.end
  {
    var c := u.cell;
    if s.score.baseline.None? || s.score.stressBaseline.None? then Err(UnitBaselineMissing)
    else
      var mark := c.bars.closes[c.end - 1];
      var core := s.desk.core;
      Ok(Report(core, s.score,
                core.legs.base.Equity(mark, c.costs.quantity, c.costs.base) - s.score.baseline.value,
                core.legs.stress.Equity(mark, c.costs.quantity, c.costs.stress) - s.score.stressBaseline.value))
  }

  function Outcome(u: CrisisUnit): Result<Report, SimError>
    requires u.Valid()
  {
    if u.lead >= u.score || u.score >= u.cell.end then Err(InvalidRange)
    else match Run(u, u.cell.end)
      case Err(e) => Err(e)
      case Ok(s) => Closed(u, s)
  }

  method SettleOrder(c: UnitCell, base: Account, stress: Account, d: Desk, i: nat) returns (r: Result<Desk, SimError>)
    requires c.Valid() && i < c.end && base != stress && d.core.legs == UnitLegs(base.View(), stress.View())
    modifies base, stress
    ensures r == Settled(c, d, i)
    ensures r.Ok? ==> r.value.core.legs == UnitLegs(base.View(), stress.View())
  {
    if d.pending.None? {
      return Ok(d);
    }
    var order := d.pending.value;
    if order.target != i {
      return Err(TargetDrifted);
    }
    var refusal := FillBoth(base, stress, order.enter, c.bars.opens[i], c.costs);
    if refusal.Some? {
      return Err(Refused(refusal.value));
    }
    var core := d.core;
    return Ok(Desk(Core(UnitLegs(base.View(), stress.View()), order.enter, core.missing,
                        core.entries + Count(order.enter), core.exits + Count(!order.enter)), None));
  }

  method Strike(u: CrisisUnit, base: Account, stress: Account, s: Sim, i: nat) returns (score: Score)
    requires u.Valid() && i < u.cell.end && s.desk.core.legs == UnitLegs(base.View(), stress.View())
    ensures score == Struck(u, s, i)
  {
    score := s.score;
    if i == u.score {
      var mark := u.cell.bars.opens[i];
      var baseline := base.Equity(mark, u.cell.costs.quantity, u.cell.costs.base);
      var stressBaseline := stress.Equity(mark, u.cell.costs.quantity, u.cell.costs.stress);
      score := score.(baseline := Some(baseline), stressBaseline := Some(stressBaseline),
                      peak := Some(baseline), heldAtStart := s.desk.core.long);
    }
  }

  method MarkBar(u: CrisisUnit, base: Account, score: Score, i: nat) returns (r: Result<Score, SimError>)
    requires u.Valid() && i < u.cell.end
    ensures r == Marked(u, score, base.View(), i)
  {
    if i < u.score {
      return Ok(score);
    }
    var equity := base.Equity(u.cell.bars.closes[i], u.cell.costs.quantity, u.cell.costs.base);
    if score.peak.None? {
      return Err(BaselineNotSet);
    }
    var peak := score.peak.value;
    if equity > peak {
      peak := equity;
    }
    if peak == 0.0 {
      return Err(DivisionByZero);
    }
    var dd := DrawdownFrom(peak, equity);
    var t := score.(peak := Some(peak));
    if dd > t.drawdown {
      t := t.(drawdown := dd);
    }
    return Ok(t);
  }

  method AdvanceBar(u: CrisisUnit, base: Account, stress: Account, s: Sim, i: nat) returns (r: Result<Sim, SimError>)
    requires u.Valid() && i < u.cell.end && base != stress && s.desk.core.legs == UnitLegs(base.View(), stress.View())
    modifies base, stress
    ensures r == Step(u, s, i)
    ensures r.Ok? ==> r.value.desk.core.legs == UnitLegs(base.View(), stress.View())
  {
    var score := Strike(u, base, stress, s, i);
    var settled := SettleOrder(u.cell, base, stress, s.desk, i);
    if settled.Err? {
      return Err(settled.error);
    }
    if s.desk.pending.Some? && i >= u.score {
      if s.desk.pending.value.enter {
        score := score.(entries := score.entries + 1);
      } else {
        score := score.(exits := score.exits + 1);
      }
    }
    var marked := MarkBar(u, base, score, i);
    if marked.Err? {
      return Err(marked.error);
    }
    return Ok(Sim(Signalled(u.cell, u.lead, settled.value, i), marked.value));
  }

  method CloseUnit(u: CrisisUnit, base: Account, stress: Account, s: Sim) returns (r: Result<Report, SimError>)
    requires u.Valid() && 0 < u.cell.end && s.desk.core.legs == UnitLegs(base.View(), stress.View())
    ensures r == Closed(u, s)
  {
    if s.score.baseline.None? || s.score.stressBaseline.None? {
      return Err(UnitBaselineMissing);
    }
    var c := u.cell;
    var mark := c.bars.closes[c.end - 1];
    var final := base.Equity(mark, c.costs.quantity, c.costs.base);
    var stressFinal := stress.Equity(mark, c.costs.quantity, c.costs.stress);
    return Ok(Report(s.desk.core, s.score, final - s.score.baseline.value, stressFinal - s.score.stressBaseline.value));
  }

  method SimulateUnitSymbol(bars: Bars, startMs: int, endMs: int, leadHours: int, costs: UnitCosts, initial: real)
    returns (r: Result<Report, SimError>)
    requires bars.Valid()
    ensures r == Outcome(CrisisUnit(UnitCell(bars, BisectLeft(bars.times, endMs), costs, initial),
                                    BisectLeft(bars.times, startMs - leadHours * HOUR),
                                    BisectLeft(bars.times, startMs)))
  {
    var score, end := BisectLeft(bars.times, startMs), BisectLeft(bars.times, endMs);
    var lead := BisectLeft(bars.times, startMs - leadHours * HOUR);
    var u := CrisisUnit(UnitCell(bars, end, costs, initial), lead, score);
    if lead >= score || score >= end {
      return Err(InvalidRange);
    }
    var base := new Account(initial);
    var stress := new Account(initial);
    var s := Sim(Desk(NewCore(u.cell), None), Score(None, None, None, 0.0, 0, 0, false));
    for i := lead to end
      invariant base != stress && s.desk.core.legs == UnitLegs(base.View(), stress.View())
      invariant Run(u, i) == Ok(s)
    {
      OneStep(u, i, s);
      var next := AdvanceBar(u, base, stress, s, i);
      if next.Err? {
        FailureIsFinal(u, i + 1, end);
        return Err(next.error);
      }
      s := next.value;
    }
    r := CloseUnit(u, base, stress, s);
  }

  // ---------- What the scored simulation promises ----------

  predicate BaselineSet(s: Score) {
    s.baseline.Some? && s.stressBaseline.Some? && s.peak.Some?
  }

  ghost predicate DeskFails(u: CrisisUnit, i: nat, e: SimError)
    requires u.Valid() && i <= u.cell.end
  {
    exists j :: 0 <= j <= i && DeferredRun(u.cell, u.lead, j) == Err(e)
  }

  lemma StepIsDeferred(u: CrisisUnit, s: Sim, i: nat)
    requires u.Valid() && u.lead <= i < u.cell.end && DeferredRun(u.cell, u.lead, i) == Ok(s.desk)
    requires i > u.score ==> BaselineSet(s.score)
    ensures match Step(u, s, i)
      case Ok(after) =>
        && DeferredRun(u.cell, u.lead, i + 1) == Ok(after.desk)
        && (i >= u.score ==> BaselineSet(after.score))
      case Err(e) => e == DivisionByZero || DeferredRun(u.cell, u.lead, i + 1) == Err(e)
  {
  }

  /** The scored simulation trades the deferred desk, and fails there or on a vanished peak only. */
  lemma {:induction false} RunIsDeferred(u: CrisisUnit, i: nat)
    requires u.Valid() && u.lead < u.score && u.lead <= i <= u.cell.end
    ensures match Run(u, i)
      case Ok(s) => DeferredRun(u.cell, u.lead, i) == Ok(s.desk) && (i > u.score ==> BaselineSet(s.score))
      case Err(e) => e == DivisionByZero || DeskFails(u, i, e)
  {
    if i == u.lead {
      return;
    }
    RunIsDeferred(u, i - 1);
    var before := Run(u, i - 1);
    if before.Ok? {
      OneStep(u, i - 1, before.value);
      StepIsDeferred(u, before.value, i - 1);
      return;
    }
    FailureIsFinal(u, i - 1, i);
    if before.error != DivisionByZero {
      var j :| 0 <= j <= i - 1 && DeferredRun(u.cell, u.lead, j) == Err(before.error);
      assert DeskFails(u, i, before.error);
    }
  }

  /** A desk that fails does so because an account lacks cash; no order ever misses its bar. */
  lemma {:induction false} DeskFailsOnlyForCash(c: UnitCell, lead: nat, j: nat)
    requires c.Valid() && j <= c.end && DeferredRun(c, lead, j).Err?
    ensures DeferredRun(c, lead, j).error == Refused(InsufficientCash)
  {
    if j <= lead {
      return;
    }
    DeferredEqualsEager(c, lead, j);
    EagerFollowsCourse(c, lead + 1, j);
  }

  /** The drifted target, the unset baseline and the missing baseline are unreachable. */
  lemma UnreachableRaises(u: CrisisUnit)
    requires u.Valid() && Outcome(u).Err?
    ensures Outcome(u).error == InvalidRange || Outcome(u).error == DivisionByZero
         || Outcome(u).error == Refused(InsufficientCash)
  {
    if u.lead < u.score < u.cell.end {
      RunIsDeferred(u, u.cell.end);
      var r := Run(u, u.cell.end);
      if r.Err? && r.error != DivisionByZero {
        var j :| 0 <= j <= u.cell.end && DeferredRun(u.cell, u.lead, j) == Err(r.error);
        DeskFailsOnlyForCash(u.cell, u.lead, j);
      }
    }
  }

  /** At every bar close of a finished unit its accounts, position and missing-fill count are the eager run's. */
  lemma {:induction false} UnitEqualsEager(u: CrisisUnit, i: nat)
    requires u.Valid() && u.lead < u.score && u.lead < i <= u.cell.end && Run(u, i).Ok?
    ensures AtClose(u.cell, Ok(Run(u, i).value.desk), i) == Idle(EagerRun(u.cell, u.lead + 1, i))
  {
    RunIsDeferred(u, i);
    DeferredEqualsEager(u.cell, u.lead, i);
  }

  /** Deciding on the same bars, the crisis unit and the blind replay hold the same accounts at every bar close. */
  lemma {:induction false} UnitEqualsBlindReplay(u: CrisisUnit, w: BlindOos.Window, i: nat)
    requires u.Valid() && u.lead < u.score && u.lead < i <= u.cell.end
    requires w.Valid() && w.cell == u.cell && w.start == u.lead + 1
    requires Run(u, i).Ok? && BlindOos.Run(w, i).Ok?
    ensures AtClose(u.cell, Ok(Run(u, i).value.desk), i) == Ok(Desk(BlindOos.Run(w, i).value.core, None))
  {
    UnitEqualsEager(u, i);
    BlindOos.RunIsEager(w, i);
  }

  lemma DeskTurnsOver(c: UnitCell, lead: nat, i: nat)
    requires c.Valid() && i <= c.end && DeferredRun(c, lead, i).Ok?
    ensures var d := DeferredRun(c, lead, i).value; d.pending.Some? ==> d.pending.value.enter == !d.core.long
  {
  }

  /** Scored entries less exits so far, against the position then and now; none before the score start. */
  predicate FillsBalance(u: CrisisUnit, s: Sim, i: nat) {
    if i <= u.score then s.score.entries == 0 && s.score.exits == 0
    else s.score.entries - s.score.exits == Count(s.desk.core.long) - Count(s.score.heldAtStart)
  }

  lemma StepBalances(u: CrisisUnit, s: Sim, i: nat, after: Sim)
    requires u.Valid() && u.lead <= i < u.cell.end && FillsBalance(u, s, i) && Step(u, s, i) == Ok(after)
    requires s.desk.pending.Some? ==> s.desk.pending.value.enter == !s.desk.core.long
    ensures FillsBalance(u, after, i + 1)
  {
  }

  lemma {:induction false} ScoredFillsBalance(u: CrisisUnit, i: nat, s: Sim)
    requires u.Valid() && u.lead < u.score && u.lead <= i <= u.cell.end && Run(u, i) == Ok(s)
    ensures FillsBalance(u, s, i)
  {
    if i == u.lead {
      return;
    }
    var before := Earlier(u, i, s);
    ScoredFillsBalance(u, i - 1, before);
    RunIsDeferred(u, i - 1);
    DeskTurnsOver(u.cell, u.lead, i - 1);
    OneStep(u, i - 1, before);
    StepBalances(u, before, i - 1, s);
  }

  /** Scored entries less scored exits is the change of position over the scored window. */
  lemma ScoredEntriesLessExits(u: CrisisUnit)
    requires u.Valid() && Outcome(u).Ok?
    ensures var r := Outcome(u).value;
      r.score.entries - r.score.exits == Count(r.core.long) - Count(r.score.heldAtStart)
  {
    ScoredFillsBalance(u, u.cell.end, Run(u, u.cell.end).value);
  }
}
