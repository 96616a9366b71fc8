/** The crossover with a protective stop: a close at or below the stop level exits at the next open. */
module StopOverlay {
  import opened Basics
  import opened Crossover
  import opened UnitAccount
  import opened EagerFills

  datatype SimError =
    | EmptyCell
    | ThresholdOutsideGrid
    | MissingEntryReference
    | DivisionByZero
    | Refused(reason: UnitError)

  /** A threshold of None is the control without a stop. */
  datatype StopCell = StopCell(cell: UnitCell, start: nat, threshold: Option<int>)
  {
    predicate Valid() {
      cell.Valid() && start <= |cell.bars.times|
    }

    function StopLevel(reference: real): real
      requires threshold.Some?
    {
      reference * (1.0 - threshold.value as real / 100.0)
    }
  }

  datatype Sim = Sim(
    legs: UnitLegs,
    entryReference: Option<real>,
    long: bool,
    peak: real,
    drawdown: real,
    entries: nat,
    ordinaryExits: nat,
    stopExits: nat,
    dualExits: nat,
    missingSignals: nat,
    missingStops: nat)

  function Start(c: StopCell): Result<Sim, SimError>
    requires c.Valid()
  {
    if c.start >= c.cell.end then Err(EmptyCell)
    else if c.threshold.Some? && c.threshold.value !in [10, 20, 30, 40, 50] then Err(ThresholdOutsideGrid)
    else Ok(Sim(NewLegs(c.cell.initial), None, false, c.cell.initial, 0.0, 0, 0, 0, 0, 0, 0))
  }

  function Marked(c: StopCell, s: Sim, i: nat): Result<Sim, SimError>
    requires c.Valid() && i < c.cell.end
  {
    var equity := s.legs.base.Equity(c.cell.bars.closes[i], c.cell.costs.quantity, c.cell.costs.base);
    var peak := if equity > s.peak then equity else s.peak;
    if peak == 0.0 then Err(DivisionByZero)
    else
      var dd := DrawdownFrom(peak, equity);
      Ok(s.(peak := peak, drawdown := if dd > s.drawdown then dd else s.drawdown))
  }

  function ExitCounted(s: Sim, ordinary: bool, stop: bool): Sim {
    if ordinary && stop then s.(dualExits := s.dualExits + 1)
    else if stop then s.(stopExits := s.stopExits + 1)
    else s.(ordinaryExits := s.ordinaryExits + 1)
  }

  function Leaving(c: StopCell, s: Sim, i: nat, ordinary: bool, stop: bool): Result<Sim, SimError>
    requires c.Valid() && i < c.cell.end
  {
    if !Fillable(c.cell.bars, c.cell.end, i) then
      Ok(if stop then s.(missingStops := s.missingStops + 1) else s.(missingSignals := s.missingSignals + 1))
    else match FilledBoth(s.legs, false, c.cell.bars.opens[i + 1], c.cell.costs)
      case Err(e) => Err(Refused(e))
      case Ok(l) => Ok(ExitCounted(s.(legs := l, long := false, entryReference := None), ordinary, stop))
  }

  function Entering(c: StopCell, s: Sim, i: nat): Result<Sim, SimError>
    requires c.Valid() && i < c.cell.end
  {
    if !Fillable(c.cell.bars, c.cell.end, i) then Ok(s.(missingSignals := s.missingSignals + 1))
    else
      var reference := c.cell.bars.opens[i + 1];
      match FilledBoth(s.legs, true, reference, c.cell.costs)
      case Err(e) => Err(Refused(e))
      case Ok(l) => Ok(s.(legs := l, long := true, entryReference := Some(reference), entries := s.entries + 1))
  }

  function Decided(c: StopCell, s: Sim, i: nat): Result<Sim, SimError>
    requires c.Valid() && i < c.cell.end
  {
    var cross := CrossAt(c.cell.bars, i);
    if cross == Undefined then Ok(s)
    else if s.long && c.threshold.Some? && s.entryReference.None? then Err(MissingEntryReference)
    else
      var ordinary := s.long && cross == Down;
      var stop := s.long && c.threshold.Some? && c.cell.bars.closes[i] <= c.StopLevel(s.entryReference.value);
      if ordinary || stop then Leaving(c, s, i, ordinary, stop)
      else if !s.long && cross == Up then Entering(c, s, i)
      else Ok(s)
  }

  function Step(c: StopCell, s: Sim, i: nat): Result<Sim, SimError>
    requires c.Valid() && i < c.cell.end
  {
    match Marked(c, s, i)
    case Err(e) => Err(e)
    case Ok(t) => Decided(c, t, i)
  }

  function Run(c: StopCell, i: nat): Result<Sim, SimError>
    requires c.Valid() && i <= c.cell.end
    decreases i, 0
  {
    if i <= c.start then Start(c) else Next(c, i - 1)
  }

  /** The run once bar i is done. */
  function Next(c: StopCell, i: nat): Result<Sim, SimError>
    requires c.Valid() && i < c.cell.end
    decreases i, 1
  {
    match Run(c, i)
    case Err(e) => Err(e)
    case Ok(s) => Step(c, s, i)
  }

  /** A bar that is reached was reached from the bar before. */
  lemma Earlier(c: StopCell, i: nat, s: Sim) returns (before: Sim)
    requires c.Valid() && c.start < i <= c.cell.end && Run(c, i) == Ok(s)
    ensures Run(c, i - 1) == Ok(before)
  {
    assert Next(c, i - 1) == Ok(s);
    before := Run(c, i - 1).value;
  }

  /** Neighbouring bars of a run are one step apart. */
  lemma OneStep(c: StopCell, i: nat, s: Sim)
    requires c.Valid() && c.start <= i < c.cell.end && Run(c, i) == Ok(s)
    ensures Run(c, i + 1) == Step(c, s, i)
  {
    assert Run(c, i + 1) == Next(c, i);
  }

  lemma {:induction false} FailureIsFinal(c: StopCell, i: nat, j: nat)
    requires c.Valid() && c.start <= i <= j <= c.cell.end && Run(c, i).Err?
    ensures Run(c, j) == Run(c, i)
  {
    if i < j {
      FailureIsFinal(c, i, j - 1);
      assert Run(c, j) == Next(c, j - 1);
    }
  }

  datatype Report = Report(sim: Sim, baseNet: real, stressNet: real, drawdown: real)

  function Closed(c: StopCell, s: Sim): Result<Report, SimError>
    requires c.Valid() && c.start < c.cell.end
  {
    var u := c.cell;
    var mark := u.bars.closes[u.end - 1];
    var baseFinal := s.legs.base.Equity(mark, u.costs.quantity, u.costs.base);
    var stressFinal := s.legs.stress.Equity(mark, u.costs.quantity, u.costs.stress);
    if s.peak == 0.0 then Err(DivisionByZero)
    else Ok(Report(s, baseFinal - u.initial, stressFinal - u.initial, Max(s.drawdown, DrawdownFrom(s.peak, baseFinal))))
  }

  function Outcome(c: StopCell): Result<Report, SimError>
    requires c.Valid()
  {
    if c.start >= c.cell.end then Err(EmptyCell)
    else match Run(c, c.cell.end)
      case Err(e) => Err(e)
      case Ok(s) => Closed(c, s)
  }

  method MarkBar(c: StopCell, base: Account, s: Sim, i: nat) returns (r: Result<Sim, SimError>)
    requires c.Valid() && i < c.cell.end && s.legs.base == base.View()
    ensures r == Marked(c, s, i)
  {
    var t := s;
    var equity := base.Equity(c.cell.bars.closes[i], c.cell.costs.quantity, c.cell.costs.base);
    if equity > t.peak {
      t := t.(peak := equity);
    }
    if t.peak == 0.0 {
      return Err(DivisionByZero);
    }
    var dd := DrawdownFrom(t.peak, equity);
    if dd > t.drawdown {
      t := t.(drawdown := dd);
    }
    return Ok(t);
  }

  method DecideBar(c: StopCell, base: Account, stress: Account, s: Sim, i: nat) returns (r: Result<Sim, SimError>)
    requires c.Valid() && i < c.cell.end && base != stress && s.legs == UnitLegs(base.View(), stress.View())
    modifies base, stress
    ensures r == Decided(c, s, i)
    ensures r.Ok? ==> r.value.legs == UnitLegs(base.View(), stress.View())
  {
    var bars := c.cell.bars;
    var cross := CrossAt(bars, i);
    if cross == Undefined {
      return Ok(s);
    }
    var ordinary := s.long && cross == Down;
    var stop := false;
    if s.long && c.threshold.Some? {
      if s.entryReference.None? {
        return Err(MissingEntryReference);
      }
      stop := bars.closes[i] <= c.StopLevel(s.entryReference.value);
    }
    if ordinary || stop {
      if !Fillable(bars, c.cell.end, i) {
        return Ok(if stop then s.(missingStops := s.missingStops + 1) else s.(missingSignals := s.missingSignals + 1));
      }
      var refusal := FillBoth(base, stress, false, bars.opens[i + 1], c.cell.costs);
      if refusal.Some? {
        return Err(Refused(refusal.value));
      }
      var t := s.(legs := UnitLegs(base.View(), stress.View()), long := false, entryReference := None);
      return Ok(ExitCounted(t, ordinary, stop));
    }
    if s.long || cross != Up {
      return Ok(s);
    }
    if !Fillable(bars, c.cell.end, i) {
      return Ok(s.(missingSignals := s.missingSignals + 1));
    }
    var reference := bars.opens[i + 1];
    var refusal := FillBoth(base, stress, true, reference, c.cell.costs);
    if refusal.Some? {
      return Err(Refused(refusal.value));
    }
    return Ok(s.(legs := UnitLegs(base.View(), stress.View()), long := true, entryReference := Some(reference),
                 entries := s.entries + 1));
  }

  method CloseCell(c: StopCell, base: Account, stress: Account, s: Sim) returns (r: Result<Report, SimError>)
    requires c.Valid() && c.start < c.cell.end && s.legs == UnitLegs(base.View(), stress.View())
    ensures r == Closed(c, s)
  {
    var u := c.cell;
    var mark := u.bars.closes[u.end - 1];
    var baseFinal := base.Equity(mark, u.costs.quantity, u.costs.base);
    var stressFinal := stress.Equity(mark, u.costs.quantity, u.costs.stress);
    if s.peak == 0.0 {
      return Err(DivisionByZero);
    }
    return Ok(Report(s, baseFinal - u.initial, stressFinal - u.initial,
                     Max(s.drawdown, DrawdownFrom(s.peak, baseFinal))));
  }

  /** One more bar of the run. */
  method RunBar(c: StopCell, base: Account, stress: Account, s: Sim, i: nat) returns (r: Result<Sim, SimError>)
    requires c.Valid() && c.start <= i < c.cell.end && Run(c, i) == Ok(s)
    requires base != stress && s.legs == UnitLegs(base.View(), stress.View())
    modifies base, stress
    ensures r == Run(c, i + 1)
    ensures r.Ok? ==> r.value.legs == UnitLegs(base.View(), stress.View())
  {
    OneStep(c, i, s);
    r := MarkBar(c, base, s, i);
    if r.Ok? {
      r := DecideBar(c, base, stress, r.value, i);
    }
  }

  method SimulateCell(bars: Bars, startMs: int, endMs: int, costs: UnitCosts, initial: real, threshold: Option<int>)
    returns (r: Result<Report, SimError>)
    requires bars.Valid()
    ensures r == Outcome(StopCell(UnitCell(bars, BisectLeft(bars.times, endMs), costs, initial),
                                  BisectLeft(bars.times, startMs), threshold))
  {
    var start, end := BisectLeft(bars.times, startMs), BisectLeft(bars.times, endMs);
    var c := StopCell(UnitCell(bars, end, costs, initial), start, threshold);
    if start >= end {
      return Err(EmptyCell);
    }
    if threshold.Some? && threshold.value !in [10, 20, 30, 40, 50] {
      FailureIsFinal(c, start, end);
      return Err(ThresholdOutsideGrid);
    }
    var base := new Account(initial);
    var stress := new Account(initial);
    var s := Sim(NewLegs(initial), None, false, initial, 0.0, 0, 0, 0, 0, 0, 0);
    for i := start to end
      invariant base != stress && s.legs == UnitLegs(base.View(), stress.View())
      invariant Run(c, i) == Ok(s)
    {
      var advanced := RunBar(c, base, stress, s, i);
      if advanced.Err? {
        FailureIsFinal(c, i + 1, end);
        return Err(advanced.error);
      }
      s := advanced.value;
    }
    r := CloseCell(c, base, stress, s);
  }

  // ---------- The stop never holds when the control does not ----------

  /** Position, entry reference and open entries agree, and every exit was counted once. */
  predicate Sound(s: Sim) {
    && InStep(s.legs, s.long)
    && s.entryReference.Some? == s.long
    && s.entries == s.ordinaryExits + s.stopExits + s.dualExits + Count(s.long)
    && |s.legs.base.realized| == s.ordinaryExits + s.stopExits + s.dualExits
  }

  lemma SoundStep(c: StopCell, s: Sim, i: nat)
    requires c.Valid() && c.start <= i < c.cell.end && Sound(s)
    ensures match Step(c, s, i)
      case Ok(after) => Sound(after)
      case Err(e) => e == DivisionByZero || e == Refused(InsufficientCash)
  {
    if i + 1 < c.cell.end {
      FillInStep(s.legs, s.long, c.cell.bars.opens[i + 1], c.cell.costs);
    }
  }

  /** The entry reference is never missing while a position is open, and only cash can refuse a fill. */
  lemma {:induction false} RunIsSound(c: StopCell, i: nat)
    requires c.Valid() && c.start <= i <= c.cell.end
    ensures match Run(c, i)
      case Ok(s) => Sound(s)
      case Err(e) =>
        || e == EmptyCell || e == ThresholdOutsideGrid || e == DivisionByZero
        || e == Refused(InsufficientCash)
  {
    if i == c.start {
      return;
    }
    RunIsSound(c, i - 1);
    if Run(c, i - 1).Err? {
      FailureIsFinal(c, i - 1, i);
      return;
    }
    var before := Run(c, i - 1).value;
    OneStep(c, i - 1, before);
    SoundStep(c, before, i - 1);
  }

  /** How an overlay run compares with its control: inside it always, and identical until a pure stop fills. */
  predicate Contained(overlay: Sim, control: Sim) {
    && (overlay.long ==> control.long)
    && control.entries <= overlay.entries
    && (overlay.stopExits == 0 ==>
          && overlay.legs == control.legs && overlay.long == control.long
          && overlay.entries == control.entries
          && overlay.ordinaryExits + overlay.dualExits == control.ordinaryExits
          && overlay.peak == control.peak && overlay.drawdown == control.drawdown
          && control.missingSignals <= overlay.missingSignals + overlay.missingStops)
  }

  /** The same cell without its stop. */
  function Control(c: StopCell): StopCell {
    c.(threshold := None)
  }

  lemma ContainedStep(c: StopCell, d: StopCell, overlay: Sim, control: Sim, i: nat, after: Sim, controlAfter: Sim)
    requires c.Valid() && d == Control(c) && c.start <= i < c.cell.end && Contained(overlay, control)
    requires Step(c, overlay, i) == Ok(after) && Step(d, control, i) == Ok(controlAfter)
    ensures Contained(after, controlAfter)
  {
  }

  /** Whenever the stopped run is long so is the control, and the runs coincide up to the first pure stop fill. */
  lemma {:induction false} StopContainedInControl(c: StopCell, d: StopCell, i: nat, s: Sim, t: Sim)
    requires c.Valid() && d == Control(c) && c.start <= i <= c.cell.end
    requires Run(c, i) == Ok(s) && Run(d, i) == Ok(t)
    ensures Contained(s, t)
  {
    if i == c.start {
      return;
    }
    var before := Earlier(c, i, s);
    var controlBefore := Earlier(d, i, t);
    StopContainedInControl(c, d, i - 1, before, controlBefore);
    OneStep(c, i - 1, before);
    OneStep(d, i - 1, controlBefore);
    ContainedStep(c, d, before, controlBefore, i - 1, s, t);
  }

  /** What a run without a stop amounts to in the plain crossover. */
  function AsCore(s: Sim): Core {
    Core(s.legs, s.long, s.missingSignals, s.entries, s.ordinaryExits)
  }

  predicate NeverStopped(s: Sim) {
    s.missingStops == s.stopExits == s.dualExits == 0
  }

  lemma ControlStep(c: StopCell, s: Sim, i: nat, after: Sim)
    requires c.Valid() && c.threshold.None? && c.start <= i < c.cell.end && NeverStopped(s)
    requires Step(c, s, i) == Ok(after)
    ensures EagerTurn(c.cell, AsCore(s), i) == Ok(AsCore(after)) && NeverStopped(after)
  {
  }

  /** The control is the plain crossover. */
  lemma {:induction false} ControlIsEager(c: StopCell, i: nat, s: Sim)
    requires c.Valid() && c.threshold.None? && c.start <= i <= c.cell.end && Run(c, i) == Ok(s)
    ensures EagerRun(c.cell, c.start, i) == Ok(AsCore(s)) && NeverStopped(s)
  {
    if i == c.start {
      return;
    }
    var before := Earlier(c, i, s);
    ControlIsEager(c, i - 1, before);
    OneStep(c, i - 1, before);
    ControlStep(c, before, i - 1, s);
    EagerOneTurn(c.cell, c.start, i - 1, AsCore(before));
  }
}
