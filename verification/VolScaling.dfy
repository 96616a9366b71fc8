/**
 The volatility-scaled crossover cell: monthly scales change the traded quantity,
 a base and a stress account trade in lockstep, and the control run is the same
 loop without a schedule.
 */
module VolScaling {
  import opened Basics
  import opened Costs
  import opened CycleAccount
  import opened Crossover

  datatype SimError =
    | EmptyCell
    | MissingStartScale
    | MissingMonthlyScale
    | MissingFillBar
    | DivisionByZero
    | Refused(reason: AccountError)

  datatype Policy = Policy(baseQuantity: real, initial: real, costs: LegCosts)

  /** One research cell; a schedule of None is the unscaled control. */
  datatype Cell = Cell(
    bars: Bars,
    start: nat,
    end: nat,
    policy: Policy,
    schedule: Option<map<int, real>>,
    monthStart: int -> int)
  {
    predicate Valid() {
      bars.Valid() && start <= |bars.times| && end <= |bars.times|
    }

    function Target(scale: real): real {
      policy.baseQuantity * scale
    }

    predicate AtBoundary(i: nat)
      requires Valid() && i < end
    {
      schedule.Some? && bars.times[i] == monthStart(bars.times[i])
    }

    function BoundaryScale(i: nat): Option<real>
      requires Valid() && i < end
      requires AtBoundary(i) ==> bars.times[i] in schedule.value
    {
      if AtBoundary(i) then Some(schedule.value[bars.times[i]]) else None
    }

    /** No leverage and no shorting: every registered scale lies between nought and one. */
    ghost predicate ScalesWithinOne() {
      schedule.Some? ==> forall t :: t in schedule.value ==> 0.0 <= schedule.value[t] <= 1.0
    }
  }

  /** Everything the loop carries besides the two accounts. */
  datatype Tally = Tally(
    long: bool,
    scale: real,
    peak: real,
    drawdown: real,
    signals: nat,
    entries: nat,
    exits: nat,
    missing: nat,
    rebalances: nat,
    scaledEntries: nat,
    belowOne: nat,
    hours: nat,
    exposure: real,
    scales: seq<real>)
  {
    function Heading(): Direction {
      Direction(long, signals, entries, exits, hours)
    }

    function Adopt(boundary: Option<real>): Tally {
      if boundary.None? then this
      else this.(scale := boundary.value, belowOne := belowOne + Count(boundary.value < 1.0))
    }
  }

  datatype Sim = Sim(legs: Legs, tally: Tally)

  function Start(c: Cell): Result<Sim, SimError>
    requires c.Valid()
  {
    if c.start >= c.end then Err(EmptyCell)
    else
      var month := c.monthStart(c.bars.times[c.start]);
      if c.schedule.Some? && month !in c.schedule.value then Err(MissingStartScale)
      else
        var scale := if c.schedule.Some? then c.schedule.value[month] else 1.0;
        var book := NewBook(c.policy.initial);
        Ok(Sim(Legs(book, book), Tally(false, scale, c.policy.initial, 0.0, 0, 0, 0, 0, 0, 0, 0, 0, 0.0, [])))
  }

  /** Mark the base account at the close: running peak, drawdown, and exposure while long. */
  function Marked(c: Cell, s: Sim, i: nat): Result<Tally, SimError>
    requires c.Valid() && i < c.end
  {
    var t := s.tally;
    var close := c.bars.closes[i];
    var equity := s.legs.base.Equity(close, c.policy.costs.base);
    var peak := if equity > t.peak then equity else t.peak;
    if peak == 0.0 then Err(DivisionByZero)
    else
      var dd := DrawdownFrom(peak, equity);
      var u := t.(peak := peak, drawdown := if dd > t.drawdown then dd else t.drawdown);
      Ok(if t.long
         then u.(hours := t.hours + 1, scales := t.scales + [t.scale],
                 exposure := t.exposure + Notional(s.legs.base.quantity, close))
         else u)
  }

  /** Execute at the next open whatever the bar asked for. */
  function Filled(c: Cell, l: Legs, t: Tally, reference: real, boundary: Option<real>, enter: bool, exit: bool)
    : Result<Sim, SimError>
    requires enter || exit || boundary.Some?
  {
    var next := if boundary.Some? then boundary.value else t.scale;
    if exit then
      match SellBoth(l, reference, l.base.quantity, l.stress.quantity, c.policy.costs, true)
      case Err(e) => Err(Refused(e))
      case Ok(after) => Ok(Sim(after, t.(long := false, exits := t.exits + 1).Adopt(boundary)))
    else if enter then
      match BuyBoth(l, reference, c.Target(next), c.policy.costs, true)
      case Err(e) => Err(Refused(e))
      case Ok(after) =>
        var u := t.(long := true, entries := t.entries + 1, scaledEntries := t.scaledEntries + Count(next < 1.0));
        Ok(Sim(after, u.Adopt(boundary)))
    else
      var target := c.Target(boundary.value);
      match Rebalance(l, reference, target, c.policy.costs)
      case Err(e) => Err(Refused(e))
      case Ok(after) =>
        Ok(Sim(after, t.(rebalances := t.rebalances + Count(target != l.base.quantity)).Adopt(boundary)))
  }

  /** The decision taken at the close of bar i. */
  function Decided(c: Cell, l: Legs, t: Tally, i: nat): Result<Sim, SimError>
    requires c.Valid() && i < c.end
  {
    var cross := CrossAt(c.bars, i);
    if cross == Undefined then Ok(Sim(l, t))
    else
      var enter := !t.long && cross == Up;
      var exit := t.long && cross == Down;
      var u := t.(signals := t.signals + Count(enter));
      if c.AtBoundary(i) && c.bars.times[i] !in c.schedule.value then Err(MissingMonthlyScale)
      else
        var boundary := c.BoundaryScale(i);
        if !(enter || exit || (t.long && boundary.Some?)) then Ok(Sim(l, u.Adopt(boundary)))
        else if i + 1 >= c.end then Ok(Sim(l, u.(missing := u.missing + 1)))
        else if c.bars.times[i + 1] != c.bars.times[i] + HOUR then Err(MissingFillBar)
        else Filled(c, l, u, c.bars.opens[i + 1], boundary, enter, exit)
  }

  function Step(c: Cell, s: Sim, i: nat): Result<Sim, SimError>
    requires c.Valid() && i < c.end
  {
    match Marked(c, s, i)
    case Err(e) => Err(e)
    case Ok(t) => Decided(c, s.legs, t, i)
  }

  /** The run when bar i is reached. */
  function Run(c: Cell, i: nat): Result<Sim, SimError>
    requires c.Valid() && i <= c.end
    decreases i, 0
  {
    if i <= c.start then Start(c) else Next(c, i - 1)
  }

  /** The run once bar i is done. */
  function Next(c: Cell, i: nat): Result<Sim, SimError>
    requires c.Valid() && i < c.end
    decreases i, 1
  {
    match Run(c, i)
    case Err(e) => Err(e)
    case Ok(s) => Step(c, s, i)
  }

  /** A bar that is reached was reached from the bar before. */
  lemma Earlier(c: Cell, i: nat, s: Sim) returns (before: Sim)
    requires c.Valid() && c.start < i <= c.end && Run(c, i) == Ok(s)
    ensures Run(c, i - 1) == Ok(before)
  {
    assert Next(c, i - 1) == Ok(s);
    before := Run(c, i - 1).value;
  }

  /** The first bar is reached by the start alone. */
  lemma AtStart(c: Cell, s: Sim)
    requires c.Valid() && c.start <= c.end && Run(c, c.start) == Ok(s)
    ensures Start(c) == Ok(s)
  {
  }

  /** Neighbouring bars of a run are one step apart. */
  lemma OneStep(c: Cell, i: nat, s: Sim)
    requires c.Valid() && c.start <= i < c.end && Run(c, i) == Ok(s)
    ensures Run(c, i + 1) == Step(c, s, i)
  {
    assert Run(c, i + 1) == Next(c, i);
  }

  lemma {:induction false} FailureIsFinal(c: Cell, i: nat, j: nat)
    requires c.Valid() && c.start <= i <= j <= c.end && Run(c, i).Err?
    ensures Run(c, j) == Run(c, i)
  {
    if i < j {
      FailureIsFinal(c, i, j - 1);
    }
  }

  lemma {:induction false} NonEmpty(c: Cell, i: nat)
    requires c.Valid() && i <= c.end && Run(c, i).Ok?
    ensures c.start < c.end
  {
    if i > c.start {
      NonEmpty(c, i - 1);
    }
  }

  datatype Report = Report(
    sim: Sim, baseNet: real, stressNet: real, realized: real, stressRealized: real, drawdown: real, completed: nat)

  function Closed(c: Cell, s: Sim): Result<Report, SimError>
    requires c.Valid() && c.start < c.end
  {
    var mark := c.bars.closes[c.end - 1];
    var baseFinal := s.legs.base.Equity(mark, c.policy.costs.base);
    var stressFinal := s.legs.stress.Equity(mark, c.policy.costs.stress);
    var peak := s.tally.peak;
    if peak == 0.0 then Err(DivisionByZero)
    else
      Ok(Report(s, baseFinal - c.policy.initial, stressFinal - c.policy.initial, Sum(s.legs.base.realized),
                Sum(s.legs.stress.realized), Max(s.tally.drawdown, DrawdownFrom(peak, baseFinal)),
                |s.legs.base.realized|))
  }

  function Outcome(c: Cell): Result<Report, SimError>
    requires c.Valid()
  {
    match Run(c, c.end)
    case Err(e) => Err(e)
    case Ok(s) => NonEmpty(c, c.end); Closed(c, s)
  }

  method MarkBar(c: Cell, base: Account, ghost stress: Book, tally: Tally, i: nat) returns (r: Result<Tally, SimError>)
    requires c.Valid() && i < c.end
    ensures r == Marked(c, Sim(Legs(base.View(), stress), tally), i)
  {
    var t := tally;
    var close := c.bars.closes[i];
    assert base.View().quantity == base.quantity;
    var equity := base.Equity(close, c.policy.costs.base);
    if equity > t.peak {
      t := t.(peak := equity);
    }
    if t.peak == 0.0 {
      return Err(DivisionByZero);
    }
    var dd := DrawdownFrom(t.peak, equity);
    if dd > t.drawdown {
      t := t.(drawdown := dd);
    }
    if t.long {
      t := t.(hours := t.hours + 1, scales := t.scales + [t.scale],
              exposure := t.exposure + Notional(base.quantity, close));
    }
    return Ok(t);
  }

  method FillBar(c: Cell, base: Account, stress: Account, tally: Tally, reference: real, boundary: Option<real>,
      enter: bool, exit: bool)
    returns (r: Result<Tally, SimError>)
    requires base != stress && (enter || exit || boundary.Some?)
    modifies base, stress
    ensures match Filled(c, Legs(old(base.View()), old(stress.View())), tally, reference, boundary, enter, exit)
            case Ok(s) => r == Ok(s.tally) && s.legs == Legs(base.View(), stress.View())
            case Err(e) => r == Err(e)
  {
    var t := tally;
    var refusal: Option<AccountError>;
    ghost var l := Legs(base.View(), stress.View());
    assert l.base.quantity == base.quantity && l.stress.quantity == stress.quantity;
    if exit {
      refusal := SellLegs(base, stress, reference, base.quantity, stress.quantity, c.policy.costs, true);
      t := t.(long := false, exits := t.exits + 1);
    } else if enter {
      var next := if boundary.Some? then boundary.value else t.scale;
      refusal := BuyLegs(base, stress, reference, c.Target(next), c.policy.costs, true);
      t := t.(long := true, entries := t.entries + 1);
      if next < 1.0 {
        t := t.(scaledEntries := t.scaledEntries + 1);
      }
    } else {
      var target := c.Target(boundary.value);
      if target != base.quantity {
        t := t.(rebalances := t.rebalances + 1);
      }
      refusal := RebalanceLegs(base, stress, reference, target, c.policy.costs);
    }
    if refusal.Some? {
      return Err(Refused(refusal.value));
    }
    if boundary.Some? {
      t := t.(scale := boundary.value);
      if t.scale < 1.0 {
        t := t.(belowOne := t.belowOne + 1);
      }
    }
    return Ok(t);
  }

  method DecideBar(c: Cell, base: Account, stress: Account, tally: Tally, i: nat) returns (r: Result<Tally, SimError>)
    requires c.Valid() && i < c.end && base != stress
    modifies base, stress
    ensures match Decided(c, Legs(old(base.View()), old(stress.View())), tally, i)
            case Ok(s) => r == Ok(s.tally) && s.legs == Legs(base.View(), stress.View())
            case Err(e) => r == Err(e)
  {
    var t := tally;
    var cross := CrossAt(c.bars, i);
    if cross == Undefined {
      return Ok(t);
    }
    var enter := !t.long && cross == Up;
    var exit := t.long && cross == Down;
    if enter {
      t := t.(signals := t.signals + 1);
    }
    var boundary: Option<real> := None;
    if c.AtBoundary(i) {
      if c.bars.times[i] !in c.schedule.value {
        return Err(MissingMonthlyScale);
      }
      boundary := Some(c.schedule.value[c.bars.times[i]]);
    }
    if !(enter || exit || (t.long && boundary.Some?)) {
      return Ok(t.Adopt(boundary));
    }
    if i + 1 >= c.end {
      return Ok(t.(missing := t.missing + 1));
    }
    if c.bars.times[i + 1] != c.bars.times[i] + HOUR {
      return Err(MissingFillBar);
    }
    r := FillBar(c, base, stress, t, c.bars.opens[i + 1], boundary, enter, exit);
  }

  method CloseCell(c: Cell, base: Account, stress: Account, tally: Tally) returns (r: Result<Report, SimError>)
    requires c.Valid() && c.start < c.end
    ensures r == Closed(c, Sim(Legs(base.View(), stress.View()), tally))
  {
    var mark := c.bars.closes[c.end - 1];
    var baseFinal := base.Equity(mark, c.policy.costs.base);
    var stressFinal := stress.Equity(mark, c.policy.costs.stress);
    if tally.peak == 0.0 {
      return Err(DivisionByZero);
    }
    return Ok(Report(Sim(Legs(base.View(), stress.View()), tally),
                     baseFinal - c.policy.initial, stressFinal - c.policy.initial,
                     Sum(base.View().realized), Sum(stress.View().realized),
                     Max(tally.drawdown, DrawdownFrom(tally.peak, baseFinal)), |base.View().realized|));
  }

  method AdvanceBar(c: Cell, base: Account, stress: Account, tally: Tally, i: nat) returns (r: Result<Tally, SimError>)
    requires c.Valid() && i < c.end && base != stress
    modifies base, stress
    ensures match Step(c, Sim(Legs(old(base.View()), old(stress.View())), tally), i)
            case Ok(s) => r == Ok(s.tally) && s.legs == Legs(base.View(), stress.View())
            case Err(e) => r == Err(e)
  {
    r := MarkBar(c, base, stress.View(), tally, i);
    if r.Ok? {
      r := DecideBar(c, base, stress, r.value, i);
    }
  }

  /** One more bar of the run. */
  method RunBar(c: Cell, base: Account, stress: Account, tally: Tally, i: nat) returns (r: Result<Tally, SimError>)
    requires c.Valid() && c.start <= i < c.end && base != stress
    requires Run(c, i) == Ok(Sim(Legs(base.View(), stress.View()), tally))
    modifies base, stress
    ensures match Run(c, i + 1)
            case Ok(s) => r == Ok(s.tally) && s.legs == Legs(base.View(), stress.View())
            case Err(e) => r == Err(e)
  {
    OneStep(c, i, Sim(Legs(base.View(), stress.View()), tally));
    r := AdvanceBar(c, base, stress, tally, i);
  }

  /** The report of a finished run. */
  method CloseRun(c: Cell, base: Account, stress: Account, tally: Tally) returns (r: Result<Report, SimError>)
    requires c.Valid() && c.start < c.end && Run(c, c.end) == Ok(Sim(Legs(base.View(), stress.View()), tally))
    ensures r == Outcome(c)
  {
    r := CloseCell(c, base, stress, tally);
  }

  /** The opening tally: flat, at the first month's scale. */
  method OpenCell(c: Cell) returns (r: Result<Tally, SimError>)
    requires c.Valid()
    ensures match Start(c)
            case Ok(s) => r == Ok(s.tally) && s.legs == Legs(NewBook(c.policy.initial), NewBook(c.policy.initial))
            case Err(e) => r == Err(e)
  {
    if c.start >= c.end {
      return Err(EmptyCell);
    }
    var month := c.monthStart(c.bars.times[c.start]);
    if c.schedule.Some? && month !in c.schedule.value {
      return Err(MissingStartScale);
    }
    var scale := if c.schedule.Some? then c.schedule.value[month] else 1.0;
    return Ok(Tally(false, scale, c.policy.initial, 0.0, 0, 0, 0, 0, 0, 0, 0, 0, 0.0, []));
  }

  lemma UnopenedFails(c: Cell)
    requires c.Valid() && Start(c).Err?
    ensures Outcome(c) == Err(Start(c).error)
  {
    if c.start < c.end {
      FailureIsFinal(c, c.start, c.end);
    }
  }

  /** The simulator: one pass over the bars, two accounts changed in place. */
  method SimulateBars(c: Cell) returns (r: Result<Report, SimError>)
    requires c.Valid()
    ensures r == Outcome(c)
  {
    var tallied := OpenCell(c);
    if tallied.Err? {
      UnopenedFails(c);
      return Err(tallied.error);
    }
    var base := new Account(c.policy.initial);
    var stress := new Account(c.policy.initial);
    var tally := tallied.value;
    for i := c.start to c.end
      invariant base != stress
      invariant Run(c, i) == Ok(Sim(Legs(base.View(), stress.View()), tally))
    {
      var advanced := RunBar(c, base, stress, tally, i);
      if advanced.Err? {
        FailureIsFinal(c, i + 1, c.end);
        return Err(advanced.error);
      }
      tally := advanced.value;
    }
    r := CloseRun(c, base, stress, tally);
  }

  method SimulateCell(bars: Bars, startMs: int, endMs: int, policy: Policy, schedule: Option<map<int, real>>,
      monthStart: int -> int)
    returns (r: Result<Report, SimError>)
    requires bars.Valid()
    ensures r == Outcome(Cell(bars, BisectLeft(bars.times, startMs), BisectLeft(bars.times, endMs),
                              policy, schedule, monthStart))
  {
    var start, end := BisectLeft(bars.times, startMs), BisectLeft(bars.times, endMs);
    r := SimulateBars(Cell(bars, start, end, policy, schedule, monthStart));
  }
}
