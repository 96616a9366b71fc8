/**
 The downside-volatility variant of the scaled cell: only fresh decisions take
 effect, and a changed scale waits as a pending rebalance for the next open.
 It trades the same accounts as the monthly variant.
 */
module DownsideVolScaling {
  import opened Basics
  import opened Costs
  import opened CycleAccount
  import opened Crossover

  datatype SimError = EmptyCell | MissingStartScale | MissingFillBar | DivisionByZero | Refused(reason: AccountError)

  datatype Policy = Policy(baseQuantity: real, initial: real, costs: LegCosts)

  datatype Decision = Decision(scale: real, renewed: bool)

  /** One scored cell; decisions of None is the control condition. */
  datatype Cell = Cell(
    bars: Bars,
    start: nat,
    end: nat,
    policy: Policy,
    decisions: Option<map<int, Decision>>,
    monthStart: int -> int)
  {
    predicate Valid() {
      bars.Valid() && start <= |bars.times| && end <= |bars.times|
    }

    function Target(scale: real): real {
      policy.baseQuantity * scale
    }

    predicate FreshAt(i: nat)
      requires Valid() && i < end
    {
      decisions.Some? && bars.times[i] in decisions.value && decisions.value[bars.times[i]].renewed
    }

    ghost predicate ScalesWithinOne() {
      decisions.Some? ==> forall t :: t in decisions.value ==> 0.0 <= decisions.value[t].scale <= 1.0
    }
  }

  datatype Tally = Tally(
    long: bool,
    scale: real,
    pending: Option<real>,
    peak: real,
    drawdown: real,
    signals: nat,
    entries: nat,
    exits: nat,
    missing: nat,
    rebalances: nat,
    scaledEntries: nat,
    hours: nat,
    exposure: real,
    turnoverDelta: real,
    scales: seq<real>)
  {
    function Heading(): Direction {
      Direction(long, signals, entries, exits, hours)
    }
  }

  datatype Sim = Sim(legs: Legs, tally: Tally)

  function Start(c: Cell): Result<Sim, SimError>
    requires c.Valid()
  {
    if c.start >= c.end then Err(EmptyCell)
    else
      var month := c.monthStart(c.bars.times[c.start]);
      if c.decisions.Some? && month !in c.decisions.value then Err(MissingStartScale)
      else
        var scale := if c.decisions.Some? then c.decisions.value[month].scale else 1.0;
        var book := NewBook(c.policy.initial);
        Ok(Sim(Legs(book, book), Tally(false, scale, None, c.policy.initial, 0.0, 0, 0, 0, 0, 0, 0, 0, 0.0, 0.0, [])))
  }

  function Marked(c: Cell, s: Sim, i: nat): Result<Tally, SimError>
    requires c.Valid() && i < c.end
  {
    var t := s.tally;
    var close := c.bars.closes[i];
    var equity := s.legs.base.Equity(close, c.policy.costs.base);
    var peak := Max(t.peak, equity);
    if peak == 0.0 then Err(DivisionByZero)
    else
      var u := t.(peak := peak, drawdown := Max(t.drawdown, DrawdownFrom(peak, equity)));
      Ok(if t.long
         then u.(hours := t.hours + 1, scales := t.scales + [t.scale],
                 exposure := t.exposure + Notional(s.legs.base.quantity, close))
         else u)
  }

  function Magnitude(x: real): real {
    if x < 0.0 then -x else x
  }

  function Filled(c: Cell, l: Legs, t: Tally, price: real, scale: real, enter: bool, exit: bool): Result<Sim, SimError>
    requires enter || exit || t.pending.Some?
  {
    if exit then
      match SellBoth(l, price, l.base.quantity, l.stress.quantity, c.policy.costs, true)
      case Err(e) => Err(Refused(e))
      case Ok(after) => Ok(Sim(after, t.(long := false, exits := t.exits + 1, pending := None)))
    else if enter then
      match BuyBoth(l, price, c.Target(scale), c.policy.costs, true)
      case Err(e) => Err(Refused(e))
      case Ok(after) =>
        Ok(Sim(after, t.(long := true, entries := t.entries + 1, pending := None,
                         scaledEntries := t.scaledEntries + Count(scale < 1.0))))
    else
      var target := c.Target(t.pending.value);
      match Rebalance(l, price, target, c.policy.costs)
      case Err(e) => Err(Refused(e))
      case Ok(after) =>
        var moved := Magnitude(target - l.base.quantity);
        Ok(Sim(after, if target == l.base.quantity then t.(pending := None)
                      else t.(rebalances := t.rebalances + 1, pending := None,
                              turnoverDelta := t.turnoverDelta + Notional(moved, price))))
  }

  function Decided(c: Cell, l: Legs, t: Tally, i: nat): Result<Sim, SimError>
    requires c.Valid() && i < c.end
  {
    if i == 0 then Ok(Sim(l, t))
    else
      var cross := CrossAt(c.bars, i);
      var enter := !t.long && cross == Up;
      var exit := t.long && cross == Down;
      var scale := if c.FreshAt(i) then c.decisions.value[c.bars.times[i]].scale else t.scale;
      var u := t.(signals := t.signals + Count(enter),
                  pending := if c.FreshAt(i) && t.long && scale != t.scale then Some(scale) else t.pending);
      if !(enter || exit || u.pending.Some?) then Ok(Sim(l, u.(scale := scale)))
      else if i + 1 >= c.end then Ok(Sim(l, u.(missing := u.missing + 1)))
      else if c.bars.times[i + 1] != c.bars.times[i] + HOUR then Err(MissingFillBar)
      else match Filled(c, l, u, c.bars.opens[i + 1], scale, enter, exit)
        case Err(e) => Err(e)
        case Ok(s) => Ok(s.(tally := s.tally.(scale := scale)))
  }

  function Step(c: Cell, s: Sim, i: nat): Result<Sim, SimError>
    requires c.Valid() && i < c.end
  {
    match Marked(c, s, i)
    case Err(e) => Err(e)
    case Ok(t) => Decided(c, s.legs, t, i)
  }

  /** The run when bar i is reached. */
  function Run(c: Cell, i: nat): Result<Sim, SimError>
    requires c.Valid() && i <= c.end
    decreases i, 0
  {
    if i <= c.start then Start(c) else Next(c, i - 1)
  }

  /** The run once bar i is done. */
  function Next(c: Cell, i: nat): Result<Sim, SimError>
    requires c.Valid() && i < c.end
    decreases i, 1
  {
    match Run(c, i)
    case Err(e) => Err(e)
    case Ok(s) => Step(c, s, i)
  }

  /** A bar that is reached was reached from the bar before. */
  lemma Earlier(c: Cell, i: nat, s: Sim) returns (before: Sim)
    requires c.Valid() && c.start < i <= c.end && Run(c, i) == Ok(s)
    ensures Run(c, i - 1) == Ok(before)
  {
    assert Next(c, i - 1) == Ok(s);
    before := Run(c, i - 1).value;
  }

  /** The first bar is reached by the start alone. */
  lemma AtStart(c: Cell, s: Sim)
    requires c.Valid() && c.start <= c.end && Run(c, c.start) == Ok(s)
    ensures Start(c) == Ok(s)
  {
  }

  /** Neighbouring bars of a run are one step apart. */
  lemma OneStep(c: Cell, i: nat, s: Sim)
    requires c.Valid() && c.start <= i < c.end && Run(c, i) == Ok(s)
    ensures Run(c, i + 1) == Step(c, s, i)
  {
    assert Run(c, i + 1) == Next(c, i);
  }

  lemma {:induction false} FailureIsFinal(c: Cell, i: nat, j: nat)
    requires c.Valid() && c.start <= i <= j <= c.end && Run(c, i).Err?
    ensures Run(c, j) == Run(c, i)
  {
    if i < j {
      FailureIsFinal(c, i, j - 1);
    }
  }

  lemma {:induction false} NonEmpty(c: Cell, i: nat)
    requires c.Valid() && i <= c.end && Run(c, i).Ok?
    ensures c.start < c.end
  {
    if i > c.start {
      NonEmpty(c, i - 1);
    }
  }

  datatype Report = Report(sim: Sim, baseNet: real, stressNet: real, drawdown: real)

  function Closed(c: Cell, s: Sim): Result<Report, SimError>
    requires c.Valid() && c.start < c.end
  {
    var last := c.bars.closes[c.end - 1];
    var baseFinal := s.legs.base.Equity(last, c.policy.costs.base);
    var stressFinal := s.legs.stress.Equity(last, c.policy.costs.stress);
    if s.tally.peak == 0.0 then Err(DivisionByZero)
    else
      Ok(Report(s, baseFinal - c.policy.initial, stressFinal - c.policy.initial,
                Max(s.tally.drawdown, DrawdownFrom(s.tally.peak, baseFinal))))
  }

  function Outcome(c: Cell): Result<Report, SimError>
    requires c.Valid()
  {
    match Run(c, c.end)
    case Err(e) => Err(e)
    case Ok(s) => NonEmpty(c, c.end); Closed(c, s)
  }

  method MarkBar(c: Cell, base: Account, ghost stress: Book, tally: Tally, i: nat) returns (r: Result<Tally, SimError>)
    requires c.Valid() && i < c.end
    ensures r == Marked(c, Sim(Legs(base.View(), stress), tally), i)
  {
    var close := c.bars.closes[i];
    assert base.View().quantity == base.quantity;
    var equity := base.Equity(close, c.policy.costs.base);
    var t := tally.(peak := Max(tally.peak, equity));
    if t.peak == 0.0 {
      return Err(DivisionByZero);
    }
    t := t.(drawdown := Max(t.drawdown, DrawdownFrom(t.peak, equity)));
    if t.long {
      t := t.(hours := t.hours + 1, scales := t.scales + [t.scale],
              exposure := t.exposure + Notional(base.quantity, close));
    }
    return Ok(t);
  }

  method FillBar(c: Cell, base: Account, stress: Account, tally: Tally, price: real, scale: real, enter: bool,
      exit: bool)
    returns (r: Result<Tally, SimError>)
    requires base != stress && (enter || exit || tally.pending.Some?)
    modifies base, stress
    ensures match Filled(c, Legs(old(base.View()), old(stress.View())), tally, price, scale, enter, exit)
            case Ok(s) => r == Ok(s.tally) && s.legs == Legs(base.View(), stress.View())
            case Err(e) => r == Err(e)
  {
    var t := tally;
    var refusal: Option<AccountError>;
    ghost var l := Legs(base.View(), stress.View());
    assert l.base.quantity == base.quantity && l.stress.quantity == stress.quantity;
    if exit {
      refusal := SellLegs(base, stress, price, base.quantity, stress.quantity, c.policy.costs, true);
      t := t.(long := false, exits := t.exits + 1, pending := None);
    } else if enter {
      refusal := BuyLegs(base, stress, price, c.Target(scale), c.policy.costs, true);
      t := t.(long := true, entries := t.entries + 1, pending := None,
              scaledEntries := t.scaledEntries + Count(scale < 1.0));
    } else {
      var target := c.Target(t.pending.value);
      var delta := target - base.quantity;
      refusal := RebalanceLegs(base, stress, price, target, c.policy.costs);
      if delta != 0.0 {
        t := t.(rebalances := t.rebalances + 1, turnoverDelta := t.turnoverDelta + Notional(Magnitude(delta), price));
      }
      t := t.(pending := None);
    }
    if refusal.Some? {
      return Err(Refused(refusal.value));
    }
    return Ok(t);
  }

  method DecideBar(c: Cell, base: Account, stress: Account, tally: Tally, i: nat) returns (r: Result<Tally, SimError>)
    requires c.Valid() && i < c.end && base != stress
    modifies base, stress
    ensures match Decided(c, Legs(old(base.View()), old(stress.View())), tally, i)
            case Ok(s) => r == Ok(s.tally) && s.legs == Legs(base.View(), stress.View())
            case Err(e) => r == Err(e)
  {
    if i == 0 {
      return Ok(tally);
    }
    var t := tally;
    var cross := CrossAt(c.bars, i);
    var enter := !t.long && cross == Up;
    var exit := t.long && cross == Down;
    t := t.(signals := t.signals + Count(enter));
    var renewed := c.FreshAt(i);
    var scale := if renewed then c.decisions.value[c.bars.times[i]].scale else t.scale;
    if renewed && t.long && scale != t.scale {
      t := t.(pending := Some(scale));
    }
    if !(enter || exit || t.pending.Some?) {
      return Ok(t.(scale := scale));
    }
    if i + 1 >= c.end {
      return Ok(t.(missing := t.missing + 1));
    }
    if c.bars.times[i + 1] != c.bars.times[i] + HOUR {
      return Err(MissingFillBar);
    }
    r := FillBar(c, base, stress, t, c.bars.opens[i + 1], scale, enter, exit);
    if r.Ok? {
      r := Ok(r.value.(scale := scale));
    }
  }

  method AdvanceBar(c: Cell, base: Account, stress: Account, tally: Tally, i: nat) returns (r: Result<Tally, SimError>)
    requires c.Valid() && i < c.end && base != stress
    modifies base, stress
    ensures match Step(c, Sim(Legs(old(base.View()), old(stress.View())), tally), i)
            case Ok(s) => r == Ok(s.tally) && s.legs == Legs(base.View(), stress.View())
            case Err(e) => r == Err(e)
  {
    r := MarkBar(c, base, stress.View(), tally, i);
    if r.Ok? {
      r := DecideBar(c, base, stress, r.value, i);
    }
  }

  method CloseCell(c: Cell, base: Account, stress: Account, tally: Tally) returns (r: Result<Report, SimError>)
    requires c.Valid() && c.start < c.end
    ensures r == Closed(c, Sim(Legs(base.View(), stress.View()), tally))
  {
    var last := c.bars.closes[c.end - 1];
    var baseFinal := base.Equity(last, c.policy.costs.base);
    var stressFinal := stress.Equity(last, c.policy.costs.stress);
    if tally.peak == 0.0 {
      return Err(DivisionByZero);
    }
    return Ok(Report(Sim(Legs(base.View(), stress.View()), tally),
                     baseFinal - c.policy.initial, stressFinal - c.policy.initial,
                     Max(tally.drawdown, DrawdownFrom(tally.peak, baseFinal))));
  }

  /** One more bar of the run. */
  method RunBar(c: Cell, base: Account, stress: Account, tally: Tally, i: nat) returns (r: Result<Tally, SimError>)
    requires c.Valid() && c.start <= i < c.end && base != stress
    requires Run(c, i) == Ok(Sim(Legs(base.View(), stress.View()), tally))
    modifies base, stress
    ensures match Run(c, i + 1)
            case Ok(s) => r == Ok(s.tally) && s.legs == Legs(base.View(), stress.View())
            case Err(e) => r == Err(e)
  {
    OneStep(c, i, Sim(Legs(base.View(), stress.View()), tally));
    r := AdvanceBar(c, base, stress, tally, i);
  }

  /** The report of a finished run. */
  method CloseRun(c: Cell, base: Account, stress: Account, tally: Tally) returns (r: Result<Report, SimError>)
    requires c.Valid() && c.start < c.end && Run(c, c.end) == Ok(Sim(Legs(base.View(), stress.View()), tally))
    ensures r == Outcome(c)
  {
    r := CloseCell(c, base, stress, tally);
  }

  /** The opening tally: flat, at the first month's scale. */
  method OpenCell(c: Cell) returns (r: Result<Tally, SimError>)
    requires c.Valid()
    ensures match Start(c)
            case Ok(s) => r == Ok(s.tally) && s.legs == Legs(NewBook(c.policy.initial), NewBook(c.policy.initial))
            case Err(e) => r == Err(e)
  {
    if c.start >= c.end {
      return Err(EmptyCell);
    }
    var month := c.monthStart(c.bars.times[c.start]);
    if c.decisions.Some? && month !in c.decisions.value {
      return Err(MissingStartScale);
    }
    var scale := if c.decisions.Some? then c.decisions.value[month].scale else 1.0;
    return Ok(Tally(false, scale, None, c.policy.initial, 0.0, 0, 0, 0, 0, 0, 0, 0, 0.0, 0.0, []));
  }

  lemma UnopenedFails(c: Cell)
    requires c.Valid() && Start(c).Err?
    ensures Outcome(c) == Err(Start(c).error)
  {
    if c.start < c.end {
      FailureIsFinal(c, c.start, c.end);
    }
  }

  /** The simulator: one pass over the bars, two accounts changed in place. */
  method SimulateBars(c: Cell) returns (r: Result<Report, SimError>)
    requires c.Valid()
    ensures r == Outcome(c)
  {
    var tallied := OpenCell(c);
    if tallied.Err? {
      UnopenedFails(c);
      return Err(tallied.error);
    }
    var base := new Account(c.policy.initial);
    var stress := new Account(c.policy.initial);
    var tally := tallied.value;
    for i := c.start to c.end
      invariant base != stress
      invariant Run(c, i) == Ok(Sim(Legs(base.View(), stress.View()), tally))
    {
      var advanced := RunBar(c, base, stress, tally, i);
      if advanced.Err? {
        FailureIsFinal(c, i + 1, c.end);
        return Err(advanced.error);
      }
      tally := advanced.value;
    }
    r := CloseRun(c, base, stress, tally);
  }

  method SimulateCell(bars: Bars, startMs: int, endMs: int, policy: Policy, decisions: Option<map<int, Decision>>,
      monthStart: int -> int)
    returns (r: Result<Report, SimError>)
    requires bars.Valid()
    ensures r == Outcome(Cell(bars, BisectLeft(bars.times, startMs), BisectLeft(bars.times, endMs),
                              policy, decisions, monthStart))
  {
    var start, end := BisectLeft(bars.times, startMs), BisectLeft(bars.times, endMs);
    r := SimulateBars(Cell(bars, start, end, policy, decisions, monthStart));
  }
}
