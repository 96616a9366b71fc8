/**
 The search cell: the same crossover on plain cash variables, marked without
 liquidation costs. It is compared with the exact account recomputation.
 */
module TrendSearch {
  import opened Basics
  import opened Costs
  import opened Crossover
  import opened UnitAccount
  import opened EagerFills

  datatype SearchError = NoCandles | QuantityExceedsEquity

  /** Cash of one account, the debit of its latest entry, and its realized total. */
  datatype Leg = Leg(cash: real, entryDebit: real, realized: real)

  datatype Outcomes = Outcomes(
    completed: nat,
    wins: nat,
    losses: nat,
    breakeven: nat,
    grossProfit: real,
    grossLoss: real,
    largest: real,
    cost: real)
  {
    function Close(pnl: real, charge: real): Outcomes {
      var o := this.(completed := completed + 1, cost := cost + charge);
      if pnl > 0.0 then o.(wins := wins + 1, grossProfit := grossProfit + pnl, largest := Max(largest, pnl))
      else if pnl < 0.0 then o.(losses := losses + 1, grossLoss := grossLoss + -pnl)
      else o.(breakeven := breakeven + 1)
    }
  }

  datatype Sim = Sim(
    base: Leg,
    stress: Leg,
    long: bool,
    outcomes: Outcomes,
    missing: nat,
    entries: nat,
    exits: nat,
    peak: real,
    drawdown: real)

  datatype SearchCell = SearchCell(cell: UnitCell, start: nat)
  {
    predicate Valid() {
      cell.Valid() && start <= |cell.bars.times|
    }
  }

  function Start(c: SearchCell): Sim {
    var leg := Leg(c.cell.initial, 0.0, 0.0);
    Sim(leg, leg, false, Outcomes(0, 0, 0, 0, 0.0, 0.0, 0.0, 0.0), 0, 0, 0, c.cell.initial, 0.0)
  }

  function MarkedEquity(leg: Leg, long: bool, quantity: real, close: real): real {
    leg.cash + if long then Notional(quantity, close) else 0.0
  }

  function Marked(c: SearchCell, s: Sim, i: nat): Sim
    requires c.Valid() && i < c.cell.end
  {
    var equity := MarkedEquity(s.base, s.long, c.cell.costs.quantity, c.cell.bars.closes[i]);
    var peak := if equity > s.peak then equity else s.peak;
    s.(peak := peak, drawdown := if peak > 0.0 then Max(s.drawdown, DrawdownFrom(peak, equity)) else s.drawdown)
  }

  function Entry(s: Sim, reference: real, c: UnitCosts): Result<Sim, SearchError> {
    var debit := BuyDebit(reference, c.quantity, c.base);
    var stressDebit := BuyDebit(reference, c.quantity, c.stress);
    var e := BuyExecution(reference, c.quantity, c.base);
    if debit > s.base.cash || stressDebit > s.stress.cash then Err(QuantityExceedsEquity)
    else
      Ok(s.(base := s.base.(cash := s.base.cash - debit, entryDebit := debit),
            stress := s.stress.(cash := s.stress.cash - stressDebit, entryDebit := stressDebit),
            outcomes := s.outcomes.(cost := s.outcomes.cost + (e.slippage + e.fee)),
            long := true, entries := s.entries + 1))
  }

  function LegExit(leg: Leg, proceeds: real): Leg {
    leg.(cash := leg.cash + proceeds, realized := leg.realized + (proceeds - leg.entryDebit))
  }

  function Exit(s: Sim, reference: real, c: UnitCosts): Sim {
    var proceeds := SellProceeds(reference, c.quantity, c.base);
    var e := SellExecution(reference, c.quantity, c.base);
    s.(base := LegExit(s.base, proceeds), stress := LegExit(s.stress, SellProceeds(reference, c.quantity, c.stress)),
       outcomes := s.outcomes.Close(proceeds - s.base.entryDebit, e.slippage + e.fee),
       long := false, exits := s.exits + 1)
  }

  function Decided(c: SearchCell, s: Sim, i: nat): Result<Sim, SearchError>
    requires c.Valid() && i < c.cell.end
  {
    var bars := c.cell.bars;
    match Wanted(s.long, CrossAt(bars, i))
    case None => Ok(s)
    case Some(enter) =>
      if !Fillable(bars, c.cell.end, i) then Ok(s.(missing := s.missing + 1))
      else if enter then Entry(s, bars.opens[i + 1], c.cell.costs)
      else Ok(Exit(s, bars.opens[i + 1], c.cell.costs))
  }

  function Step(c: SearchCell, s: Sim, i: nat): Result<Sim, SearchError>
    requires c.Valid() && i < c.cell.end
  {
    Decided(c, Marked(c, s, i), i)
  }

  /** The run when bar i is reached. */
  function Run(c: SearchCell, i: nat): Result<Sim, SearchError>
    requires c.Valid() && i <= c.cell.end
    decreases i, 0
  {
    if i <= c.start then Ok(Start(c)) else Next(c, i - 1)
  }

  /** The run once bar i is done. */
  function Next(c: SearchCell, i: nat): Result<Sim, SearchError>
    requires c.Valid() && i < c.cell.end
    decreases i, 1
  {
    match Run(c, i)
    case Err(e) => Err(e)
    case Ok(s) => Step(c, s, i)
  }

  /** Neighbouring bars of a run are one step apart. */
  lemma OneStep(c: SearchCell, i: nat, s: Sim)
    requires c.Valid() && c.start <= i < c.cell.end && Run(c, i) == Ok(s)
    ensures Run(c, i + 1) == Step(c, s, i)
  {
    assert Run(c, i + 1) == Next(c, i);
  }

  /** A bar that is reached was reached from the bar before. */
  lemma Earlier(c: SearchCell, i: nat, s: Sim) returns (before: Sim)
    requires c.Valid() && c.start < i <= c.cell.end && Run(c, i) == Ok(s)
    ensures Run(c, i - 1) == Ok(before)
  {
    assert Next(c, i - 1) == Ok(s);
    before := Run(c, i - 1).value;
  }

  lemma {:induction false} FailureIsFinal(c: SearchCell, i: nat, j: nat)
    requires c.Valid() && c.start <= i <= j <= c.cell.end && Run(c, i).Err?
    ensures Run(c, j) == Run(c, i)
  {
    if i < j {
      FailureIsFinal(c, i, j - 1);
      assert Run(c, j) == Next(c, j - 1);
    }
  }

  datatype Report = Report(sim: Sim, baseNet: real, stressNet: real)

  function Closed(c: SearchCell, s: Sim): Report
    requires c.Valid() && 0 < c.cell.end
  {
    var close := c.cell.bars.closes[c.cell.end - 1];
    Report(s, MarkedEquity(s.base, s.long, c.cell.costs.quantity, close) - c.cell.initial,
           MarkedEquity(s.stress, s.long, c.cell.costs.quantity, close) - c.cell.initial)
  }

  function Outcome(c: SearchCell): Result<Report, SearchError>
    requires c.Valid()
  {
    if c.start >= c.cell.end then Err(NoCandles)
    else match Run(c, c.cell.end)
      case Err(e) => Err(e)
      case Ok(s) => Ok(Closed(c, s))
  }

  method MarkBar(c: SearchCell, s: Sim, i: nat) returns (t: Sim)
    requires c.Valid() && i < c.cell.end
    ensures t == Marked(c, s, i)
  {
    t := s;
    var equity := MarkedEquity(s.base, s.long, c.cell.costs.quantity, c.cell.bars.closes[i]);
    if equity > t.peak {
      t := t.(peak := equity);
    }
    if t.peak > 0.0 {
      t := t.(drawdown := Max(t.drawdown, DrawdownFrom(t.peak, equity)));
    }
  }

  method ExitBar(s: Sim, reference: real, c: UnitCosts) returns (t: Sim)
    ensures t == Exit(s, reference, c)
  {
    var e := SellExecution(reference, c.quantity, c.base);
    var proceeds := SellProceeds(reference, c.quantity, c.base);
    var stressProceeds := SellProceeds(reference, c.quantity, c.stress);
    var pnl := proceeds - s.base.entryDebit;
    var stressPnl := stressProceeds - s.stress.entryDebit;
    var o := s.outcomes.(completed := s.outcomes.completed + 1);
    if pnl > 0.0 {
      o := o.(wins := o.wins + 1, grossProfit := o.grossProfit + pnl, largest := Max(o.largest, pnl));
    } else if pnl < 0.0 {
      o := o.(losses := o.losses + 1, grossLoss := o.grossLoss + -pnl);
    } else {
      o := o.(breakeven := o.breakeven + 1);
    }
    o := o.(cost := o.cost + (e.slippage + e.fee));
    t := s.(base := Leg(s.base.cash + proceeds, s.base.entryDebit, s.base.realized + pnl),
            stress := Leg(s.stress.cash + stressProceeds, s.stress.entryDebit, s.stress.realized + stressPnl),
            outcomes := o, long := false, exits := s.exits + 1);
  }

  /** Mark the bar, read its crossing and fill it at the next open. */
  method StepBar(c: SearchCell, from: Sim, i: nat) returns (r: Result<Sim, SearchError>)
    requires c.Valid() && i < c.cell.end
    ensures r == Step(c, from, i)
  {
    var bars := c.cell.bars;
    var s := MarkBar(c, from, i);
    var cross := CrossAt(bars, i);
    var enter := !s.long && cross == Up;
    var exit := s.long && cross == Down;
    if !enter && !exit {
      return Ok(s);
    }
    if !Fillable(bars, c.cell.end, i) {
      return Ok(s.(missing := s.missing + 1));
    }
    if enter {
      return Entry(s, bars.opens[i + 1], c.cell.costs);
    }
    s := ExitBar(s, bars.opens[i + 1], c.cell.costs);
    return Ok(s);
  }

  method RunCell(bars: Bars, startMs: int, endMs: int, costs: UnitCosts, initial: real)
    returns (r: Result<Report, SearchError>)
    requires bars.Valid()
    ensures r == Outcome(SearchCell(UnitCell(bars, BisectLeft(bars.times, endMs), costs, initial),
                                    BisectLeft(bars.times, startMs)))
  {
    var start, end := BisectLeft(bars.times, startMs), BisectLeft(bars.times, endMs);
    var c := SearchCell(UnitCell(bars, end, costs, initial), start);
    if start >= end {
      return Err(NoCandles);
    }
    var s := Start(c);
    for i := start to end
      invariant Run(c, i) == Ok(s)
    {
      OneStep(c, i, s);
      var next := StepBar(c, s, i);
      if next.Err? {
        FailureIsFinal(c, i + 1, end);
        return Err(next.error);
      }
      s := next.value;
    }
    return Ok(Closed(c, s));
  }

  // ---------- The search cell agrees with the exact account ----------

  /** One plain leg and the exact book it stands for. */
  ghost predicate LegIsBook(leg: Leg, long: bool, b: UnitBook) {
    && leg.cash == b.cash
    && b.debit == (if long then Some(leg.entryDebit) else None)
    && leg.realized == Sum(b.realized)
  }

  ghost predicate SimIsCore(s: Sim, core: Core) {
    && LegIsBook(s.base, s.long, core.legs.base) && LegIsBook(s.stress, s.long, core.legs.stress)
    && s.long == core.long && s.missing == core.missing && s.entries == core.entries && s.exits == core.exits
    && s.outcomes.completed == |core.legs.base.realized|
    && s.outcomes.cost == core.legs.base.fee + core.legs.base.slippage
  }

  lemma ExitIsExact(s: Sim, core: Core, reference: real, c: UnitCosts)
    requires SimIsCore(s, core) && s.long
    ensures Booked(core, false, reference, c).Ok?
    ensures SimIsCore(Exit(s, reference, c), Booked(core, false, reference, c).value)
  {
    SumAppend(core.legs.base.realized, SellProceeds(reference, c.quantity, c.base) - s.base.entryDebit);
    SumAppend(core.legs.stress.realized, SellProceeds(reference, c.quantity, c.stress) - s.stress.entryDebit);
  }

  lemma EntryIsExact(s: Sim, core: Core, reference: real, c: UnitCosts)
    requires SimIsCore(s, core) && !s.long
    ensures Entry(s, reference, c).Err? <==> Booked(core, true, reference, c).Err?
    ensures Booked(core, true, reference, c).Err? ==> Booked(core, true, reference, c).error == InsufficientCash
    ensures Entry(s, reference, c).Ok? ==>
      SimIsCore(Entry(s, reference, c).value, Booked(core, true, reference, c).value)
  {
  }

  lemma DecisionIsExact(c: SearchCell, s: Sim, core: Core, i: nat)
    requires c.Valid() && i < c.cell.end && SimIsCore(s, core)
    ensures match Decided(c, s, i)
      case Err(e) => EagerTurn(c.cell, core, i) == Err(InsufficientCash)
      case Ok(after) => EagerTurn(c.cell, core, i).Ok? && SimIsCore(after, EagerTurn(c.cell, core, i).value)
  {
    var wanted := Wanted(s.long, CrossAt(c.cell.bars, i));
    if wanted.None? || !Fillable(c.cell.bars, c.cell.end, i) {
      return;
    }
    if s.long {
      ExitIsExact(s, core, c.cell.bars.opens[i + 1], c.cell.costs);
    } else {
      EntryIsExact(s, core, c.cell.bars.opens[i + 1], c.cell.costs);
    }
  }

  /** One bar of the search cell is one eager turn of the exact accounts. */
  lemma StepIsExact(c: SearchCell, s: Sim, core: Core, i: nat)
    requires c.Valid() && i < c.cell.end && SimIsCore(s, core)
    ensures match Step(c, s, i)
      case Err(e) => EagerTurn(c.cell, core, i) == Err(InsufficientCash)
      case Ok(after) => EagerTurn(c.cell, core, i).Ok? && SimIsCore(after, EagerTurn(c.cell, core, i).value)
  {
    assert SimIsCore(Marked(c, s, i), core);
    DecisionIsExact(c, Marked(c, s, i), core, i);
  }

  /** The search run and the exact recomputation stop together or hold the same cash, results, costs and position. */
  lemma {:induction false} SearchIsExact(c: SearchCell, i: nat)
    requires c.Valid() && c.start <= i <= c.cell.end
    ensures match Run(c, i)
      case Err(e) => EagerRun(c.cell, c.start, i) == Err(InsufficientCash)
      case Ok(s) => EagerRun(c.cell, c.start, i).Ok? && SimIsCore(s, EagerRun(c.cell, c.start, i).value)
  {
    if i == c.start {
      return;
    }
    SearchIsExact(c, i - 1);
    if Run(c, i - 1).Err? {
      FailureIsFinal(c, i - 1, i);
      EagerFailureIsFinal(c.cell, c.start, i - 1, i);
      return;
    }
    var s, core := Run(c, i - 1).value, EagerRun(c.cell, c.start, i - 1).value;
    OneStep(c, i - 1, s);
    EagerOneTurn(c.cell, c.start, i - 1, core);
    StepIsExact(c, s, core, i - 1);
  }

  // ---------- Ledgers and dominance ----------

  /** Every closed trade is a win, a loss or breakeven, and gross profit less gross loss is what was realized. */
  predicate Accounted(s: Sim) {
    var o := s.outcomes;
    && o.completed == s.exits == o.wins + o.losses + o.breakeven
    && o.grossProfit - o.grossLoss == s.base.realized
    && 0.0 <= o.grossProfit && 0.0 <= o.grossLoss
    && 0.0 <= o.largest <= o.grossProfit
  }

  lemma ExitAccounted(s: Sim, reference: real, c: UnitCosts)
    requires Accounted(s)
    ensures Accounted(Exit(s, reference, c))
  {
  }

  lemma AccountedStep(c: SearchCell, s: Sim, i: nat, after: Sim)
    requires c.Valid() && i < c.cell.end && Accounted(s) && Step(c, s, i) == Ok(after)
    ensures Accounted(after)
  {
    if i + 1 < c.cell.end {
      ExitAccounted(Marked(c, s, i), c.cell.bars.opens[i + 1], c.cell.costs);
    }
  }

  lemma {:induction false} SearchAccounted(c: SearchCell, i: nat, s: Sim)
    requires c.Valid() && c.start <= i <= c.cell.end && Run(c, i) == Ok(s)
    ensures Accounted(s)
    decreases i, 1
  {
    if i > c.start {
      var before := Earlier(c, i, s);
      NextAccounted(c, i - 1, before, s);
    }
  }

  lemma {:induction false} NextAccounted(c: SearchCell, i: nat, s: Sim, after: Sim)
    requires c.Valid() && c.start <= i < c.cell.end && Run(c, i) == Ok(s) && Run(c, i + 1) == Ok(after)
    ensures Accounted(after)
    decreases i + 1, 0
  {
    SearchAccounted(c, i, s);
    OneStep(c, i, s);
    AccountedStep(c, s, i, after);
  }

  lemma StressBehind(c: SearchCell, i: nat)
    requires c.Valid() && c.cell.bars.Priced() && LegalCosts(c.cell.costs)
    requires c.start <= i <= c.cell.end && Run(c, i).Ok?
    ensures Run(c, i).value.stress.cash <= Run(c, i).value.base.cash
    ensures Run(c, i).value.stress.realized <= Run(c, i).value.base.realized
  {
    SearchIsExact(c, i);
    EagerDominates(c.cell, c.start, i);
    var l := EagerRun(c.cell, c.start, i).value.legs;
    SumPointwise(l.stress.realized, l.base.realized);
  }

  /** Stress never beats base: in cash and realized result at every bar, and in net. */
  lemma StressNeverBetter(c: SearchCell)
    requires c.Valid() && c.cell.bars.Priced() && LegalCosts(c.cell.costs) && Outcome(c).Ok?
    ensures forall i :: c.start <= i <= c.cell.end ==>
      && Run(c, i).Ok? && Run(c, i).value.stress.cash <= Run(c, i).value.base.cash
      && Run(c, i).value.stress.realized <= Run(c, i).value.base.realized
    ensures Outcome(c).value.stressNet <= Outcome(c).value.baseNet
  {
    forall i | c.start <= i <= c.cell.end
      ensures Run(c, i).Ok? && Run(c, i).value.stress.cash <= Run(c, i).value.base.cash
      ensures Run(c, i).value.stress.realized <= Run(c, i).value.base.realized
    {
      if Run(c, i).Err? {
        FailureIsFinal(c, i, c.cell.end);
      }
      StressBehind(c, i);
    }
  }
}
