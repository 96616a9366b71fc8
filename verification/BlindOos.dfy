/** The blind out-of-sample replay of one symbol: eager fills, running drawdown and quarterly profit. */
module BlindOos {
  import opened Basics
  import opened Crossover
  import opened UnitAccount
  import opened EagerFills

  datatype SimError = EmptyAnalysis | DivisionByZero | Refused(reason: UnitError)

  /** Profit booked per calendar quarter, and the quarter in progress. */
  datatype Quarters = Quarters(opening: real, current: Option<nat>, last: real, pnl: map<nat, real>)
  {
    function Mark(q: nat, equity: real): Quarters {
      if current.None? then this.(current := Some(q), last := equity)
      else if q != current.value then Quarters(last, Some(q), equity, pnl[current.value := last - opening])
      else this.(last := equity)
    }

    function Settle(): map<nat, real> {
      if current.None? then pnl else pnl[current.value := last - opening]
    }
  }

  datatype Stats = Stats(peak: real, drawdown: real, quarters: Quarters)

  datatype Sim = Sim(core: Core, stats: Stats)

  /** A symbol's analysis window and the calendar's quarter of an instant. */
  datatype Window = Window(cell: UnitCell, start: nat, quarter: int -> nat)
  {
    predicate Valid() {
      cell.Valid() && start <= |cell.bars.times|
    }
  }

  function MarkedEquity(w: Window, s: Sim, i: nat): real
    requires w.Valid() && i < w.cell.end
  {
    s.core.legs.base.Equity(w.cell.bars.closes[i], w.cell.costs.quantity, w.cell.costs.base)
  }

  function Marked(w: Window, s: Sim, i: nat): Result<Stats, SimError>
    requires w.Valid() && i < w.cell.end
  {
    var c := w.cell;
    var equity := MarkedEquity(w, s, i);
    var quarters := s.stats.quarters.Mark(w.quarter(c.bars.times[i]), equity);
    var peak := if equity > s.stats.peak then equity else s.stats.peak;
    if peak == 0.0 then Err(DivisionByZero)
    else
      var dd := DrawdownFrom(peak, equity);
      Ok(Stats(peak, if dd > s.stats.drawdown then dd else s.stats.drawdown, quarters))
  }

  function Step(w: Window, s: Sim, i: nat): Result<Sim, SimError>
    requires w.Valid() && i < w.cell.end
  {
    match Marked(w, s, i)
    case Err(e) => Err(e)
    case Ok(stats) =>
      match EagerTurn(w.cell, s.core, i)
      case Err(e) => Err(Refused(e))
      case Ok(core) => Ok(Sim(core, stats))
  }

  function Start(w: Window): Result<Sim, SimError>
    requires w.Valid()
  {
    if w.start >= w.cell.end then Err(EmptyAnalysis)
    else Ok(Sim(NewCore(w.cell), Stats(w.cell.initial, 0.0, Quarters(w.cell.initial, None, w.cell.initial, map[]))))
  }

  function Run(w: Window, i: nat): Result<Sim, SimError>
    requires w.Valid() && i <= w.cell.end
    decreases i, 0
  {
    if i <= w.start then Start(w) else Next(w, i - 1)
  }

  /** The run once bar i is done. */
  function Next(w: Window, i: nat): Result<Sim, SimError>
    requires w.Valid() && i < w.cell.end
    decreases i, 1
  {
    match Run(w, i)
    case Err(e) => Err(e)
    case Ok(s) => Step(w, s, i)
  }

  /** A bar that is reached was reached from the bar before. */
  lemma Earlier(w: Window, i: nat, s: Sim) returns (before: Sim)
    requires w.Valid() && w.start < i <= w.cell.end && Run(w, i) == Ok(s)
    ensures Run(w, i - 1) == Ok(before)
  {
    assert Next(w, i - 1) == Ok(s);
    before := Run(w, i - 1).value;
  }

  /** Neighbouring bars of a run are one step apart. */
  lemma OneStep(w: Window, i: nat, s: Sim)
    requires w.Valid() && w.start <= i < w.cell.end && Run(w, i) == Ok(s)
    ensures Run(w, i + 1) == Step(w, s, i)
  {
    assert Run(w, i + 1) == Next(w, i);
  }

  lemma {:induction false} FailureIsFinal(w: Window, i: nat, j: nat)
    requires w.Valid() && w.start <= i <= j <= w.cell.end && Run(w, i).Err?
    ensures Run(w, j) == Run(w, i)
  {
    if i < j {
      FailureIsFinal(w, i, j - 1);
      assert Run(w, j) == Next(w, j - 1);
    }
  }

  datatype Report = Report(core: Core, baseNet: real, stressNet: real, drawdown: real, quarterPnl: map<nat, real>)

  function Closed(w: Window, s: Sim): Result<Report, SimError>
    requires w.Valid() && w.start < w.cell.end
  {
    var c := w.cell;
    var mark := c.bars.closes[c.end - 1];
    var baseFinal := s.core.legs.base.Equity(mark, c.costs.quantity, c.costs.base);
    var stressFinal := s.core.legs.stress.Equity(mark, c.costs.quantity, c.costs.stress);
    if s.stats.peak == 0.0 then Err(DivisionByZero)
    else
      Ok(Report(s.core, baseFinal - c.initial, stressFinal - c.initial,
                Max(s.stats.drawdown, DrawdownFrom(s.stats.peak, baseFinal)), s.stats.quarters.Settle()))
  }

  function Outcome(w: Window): Result<Report, SimError>
    requires w.Valid()
  {
    if w.start >= w.cell.end then Err(EmptyAnalysis)
    else match Run(w, w.cell.end)
      case Err(e) => Err(e)
      case Ok(s) => Closed(w, s)
  }

  method MarkBar(w: Window, base: Account, s: Sim, i: nat) returns (r: Result<Stats, SimError>)
    requires w.Valid() && i < w.cell.end && s.core.legs.base == base.View()
    ensures r == Marked(w, s, i)
  {
    var equity := base.Equity(w.cell.bars.closes[i], w.cell.costs.quantity, w.cell.costs.base);
    var stats := s.stats;
    var q := w.quarter(w.cell.bars.times[i]);
    if stats.quarters.current.None? {
      stats := stats.(quarters := stats.quarters.(current := Some(q)));
    } else if q != stats.quarters.current.value {
      var was := stats.quarters;
      var pnl := was.pnl[was.current.value := was.last - was.opening];
      stats := stats.(quarters := Quarters(was.last, Some(q), was.last, pnl));
    }
    stats := stats.(quarters := stats.quarters.(last := equity));
    if equity > stats.peak {
      stats := stats.(peak := equity);
    }
    if stats.peak == 0.0 {
      return Err(DivisionByZero);
    }
    var dd := DrawdownFrom(stats.peak, equity);
    if dd > stats.drawdown {
      stats := stats.(drawdown := dd);
    }
    return Ok(stats);
  }

  method AdvanceBar(w: Window, base: Account, stress: Account, s: Sim, i: nat) returns (r: Result<Sim, SimError>)
    requires w.Valid() && i < w.cell.end && base != stress && s.core.legs == UnitLegs(base.View(), stress.View())
    modifies base, stress
    ensures r == Step(w, s, i)
    ensures r.Ok? ==> r.value.core.legs == UnitLegs(base.View(), stress.View())
  {
    var marked := MarkBar(w, base, s, i);
    if marked.Err? {
      return Err(marked.error);
    }
    var decided := EagerDecide(w.cell, base, stress, s.core, i);
    if decided.Err? {
      return Err(Refused(decided.error));
    }
    return Ok(Sim(decided.value, marked.value));
  }

  method CloseReplay(w: Window, base: Account, stress: Account, s: Sim) returns (r: Result<Report, SimError>)
    requires w.Valid() && w.start < w.cell.end && s.core.legs == UnitLegs(base.View(), stress.View())
    ensures r == Closed(w, s)
  {
    var mark := w.cell.bars.closes[w.cell.end - 1];
    var baseFinal := base.Equity(mark, w.cell.costs.quantity, w.cell.costs.base);
    var stressFinal := stress.Equity(mark, w.cell.costs.quantity, w.cell.costs.stress);
    if s.stats.peak == 0.0 {
      return Err(DivisionByZero);
    }
    return Ok(Report(s.core, baseFinal - w.cell.initial, stressFinal - w.cell.initial,
                     Max(s.stats.drawdown, DrawdownFrom(s.stats.peak, baseFinal)), s.stats.quarters.Settle()));
  }

  method SimulateSymbol(bars: Bars, startMs: int, endMs: int, costs: UnitCosts, initial: real, quarter: int -> nat)
    returns (r: Result<Report, SimError>)
    requires bars.Valid()
    ensures r == Outcome(Window(UnitCell(bars, BisectLeft(bars.times, endMs), costs, initial),
                                BisectLeft(bars.times, startMs), quarter))
  {
    var start, end := BisectLeft(bars.times, startMs), BisectLeft(bars.times, endMs);
    var w := Window(UnitCell(bars, end, costs, initial), start, quarter);
    if start >= end {
      return Err(EmptyAnalysis);
    }
    var base := new Account(initial);
    var stress := new Account(initial);
    var s := Sim(NewCore(w.cell), Stats(initial, 0.0, Quarters(initial, None, initial, map[])));
    for i := start to end
      invariant base != stress && s.core.legs == UnitLegs(base.View(), stress.View())
      invariant Run(w, i) == Ok(s)
    {
      OneStep(w, i, s);
      var next := AdvanceBar(w, base, stress, s, i);
      if next.Err? {
        FailureIsFinal(w, i + 1, end);
        return Err(next.error);
      }
      s := next.value;
    }
    r := CloseReplay(w, base, stress, s);
  }

  /** The replay's accounts are the eager run's. */
  lemma {:induction false} RunIsEager(w: Window, i: nat)
    requires w.Valid() && w.start <= i <= w.cell.end && Run(w, i).Ok?
    ensures EagerRun(w.cell, w.start, i) == Ok(Run(w, i).value.core)
  {
    if i == w.start {
      return;
    }
    var before := Earlier(w, i, Run(w, i).value);
    RunIsEager(w, i - 1);
    OneStep(w, i - 1, before);
    EagerOneTurn(w.cell, w.start, i - 1, before.core);
  }

  // ---------- Quarterly profit ----------

  ghost predicate QuarterClock(quarter: int -> nat) {
    forall s, t {:trigger quarter(s), quarter(t)} :: s <= t ==> quarter(s) <= quarter(t)
  }

  function SumOver(pnl: map<nat, real>, keys: seq<nat>): real {
    if keys == [] then 0.0
    else
      var last := keys[|keys| - 1];
      SumOver(pnl, keys[..|keys| - 1]) + if last in pnl then pnl[last] else 0.0
  }

  /** The keys list every booked quarter once, in order. */
  ghost predicate Lists(keys: seq<nat>, pnl: map<nat, real>) {
    Enumerates(keys, pnl.Keys)
  }

  lemma {:induction false} SumOverUnchanged(pnl: map<nat, real>, keys: seq<nat>, q: nat, x: real)
    requires q !in keys
    ensures SumOver(pnl[q := x], keys) == SumOver(pnl, keys)
  {
    if keys != [] {
      SumOverUnchanged(pnl, keys[..|keys| - 1], q, x);
    }
  }

  lemma SumOverBooked(pnl: map<nat, real>, keys: seq<nat>, q: nat, x: real)
    requires q !in keys
    ensures SumOver(pnl[q := x], keys + [q]) == SumOver(pnl, keys) + x
  {
    assert (keys + [q])[..|keys|] == keys;
    SumOverUnchanged(pnl, keys, q, x);
  }

  lemma ListsBooked(pnl: map<nat, real>, keys: seq<nat>, q: nat, x: real)
    requires Lists(keys, pnl) && forall k :: 0 <= k < |keys| ==> keys[k] < q
    ensures Lists(keys + [q], pnl[q := x]) && q !in keys
  {
  }

  /** Quarters already closed sum to the opening equity of the current one less the capital. */
  ghost predicate ClosedQuarters(q: Quarters, keys: seq<nat>, current: nat, initial: real) {
    && q.current == Some(current) && Lists(keys, q.pnl)
    && (forall k :: 0 <= k < |keys| ==> keys[k] < current)
    && SumOver(q.pnl, keys) == q.opening - initial
  }

  lemma MarkSameQuarter(q: Quarters, keys: seq<nat>, current: nat, initial: real, equity: real)
    requires ClosedQuarters(q, keys, current, initial)
    ensures ClosedQuarters(q.Mark(current, equity), keys, current, initial)
  {
  }

  lemma BelowNext(keys: seq<nat>, current: nat, now: nat)
    requires current < now && forall k :: 0 <= k < |keys| ==> keys[k] < current
    ensures forall k :: 0 <= k < |keys + [current]| ==> (keys + [current])[k] < now
  {
  }

  /** A mark in a later quarter closes the current one into the books. */
  lemma MarkBooks(q: Quarters, current: nat, now: nat, equity: real)
    requires q.current == Some(current) && now != current
    ensures q.Mark(now, equity) == Quarters(q.last, Some(now), equity, q.pnl[current := q.last - q.opening])
  {
  }

  lemma BooksStayClosed(pnl: map<nat, real>, keys: seq<nat>, current: nat, initial: real, opening: real, last: real)
    requires Lists(keys, pnl) && (forall k :: 0 <= k < |keys| ==> keys[k] < current)
    requires SumOver(pnl, keys) == opening - initial
    ensures Lists(keys + [current], pnl[current := last - opening])
    ensures SumOver(pnl[current := last - opening], keys + [current]) == last - initial
  {
    ListsBooked(pnl, keys, current, last - opening);
    SumOverBooked(pnl, keys, current, last - opening);
  }

  /** One mark later the closed quarters are still accounted for. */
  lemma MarkKeepsQuarters(q: Quarters, keys: seq<nat>, current: nat, initial: real, now: nat, equity: real)
    returns (longer: seq<nat>)
    requires ClosedQuarters(q, keys, current, initial) && current <= now
    ensures ClosedQuarters(q.Mark(now, equity), longer, now, initial)
  {
    if now == current {
      MarkSameQuarter(q, keys, current, initial, equity);
      return keys;
    }
    longer := keys + [current];
    BooksStayClosed(q.pnl, keys, current, initial, q.opening, q.last);
    BelowNext(keys, current, now);
    MarkBooks(q, current, now, equity);
  }

  lemma {:induction false} QuartersTelescope(w: Window, i: nat, before: Sim, s: Sim) returns (keys: seq<nat>)
    requires w.Valid() && QuarterClock(w.quarter) && StrictlyIncreasing(w.cell.bars.times)
    requires w.start < i <= w.cell.end && Run(w, i - 1) == Ok(before) && Run(w, i) == Ok(s)
    ensures ClosedQuarters(s.stats.quarters, keys, w.quarter(w.cell.bars.times[i - 1]), w.cell.initial)
    ensures s.stats.quarters.last == MarkedEquity(w, before, i - 1)
  {
    OneStep(w, i - 1, before);
    if i == w.start + 1 {
      return [];
    }
    var earlier := Earlier(w, i - 1, before);
    keys := QuartersTelescope(w, i - 1, earlier, before);
    keys := MarkKeepsQuarters(before.stats.quarters, keys, w.quarter(w.cell.bars.times[i - 2]), w.cell.initial,
                              w.quarter(w.cell.bars.times[i - 1]), MarkedEquity(w, before, i - 1));
  }

  lemma SettleBooks(q: Quarters, current: nat)
    requires q.current == Some(current)
    ensures q.Settle() == q.pnl[current := q.last - q.opening]
  {
  }

  lemma SettleSumsUp(q: Quarters, keys: seq<nat>, current: nat, initial: real) returns (longer: seq<nat>)
    requires ClosedQuarters(q, keys, current, initial)
    ensures Lists(longer, q.Settle()) && SumOver(q.Settle(), longer) == q.last - initial
  {
    BooksStayClosed(q.pnl, keys, current, initial, q.opening, q.last);
    SettleBooks(q, current);
    longer := keys + [current];
  }

  lemma LastTurnFillsNothing(w: Window, s: Sim)
    requires w.Valid() && 0 < w.cell.end && Step(w, s, w.cell.end - 1).Ok?
    ensures Step(w, s, w.cell.end - 1).value.core.legs == s.core.legs
  {
  }

  /** On strictly increasing times the quarterly entries, each counted once, sum exactly to the net result. */
  lemma QuartersSumToNet(w: Window) returns (keys: seq<nat>)
    requires w.Valid() && QuarterClock(w.quarter) && StrictlyIncreasing(w.cell.bars.times) && Outcome(w).Ok?
    ensures Lists(keys, Outcome(w).value.quarterPnl)
    ensures SumOver(Outcome(w).value.quarterPnl, keys) == Outcome(w).value.baseNet
  {
    var end, s := w.cell.end, Run(w, w.cell.end).value;
    var before := Earlier(w, end, s);
    keys := QuartersTelescope(w, end, before, s);
    OneStep(w, end - 1, before);
    LastTurnFillsNothing(w, before);
    keys := SettleSumsUp(s.stats.quarters, keys, w.quarter(w.cell.bars.times[end - 1]), w.cell.initial);
  }

  /** Stress never ends better than base. */
  lemma StressNeverBetter(w: Window)
    requires w.Valid() && w.cell.bars.Priced() && LegalCosts(w.cell.costs) && Outcome(w).Ok?
    ensures UnitDominates(Outcome(w).value.core.legs)
    ensures Outcome(w).value.stressNet <= Outcome(w).value.baseNet
  {
    RunIsEager(w, w.cell.end);
    EagerDominates(w.cell, w.start, w.cell.end);
    UnitEquityDominance(Run(w, w.cell.end).value.core.legs, w.cell.bars.closes[w.cell.end - 1], w.cell.costs);
  }
}
