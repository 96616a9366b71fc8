/**
 The fixed-quantity crossover that books its fill as soon as it signals: the
 decision at bar i trades at the open of bar i + 1 within the same iteration.
 */
module EagerFills {
  import opened Basics
  import opened Crossover
  import opened UnitAccount

  /** The bars decided on, the accounts' costs and their starting capital. */
  datatype UnitCell = UnitCell(bars: Bars, end: nat, costs: UnitCosts, initial: real)
  {
    predicate Valid() {
      bars.Valid() && end <= |bars.times|
    }
  }

  datatype Core = Core(legs: UnitLegs, long: bool, missing: nat, entries: nat, exits: nat)

  function NewCore(c: UnitCell): Core {
    Core(NewLegs(c.initial), false, 0, 0, 0)
  }

  /** Book a fill in both accounts and turn the position over. */
  function Booked(s: Core, enter: bool, reference: real, c: UnitCosts): Result<Core, UnitError> {
    match FilledBoth(s.legs, enter, reference, c)
    case Err(e) => Err(e)
    case Ok(l) => Ok(Core(l, enter, s.missing, s.entries + Count(enter), s.exits + Count(!enter)))
  }

  /** What the position makes of a crossing: an entry, an exit, or nothing. */
  function Wanted(long: bool, cross: Cross): Option<bool> {
    if !long && cross == Up then Some(true) else if long && cross == Down then Some(false) else None
  }

  function EagerTurn(c: UnitCell, s: Core, i: nat): Result<Core, UnitError>
    requires c.Valid() && i < c.end
  {
    match Wanted(s.long, CrossAt(c.bars, i))
    case None => Ok(s)
    case Some(enter) =>
      if !Fillable(c.bars, c.end, i) then Ok(s.(missing := s.missing + 1))
      else Booked(s, enter, c.bars.opens[i + 1], c.costs)
  }

  /** The eager run when bar i is reached, deciding from bar first on. */
  function EagerRun(c: UnitCell, first: nat, i: nat): Result<Core, UnitError>
    requires c.Valid() && i <= c.end
    decreases i, 0
  {
    if i <= first then Ok(NewCore(c)) else EagerNext(c, first, i - 1)
  }

  /** The eager run once bar i is done. */
  function EagerNext(c: UnitCell, first: nat, i: nat): Result<Core, UnitError>
    requires c.Valid() && i < c.end
    decreases i, 1
  {
    match EagerRun(c, first, i)
    case Err(e) => Err(e)
    case Ok(s) => EagerTurn(c, s, i)
  }

  /** A bar that is reached was reached from the bar before, by one turn. */
  lemma EagerEarlier(c: UnitCell, first: nat, i: nat) returns (before: Core)
    requires c.Valid() && first < i <= c.end && EagerRun(c, first, i).Ok?
    ensures EagerRun(c, first, i - 1) == Ok(before)
    ensures EagerRun(c, first, i) == EagerTurn(c, before, i - 1)
  {
    assert EagerRun(c, first, i) == EagerNext(c, first, i - 1);
    before := EagerRun(c, first, i - 1).value;
  }

  lemma EagerOneTurn(c: UnitCell, first: nat, i: nat, s: Core)
    requires c.Valid() && first <= i < c.end && EagerRun(c, first, i) == Ok(s)
    ensures EagerRun(c, first, i + 1) == EagerTurn(c, s, i)
  {
    assert EagerRun(c, first, i + 1) == EagerNext(c, first, i);
  }

  method EagerDecide(c: UnitCell, base: Account, stress: Account, s: Core, i: nat) returns (r: Result<Core, UnitError>)
    requires c.Valid() && i < c.end && base != stress && s.legs == UnitLegs(base.View(), stress.View())
    modifies base, stress
    ensures r == EagerTurn(c, s, i)
    ensures r.Ok? ==> r.value.legs == UnitLegs(base.View(), stress.View())
  {
    var cross := CrossAt(c.bars, i);
    var enter := !s.long && cross == Up;
    var exit := s.long && cross == Down;
    if !enter && !exit {
      return Ok(s);
    }
    if !Fillable(c.bars, c.end, i) {
      return Ok(s.(missing := s.missing + 1));
    }
    var refusal := FillBoth(base, stress, enter, c.bars.opens[i + 1], c.costs);
    if refusal.Some? {
      return Err(refusal.value);
    }
    return Ok(Core(UnitLegs(base.View(), stress.View()), enter, s.missing,
                   s.entries + Count(enter), s.exits + Count(!enter)));
  }

  lemma {:induction false} EagerFailureIsFinal(c: UnitCell, first: nat, i: nat, j: nat)
    requires c.Valid() && first <= i <= j <= c.end && EagerRun(c, first, i).Err?
    ensures EagerRun(c, first, j) == EagerRun(c, first, i)
  {
    if i < j {
      EagerFailureIsFinal(c, first, i, j - 1);
      assert EagerRun(c, first, j) == EagerNext(c, first, j - 1);
    }
  }

  /** Position and fills are the automaton's, and the accounts are in step with the position. */
  predicate OnCourse(s: Core, d: Direction) {
    && InStep(s.legs, s.long) && s.long == d.long && s.entries == d.entries && s.exits == d.exits
    && |s.legs.base.realized| == s.exits
  }

  lemma TurnStaysOnCourse(c: UnitCell, s: Core, d: Direction, i: nat)
    requires c.Valid() && i < c.end && OnCourse(s, d)
    ensures match EagerTurn(c, s, i)
      case Ok(after) => OnCourse(after, Turn(c.bars, c.end, d, i))
      case Err(e) => e == InsufficientCash
  {
    if i + 1 < c.end {
      FillInStep(s.legs, s.long, c.bars.opens[i + 1], c.costs);
    }
  }

  /**
   The eager position is the crossover automaton's, its accounts are in step with it, and only cash can refuse a
   fill.
   */
  lemma {:induction false} EagerFollowsCourse(c: UnitCell, first: nat, i: nat)
    requires c.Valid() && first <= i <= c.end
    ensures match EagerRun(c, first, i)
      case Ok(s) => OnCourse(s, Course(c.bars, first, c.end, i))
      case Err(e) => e == InsufficientCash
  {
    if i == first {
      return;
    }
    EagerFollowsCourse(c, first, i - 1);
    if EagerRun(c, first, i - 1).Err? {
      EagerFailureIsFinal(c, first, i - 1, i);
      return;
    }
    var before := EagerRun(c, first, i - 1).value;
    EagerOneTurn(c, first, i - 1, before);
    TurnStaysOnCourse(c, before, Course(c.bars, first, c.end, i - 1), i - 1);
  }

  lemma TurnKeepsBalance(c: UnitCell, s: Core, i: nat)
    requires c.Valid() && i < c.end && EagerTurn(c, s, i).Ok?
    requires Balanced(c.initial, s.legs.base) && Balanced(c.initial, s.legs.stress)
    ensures Balanced(c.initial, EagerTurn(c, s, i).value.legs.base)
    ensures Balanced(c.initial, EagerTurn(c, s, i).value.legs.stress)
  {
    if i + 1 < c.end {
      FillKeepsBalance(c.initial, s.legs.base, c.bars.opens[i + 1], c.costs.quantity, c.costs.base);
      FillKeepsBalance(c.initial, s.legs.stress, c.bars.opens[i + 1], c.costs.quantity, c.costs.stress);
    }
  }

  lemma {:induction false} EagerConserves(c: UnitCell, first: nat, i: nat)
    requires c.Valid() && first <= i <= c.end && EagerRun(c, first, i).Ok?
    ensures Balanced(c.initial, EagerRun(c, first, i).value.legs.base)
    ensures Balanced(c.initial, EagerRun(c, first, i).value.legs.stress)
  {
    if i == first {
      return;
    }
    var before := EagerEarlier(c, first, i);
    EagerConserves(c, first, i - 1);
    TurnKeepsBalance(c, before, i - 1);
  }

  lemma TurnKeepsDominance(c: UnitCell, s: Core, i: nat)
    requires c.Valid() && c.bars.Priced() && LegalCosts(c.costs) && i < c.end
    requires UnitDominates(s.legs) && EagerTurn(c, s, i).Ok?
    ensures UnitDominates(EagerTurn(c, s, i).value.legs)
  {
    var w := Wanted(s.long, CrossAt(c.bars, i));
    if w.Some? && Fillable(c.bars, c.end, i) {
      FillKeepsDominance(s.legs, w.value, c.bars.opens[i + 1], c.costs);
    }
  }

  lemma {:induction false} EagerDominates(c: UnitCell, first: nat, i: nat)
    requires c.Valid() && c.bars.Priced() && LegalCosts(c.costs)
    requires first <= i <= c.end && EagerRun(c, first, i).Ok?
    ensures UnitDominates(EagerRun(c, first, i).value.legs)
  {
    if i == first {
      return;
    }
    var before := EagerEarlier(c, first, i);
    EagerDominates(c, first, i - 1);
    TurnKeepsDominance(c, before, i - 1);
  }

  // ---------- What each bar fills ----------

  /** Bar i trades both accounts at the next hour's open exactly when a crossing turns the position over. */
  ghost predicate FilledExactly(c: UnitCell, i: nat, held: bool, l: UnitLegs, r: Result<UnitLegs, UnitError>)
    requires c.Valid() && i < c.end
  {
    if NextHour(c.bars, c.end, i) && (if held then CrossesDown(c.bars, i) else CrossesUp(c.bars, i)) then
      r == FilledBoth(l, !held, c.bars.opens[i + 1], c.costs)
    else r == Ok(l)
  }

  function LegsOf(r: Result<Core, UnitError>): Result<UnitLegs, UnitError> {
    match r
    case Err(e) => Err(e)
    case Ok(core) => Ok(core.legs)
  }

  lemma EagerBarExactly(c: UnitCell, first: nat, i: nat, s: Core)
    requires c.Valid() && first <= i < c.end && EagerRun(c, first, i) == Ok(s)
    ensures var held := Held(c.bars, first, c.end, i);
      && s.long == held
      && FilledExactly(c, i, held, s.legs, LegsOf(EagerRun(c, first, i + 1)))
      && (EagerRun(c, first, i + 1).Ok? ==>
            EagerRun(c, first, i + 1).value.missing == s.missing
              + Count(!NextHour(c.bars, c.end, i) && if held then CrossesDown(c.bars, i) else CrossesUp(c.bars, i)))
  {
    EagerFollowsCourse(c, first, i);
    LongMeansHeld(c.bars, first, c.end, i);
    CrossingsExactly(c.bars, c.end, i);
    EagerOneTurn(c, first, i, s);
  }
}
