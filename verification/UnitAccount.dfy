/**
 The fixed-quantity research account: at most one entry is outstanding, recorded
 by its debit, and each exit realizes proceeds less that debit.
 */
module UnitAccount {
  import opened Basics
  import opened Costs

  datatype UnitError = OverlappingEntry | ExitWithoutEntry | InsufficientCash

  datatype UnitBook = UnitBook(cash: real, debit: Option<real>, realized: seq<real>, fee: real, slippage: real)
  {
    function Equity(mark: real, quantity: real, c: CostPolicy): real {
      if debit.None? then cash else cash + Liquidation(mark, quantity, c)
    }
  }

  function NewUnitBook(initial: real): UnitBook {
    UnitBook(initial, None, [], 0.0, 0.0)
  }

  function Entered(b: UnitBook, reference: real, quantity: real, c: CostPolicy): Result<UnitBook, UnitError> {
    var e := BuyExecution(reference, quantity, c);
    var debit := BuyDebit(reference, quantity, c);
    if b.debit.Some? then Err(OverlappingEntry)
    else if b.cash - debit < 0.0 then Err(InsufficientCash)
    else Ok(b.(cash := b.cash - debit, debit := Some(debit), fee := b.fee + e.fee, slippage := b.slippage + e.slippage))
  }

  function Exited(b: UnitBook, reference: real, quantity: real, c: CostPolicy): Result<UnitBook, UnitError> {
    var e := SellExecution(reference, quantity, c);
    var proceeds := SellProceeds(reference, quantity, c);
    if b.debit.None? then Err(ExitWithoutEntry)
    else Ok(UnitBook(b.cash + proceeds, None, b.realized + [proceeds - b.debit.value],
                     b.fee + e.fee, b.slippage + e.slippage))
  }

  class Account {
    var cash: real
    var debit: Option<real>
    var realized: seq<real>
    var fee: real
    var slippage: real

    function View(): UnitBook
      reads this
    {
      UnitBook(cash, debit, realized, fee, slippage)
    }

    constructor (initial: real)
      ensures View() == NewUnitBook(initial)
    {
      cash := initial;
      debit := None;
      realized := [];
      fee, slippage := 0.0, 0.0;
    }

    /** A refused entry leaves the account as it was. */
    method Enter(reference: real, quantity: real, c: CostPolicy) returns (r: Option<UnitError>)
      modifies this
      ensures match Entered(old(View()), reference, quantity, c)
              case Ok(after) => r == None && View() == after
              case Err(e) => r == Some(e) && View() == old(View())
    {
      if debit.Some? {
        return Some(OverlappingEntry);
      }
      var e := BuyExecution(reference, quantity, c);
      var paid := e.gross + e.fee;
      if cash - paid < 0.0 {
        return Some(InsufficientCash);
      }
      cash := cash - paid;
      debit := Some(paid);
      fee := fee + e.fee;
      slippage := slippage + e.slippage;
      return None;
    }

    method Exit(reference: real, quantity: real, c: CostPolicy) returns (r: Option<UnitError>)
      modifies this
      ensures match Exited(old(View()), reference, quantity, c)
              case Ok(after) => r == None && View() == after
              case Err(e) => r == Some(e) && View() == old(View())
    {
      if debit.None? {
        return Some(ExitWithoutEntry);
      }
      var e := SellExecution(reference, quantity, c);
      var proceeds := e.gross - e.fee;
      cash := cash + proceeds;
      realized := realized + [proceeds - debit.value];
      debit := None;
      fee := fee + e.fee;
      slippage := slippage + e.slippage;
      return None;
    }

    method Equity(mark: real, quantity: real, c: CostPolicy) returns (e: real)
      ensures e == View().Equity(mark, quantity, c)
    {
      if debit.None? {
        return cash;
      }
      e := cash + Liquidation(mark, quantity, c);
    }
  }

  /** What an account is worth at a price: its cash, once an open entry is exited there. */
  lemma EquityIsExit(b: UnitBook, price: real, quantity: real, c: CostPolicy)
    ensures b.debit.None? ==> b.Equity(price, quantity, c) == b.cash
    ensures b.debit.Some? ==>
      Exited(b, price, quantity, c).Ok? && b.Equity(price, quantity, c) == Exited(b, price, quantity, c).value.cash
  {
    LiquidationIsSale(price, quantity, c);
  }

  /** Each fill charges slippage at its rate on the reference value and the fee at its rate on what was traded. */
  lemma FillCharges(b: UnitBook, reference: real, quantity: real, c: CostPolicy)
    ensures Entered(b, reference, quantity, c).Ok? ==>
      var after := Entered(b, reference, quantity, c).value;
      && after.slippage == b.slippage + c.SlipRate() * (quantity * reference)
      && after.fee == b.fee + c.FeeRate() * (quantity * (reference * (1.0 + c.SlipRate())))
      && b.cash - after.cash == quantity * reference + (after.slippage - b.slippage) + (after.fee - b.fee)
      && after.debit == Some(b.cash - after.cash) && after.realized == b.realized
    ensures Exited(b, reference, quantity, c).Ok? ==>
      var after := Exited(b, reference, quantity, c).value;
      && after.slippage == b.slippage + c.SlipRate() * (quantity * reference)
      && after.fee == b.fee + c.FeeRate() * (quantity * (reference * (1.0 - c.SlipRate())))
      && after.cash - b.cash == quantity * reference - (after.slippage - b.slippage) - (after.fee - b.fee)
      && b.debit.Some? && after.realized == b.realized + [after.cash - b.cash - b.debit.value]
  {
    BuyDecomposes(reference, quantity, c);
    SellDecomposes(reference, quantity, c);
  }

  // ---------- Base and stress in lockstep ----------

  datatype UnitLegs = UnitLegs(base: UnitBook, stress: UnitBook)

  datatype UnitCosts = UnitCosts(quantity: real, base: CostPolicy, stress: CostPolicy)

  function NewLegs(initial: real): UnitLegs {
    UnitLegs(NewUnitBook(initial), NewUnitBook(initial))
  }

  /** Enter or exit both accounts at one reference price. */
  function FilledBoth(l: UnitLegs, enter: bool, reference: real, c: UnitCosts): Result<UnitLegs, UnitError> {
    var base := if enter then Entered(l.base, reference, c.quantity, c.base)
      else Exited(l.base, reference, c.quantity, c.base);
    match base
    case Err(e) => Err(e)
    case Ok(b) =>
      match if enter then Entered(l.stress, reference, c.quantity, c.stress)
        else Exited(l.stress, reference, c.quantity, c.stress)
      case Err(e) => Err(e)
      case Ok(s) => Ok(UnitLegs(b, s))
  }

  method FillBoth(base: Account, stress: Account, enter: bool, reference: real, c: UnitCosts)
    returns (refusal: Option<UnitError>)
    requires base != stress
    modifies base, stress
    ensures match FilledBoth(UnitLegs(old(base.View()), old(stress.View())), enter, reference, c)
            case Ok(l) => refusal == None && l == UnitLegs(base.View(), stress.View())
            case Err(e) => refusal == Some(e)
  {
    if enter {
      refusal := base.Enter(reference, c.quantity, c.base);
      if refusal.None? {
        refusal := stress.Enter(reference, c.quantity, c.stress);
      }
    } else {
      refusal := base.Exit(reference, c.quantity, c.base);
      if refusal.None? {
        refusal := stress.Exit(reference, c.quantity, c.stress);
      }
    }
  }

  /**
   An entry is outstanding in both accounts exactly while the position is held, and in step with what was realized.
   */
  predicate InStep(l: UnitLegs, long: bool) {
    && l.base.debit.Some? == long && l.stress.debit.Some? == long
    && |l.base.realized| == |l.stress.realized|
  }

  lemma FillInStep(l: UnitLegs, long: bool, reference: real, c: UnitCosts)
    requires InStep(l, long)
    ensures match FilledBoth(l, !long, reference, c)
      case Ok(after) => InStep(after, !long)
      case Err(e) => e == InsufficientCash && !long
  {
  }

  /** The account balance: cash is capital plus realized results less what the open entry cost. */
  predicate Balanced(initial: real, b: UnitBook) {
    b.cash == initial + Sum(b.realized) - if b.debit.Some? then b.debit.value else 0.0
  }

  lemma FillKeepsBalance(initial: real, b: UnitBook, reference: real, quantity: real, c: CostPolicy)
    requires Balanced(initial, b)
    ensures Entered(b, reference, quantity, c).Ok? ==> Balanced(initial, Entered(b, reference, quantity, c).value)
    ensures Exited(b, reference, quantity, c).Ok? ==> Balanced(initial, Exited(b, reference, quantity, c).value)
  {
    if b.debit.Some? {
      SumAppend(b.realized, SellProceeds(reference, quantity, c) - b.debit.value);
    }
  }

  predicate UnitDominates(l: UnitLegs) {
    && l.stress.cash <= l.base.cash
    && l.base.debit.Some? == l.stress.debit.Some?
    && (l.base.debit.Some? ==> l.base.debit.value <= l.stress.debit.value)
    && NowhereAbove(l.stress.realized, l.base.realized)
  }

  ghost predicate LegalCosts(c: UnitCosts) {
    0.0 <= c.quantity && c.base.Legal() && c.stress.Legal() && c.base.Within(c.stress)
  }

  lemma FillKeepsDominance(l: UnitLegs, enter: bool, reference: real, c: UnitCosts)
    requires UnitDominates(l) && LegalCosts(c) && 0.0 <= reference && FilledBoth(l, enter, reference, c).Ok?
    ensures UnitDominates(FilledBoth(l, enter, reference, c).value)
  {
    BuyDominance(reference, c.quantity, c.base, c.stress);
    SellDominance(reference, c.quantity, c.base, c.stress);
    if !enter {
      NowhereAboveAppend(l.stress.realized, l.base.realized,
                         SellProceeds(reference, c.quantity, c.stress) - l.stress.debit.value,
                         SellProceeds(reference, c.quantity, c.base) - l.base.debit.value);
    }
  }

  lemma UnitEquityDominance(l: UnitLegs, mark: real, c: UnitCosts)
    requires UnitDominates(l) && LegalCosts(c) && 0.0 <= mark
    ensures l.stress.Equity(mark, c.quantity, c.stress) <= l.base.Equity(mark, c.quantity, c.base)
  {
    LiquidationIsSale(mark, c.quantity, c.base);
    LiquidationIsSale(mark, c.quantity, c.stress);
    SellDominance(mark, c.quantity, c.base, c.stress);
  }
}
