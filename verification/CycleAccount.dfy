/**
 The variable-quantity research account: cash, a holding, and one directional
 cycle whose cash flow becomes a realized result when the cycle closes.
 */
module CycleAccount {
  import opened Basics
  import opened Costs

  datatype AccountError =
    | NegativeBuyQuantity
    | OverlappingEntry
    | BuyOutsideCycle
    | InsufficientCash
    | InvalidSellQuantity
    | SellOutsideCycle
    | ResidualQuantity

  /** The account's value at one moment. */
  datatype Book = Book(
    cash: real,
    quantity: real,
    cycle: Option<real>,
    realized: seq<real>,
    fee: real,
    slippage: real,
    turnover: real)
  {
    function Charge(e: Execution): Book {
      this.(fee := fee + e.fee, slippage := slippage + e.slippage, turnover := turnover + e.gross)
    }

    function OpenFlow(): real {
      if cycle.Some? then cycle.value else 0.0
    }

    function Equity(mark: real, c: CostPolicy): real {
      if quantity == 0.0 then cash else cash + Liquidation(mark, quantity, c)
    }
  }

  function NewBook(initial: real): Book {
    Book(initial, 0.0, None, [], 0.0, 0.0, 0.0)
  }

  function Bought(b: Book, reference: real, quantity: real, c: CostPolicy, opens: bool): Result<Book, AccountError> {
    if quantity < 0.0 then Err(NegativeBuyQuantity)
    else if opens && (b.cycle.Some? || b.quantity != 0.0) then Err(OverlappingEntry)
    else if !opens && b.cycle.None? then Err(BuyOutsideCycle)
    else
      var flow := if opens then 0.0 else b.cycle.value;
      var debit := BuyDebit(reference, quantity, c);
      if quantity == 0.0 then Ok(b.(cycle := Some(flow)))
      else if b.cash - debit < 0.0 then Err(InsufficientCash)
      else Ok(b.(cash := b.cash - debit, quantity := b.quantity + quantity, cycle := Some(flow - debit))
               .Charge(BuyExecution(reference, quantity, c)))
  }

  /** The account after the sale itself, before any cycle is closed. */
  function Reduced(b: Book, reference: real, quantity: real, c: CostPolicy): Book
    requires b.cycle.Some?
  {
    if quantity > 0.0 then
      var proceeds := SellProceeds(reference, quantity, c);
      b.(cash := b.cash + proceeds, quantity := b.quantity - quantity, cycle := Some(b.cycle.value + proceeds))
       .Charge(SellExecution(reference, quantity, c))
    else b
  }

  function Sold(b: Book, reference: real, quantity: real, c: CostPolicy, closes: bool): Result<Book, AccountError> {
    if quantity < 0.0 || quantity > b.quantity then Err(InvalidSellQuantity)
    else if b.cycle.None? then Err(SellOutsideCycle)
    else
      var after := Reduced(b, reference, quantity, c);
      if !closes then Ok(after)
      else if after.quantity != 0.0 then Err(ResidualQuantity)
      else Ok(after.(realized := after.realized + [after.cycle.value], cycle := None))
  }

  /** The mutable account the simulators trade on. */
  class Account {
    var cash: real
    var quantity: real
    var cycle: Option<real>
    var realized: seq<real>
    var fee: real
    var slippage: real
    var turnover: real

    function View(): Book
      reads this
    {
      Book(cash, quantity, cycle, realized, fee, slippage, turnover)
    }

    constructor (initial: real)
      ensures View() == NewBook(initial)
    {
      cash := initial;
      quantity := 0.0;
      cycle := None;
      realized := [];
      fee, slippage, turnover := 0.0, 0.0, 0.0;
    }

    /** A refused purchase leaves the account alone, except that an unaffordable entry has already opened its cycle. */
    method Buy(reference: real, amount: real, c: CostPolicy, opens: bool) returns (r: Option<AccountError>)
      modifies this
      ensures match Bought(old(View()), reference, amount, c, opens)
              case Ok(after) => r == None && View() == after
              case Err(e) =>
                && r == Some(e)
                && View() == if e.InsufficientCash? && opens then old(View()).(cycle := Some(0.0)) else old(View())
    {
      if amount < 0.0 {
        return Some(NegativeBuyQuantity);
      }
      if opens {
        if cycle.Some? || quantity != 0.0 {
          return Some(OverlappingEntry);
        }
        cycle := Some(0.0);
      } else if cycle.None? {
        return Some(BuyOutsideCycle);
      }
      if amount == 0.0 {
        return None;
      }
      var e := BuyExecution(reference, amount, c);
      var debit := e.gross + e.fee;
      if cash - debit < 0.0 {
        return Some(InsufficientCash);
      }
      cash := cash - debit;
      quantity := quantity + amount;
      cycle := Some(cycle.value - debit);
      fee := fee + e.fee;
      slippage := slippage + e.slippage;
      turnover := turnover + e.gross;
      return None;
    }

    /** A closing sale that leaves a residue is refused only after the sale itself has been booked. */
    method Sell(reference: real, amount: real, c: CostPolicy, closes: bool) returns (r: Option<AccountError>)
      modifies this
      ensures match Sold(old(View()), reference, amount, c, closes)
              case Ok(after) => r == None && View() == after
              case Err(e) =>
                && r == Some(e)
                && View() == if e.ResidualQuantity? then Reduced(old(View()), reference, amount, c) else old(View())
    {
      if amount < 0.0 || amount > quantity {
        return Some(InvalidSellQuantity);
      }
      if cycle.None? {
        return Some(SellOutsideCycle);
      }
      if amount > 0.0 {
        var e := SellExecution(reference, amount, c);
        var proceeds := e.gross - e.fee;
        cash := cash + proceeds;
        quantity := quantity - amount;
        cycle := Some(cycle.value + proceeds);
        fee := fee + e.fee;
        slippage := slippage + e.slippage;
        turnover := turnover + e.gross;
      }
      if closes {
        if quantity != 0.0 {
          return Some(ResidualQuantity);
        }
        realized := realized + [cycle.value];
        cycle := None;
      }
      return None;
    }

    method Equity(mark: real, c: CostPolicy) returns (e: real)
      ensures e == View().Equity(mark, c)
    {
      if quantity == 0.0 {
        return cash;
      }
      e := cash + Liquidation(mark, quantity, c);
    }
  }

  // ---------- What an account is worth ----------

  /** What selling the whole holding at a price would leave in cash. */
  function SoldOut(b: Book, price: real, c: CostPolicy): real {
    b.cash + SellProceeds(price, b.quantity, c)
  }

  lemma EquityIsSoldOut(b: Book, price: real, c: CostPolicy)
    ensures b.Equity(price, c) == SoldOut(b, price, c)
  {
    LiquidationIsSale(price, b.quantity, c);
    if b.quantity == 0.0 {
      assert SellExecution(price, 0.0, c).gross == 0.0;
    }
  }

  /** A purchase is refused exactly when it is negative, meets the wrong cycle state, or costs more than the cash. */
  lemma BuyRefusedExactlyWhen(b: Book, reference: real, quantity: real, c: CostPolicy, opens: bool)
    ensures var r, e := Bought(b, reference, quantity, c, opens), BuyExecution(reference, quantity, c);
      var fits := if opens then b.cycle.None? && b.quantity == 0.0 else b.cycle.Some?;
      && (r == Err(NegativeBuyQuantity) <==> quantity < 0.0)
      && (r == Err(OverlappingEntry) <==> 0.0 <= quantity && opens && !fits)
      && (r == Err(BuyOutsideCycle) <==> 0.0 <= quantity && !opens && !fits)
      && (r == Err(InsufficientCash) <==>
            0.0 < quantity && fits && b.cash < quantity * reference + e.slippage + e.fee)
      && (r.Err? ==> r.error in {NegativeBuyQuantity, OverlappingEntry, BuyOutsideCycle, InsufficientCash})
  {
    BuyDecomposes(reference, quantity, c);
  }

  /** A sale is refused exactly when it exceeds the holding, meets no cycle, or would close one on a residue. */
  lemma SaleRefusedExactlyWhen(b: Book, reference: real, quantity: real, c: CostPolicy, closes: bool)
    ensures var r := Sold(b, reference, quantity, c, closes);
      && (r == Err(InvalidSellQuantity) <==> !(0.0 <= quantity <= b.quantity))
      && (r == Err(SellOutsideCycle) <==> 0.0 <= quantity <= b.quantity && b.cycle.None?)
      && (r == Err(ResidualQuantity) <==>
            0.0 <= quantity <= b.quantity && b.cycle.Some? && closes && quantity != b.quantity)
      && (r.Err? ==> r.error in {InvalidSellQuantity, SellOutsideCycle, ResidualQuantity})
  {
  }

  // ---------- Trade histories ----------

  datatype Trade =
    | Buy(reference: real, quantity: real, costs: CostPolicy, opens: bool)
    | Sell(reference: real, quantity: real, costs: CostPolicy, closes: bool)

  function Traded(b: Book, t: Trade): Result<Book, AccountError> {
    match t
    case Buy(p, q, c, opens) => Bought(b, p, q, c, opens)
    case Sell(p, q, c, closes) => Sold(b, p, q, c, closes)
  }

  /** The account after a whole history, or the first refusal in it. */
  function Replay(initial: real, ts: seq<Trade>): Result<Book, AccountError> {
    if ts == [] then Ok(NewBook(initial))
    else match Replay(initial, ts[..|ts| - 1])
      case Err(e) => Err(e)
      case Ok(b) => Traded(b, ts[|ts| - 1])
  }

  /** Signed reference-price notional of one trade: positive when money is spent. */
  function SpendOf(t: Trade): real {
    match t
    case Buy(p, q, _, _) => q * p
    case Sell(p, q, _, _) => -(q * p)
  }

  function SignedQuantity(t: Trade): real {
    match t
    case Buy(_, q, _, _) => q
    case Sell(_, q, _, _) => -q
  }

  function NetSpend(ts: seq<Trade>): real {
    if ts == [] then 0.0 else NetSpend(ts[..|ts| - 1]) + SpendOf(ts[|ts| - 1])
  }

  function NetQuantity(ts: seq<Trade>): real {
    if ts == [] then 0.0 else NetQuantity(ts[..|ts| - 1]) + SignedQuantity(ts[|ts| - 1])
  }

  /** Reference notional traded in either direction. */
  function Volume(ts: seq<Trade>): real {
    if ts == [] then 0.0
    else Volume(ts[..|ts| - 1]) + ts[|ts| - 1].quantity * ts[|ts| - 1].reference
  }

  /** A cycle is open whenever something is held. */
  predicate HoldsOnlyInCycle(b: Book) {
    b.cycle.None? ==> b.quantity == 0.0
  }

  lemma CyclePreserved(b: Book, t: Trade)
    requires HoldsOnlyInCycle(b) && Traded(b, t).Ok?
    ensures HoldsOnlyInCycle(Traded(b, t).value)
  {
  }

  /** The cycle ledger: what left the account is realized or still at work in the open cycle. */
  predicate CycleBalanced(initial: real, b: Book) {
    b.cash == initial + Sum(b.realized) + b.OpenFlow()
  }

  lemma BalanceStep(initial: real, b: Book, t: Trade)
    requires CycleBalanced(initial, b) && Traded(b, t).Ok?
    ensures CycleBalanced(initial, Traded(b, t).value)
  {
    if t.Sell? && t.closes {
      SumAppend(b.realized, Reduced(b, t.reference, t.quantity, t.costs).cycle.value);
    }
  }

  lemma CashStep(b: Book, t: Trade)
    requires Traded(b, t).Ok?
    ensures var a := Traded(b, t).value;
      a.cash + a.fee + a.slippage == b.cash + b.fee + b.slippage - SpendOf(t)
    ensures Traded(b, t).value.quantity == b.quantity + SignedQuantity(t)
  {
    BuyDecomposes(t.reference, t.quantity, t.costs);
    SellDecomposes(t.reference, t.quantity, t.costs);
  }

  /** Conservation over every accepted history, stated twice: by cycle results and by reference spend. */
  lemma {:induction false} Conservation(initial: real, ts: seq<Trade>)
    requires Replay(initial, ts).Ok?
    ensures var b := Replay(initial, ts).value;
      && b.cash == initial + Sum(b.realized) + b.OpenFlow()
      && b.cash == initial - NetSpend(ts) - b.fee - b.slippage
      && b.quantity == NetQuantity(ts)
      && (b.cycle.None? ==> b.quantity == 0.0)
  {
    if ts != [] {
      var before := Replay(initial, ts[..|ts| - 1]).value;
      var t := ts[|ts| - 1];
      Conservation(initial, ts[..|ts| - 1]);
      BalanceStep(initial, before, t);
      CashStep(before, t);
      CyclePreserved(before, t);
    }
  }

  function ExecutionOf(t: Trade): Execution {
    match t
    case Buy(p, q, c, _) => BuyExecution(p, q, c)
    case Sell(p, q, c, _) => SellExecution(p, q, c)
  }

  function TotalSlippage(ts: seq<Trade>): real {
    if ts == [] then 0.0 else TotalSlippage(ts[..|ts| - 1]) + ExecutionOf(ts[|ts| - 1]).slippage
  }

  function TotalFee(ts: seq<Trade>): real {
    if ts == [] then 0.0 else TotalFee(ts[..|ts| - 1]) + ExecutionOf(ts[|ts| - 1]).fee
  }

  function TotalTurnover(ts: seq<Trade>): real {
    if ts == [] then 0.0 else TotalTurnover(ts[..|ts| - 1]) + ExecutionOf(ts[|ts| - 1]).gross
  }

  lemma ChargeStep(b: Book, t: Trade)
    requires Traded(b, t).Ok?
    ensures Traded(b, t).value == Traded(b, t).value.(
      slippage := b.slippage + ExecutionOf(t).slippage,
      turnover := b.turnover + ExecutionOf(t).gross,
      fee := b.fee + ExecutionOf(t).fee)
  {
    if t.quantity == 0.0 {
      BuyDecomposes(t.reference, t.quantity, t.costs);
      SellDecomposes(t.reference, t.quantity, t.costs);
    }
  }

  lemma {:induction false} LedgersAreTotals(initial: real, ts: seq<Trade>)
    requires Replay(initial, ts).Ok?
    ensures Replay(initial, ts).value.slippage == TotalSlippage(ts)
    ensures Replay(initial, ts).value.turnover == TotalTurnover(ts)
    ensures Replay(initial, ts).value.fee == TotalFee(ts)
  {
    if ts != [] {
      LedgersAreTotals(initial, ts[..|ts| - 1]);
      ChargeStep(Replay(initial, ts[..|ts| - 1]).value, ts[|ts| - 1]);
    }
  }

  lemma Distribute(k: real, x: real, y: real)
    ensures k * x + k * y == k * (x + y)
  {
  }

  lemma AtRateAdds(rate: real, x: real, y: real)
    ensures AtRate(rate, x + y) == AtRate(rate, x) + AtRate(rate, y)
  {
    Distribute(rate, x, y);
  }

  /** One execution charges slippage at its rate on the reference notional and the fee at its rate on the gross. */
  lemma ExecutionAtRates(t: Trade)
    ensures ExecutionOf(t).slippage == AtRate(t.costs.SlipRate(), t.quantity * t.reference)
    ensures ExecutionOf(t).fee == AtRate(t.costs.FeeRate(), ExecutionOf(t).gross)
  {
    BuyDecomposes(t.reference, t.quantity, t.costs);
    SellDecomposes(t.reference, t.quantity, t.costs);
  }

  lemma {:induction false} SlippageAtRate(ts: seq<Trade>, c: CostPolicy)
    requires forall k :: 0 <= k < |ts| ==> ts[k].costs == c
    ensures TotalSlippage(ts) == AtRate(c.SlipRate(), Volume(ts))
  {
    if ts != [] {
      var t := ts[|ts| - 1];
      SlippageAtRate(ts[..|ts| - 1], c);
      ExecutionAtRates(t);
      AtRateAdds(c.SlipRate(), Volume(ts[..|ts| - 1]), t.quantity * t.reference);
    }
  }

  lemma {:induction false} FeeAtRate(ts: seq<Trade>, c: CostPolicy)
    requires forall k :: 0 <= k < |ts| ==> ts[k].costs == c
    ensures TotalFee(ts) == AtRate(c.FeeRate(), TotalTurnover(ts))
  {
    if ts != [] {
      var t := ts[|ts| - 1];
      FeeAtRate(ts[..|ts| - 1], c);
      ExecutionAtRates(t);
      AtRateAdds(c.FeeRate(), TotalTurnover(ts[..|ts| - 1]), ExecutionOf(t).gross);
    }
  }

  /**
   Under one cost policy the fee ledger is the fee rate on turnover, the slippage ledger its rate on reference
   volume.
   */
  lemma CostLedgers(initial: real, ts: seq<Trade>, c: CostPolicy)
    requires Replay(initial, ts).Ok?
    requires forall k :: 0 <= k < |ts| ==> ts[k].costs == c
    ensures Replay(initial, ts).value.fee == AtRate(c.FeeRate(), Replay(initial, ts).value.turnover)
    ensures Replay(initial, ts).value.slippage == AtRate(c.SlipRate(), Volume(ts))
  {
    FeeAtRate(ts, c);
    LedgersAreTotals(initial, ts);
    SlippageAtRate(ts, c);
  }

  predicate Solvent(b: Book) {
    0.0 <= b.cash && 0.0 <= b.quantity && 0.0 <= b.fee && 0.0 <= b.slippage
  }

  lemma SolventStep(b: Book, t: Trade)
    requires Solvent(b) && Traded(b, t).Ok? && t.costs.Legal() && 0.0 <= t.reference
    ensures Solvent(Traded(b, t).value)
  {
    if 0.0 <= t.quantity {
      if t.Buy? {
        BuyCostsNonnegative(t.reference, t.quantity, t.costs);
      } else {
        SellCostsNonnegative(t.reference, t.quantity, t.costs);
      }
    }
  }

  /** No accepted history overdraws the account or sells short. */
  lemma {:induction false} NeverOverdrawn(initial: real, ts: seq<Trade>)
    requires 0.0 <= initial && Replay(initial, ts).Ok?
    requires forall k :: 0 <= k < |ts| ==> ts[k].costs.Legal() && 0.0 <= ts[k].reference
    ensures Solvent(Replay(initial, ts).value)
  {
    if ts != [] {
      NeverOverdrawn(initial, ts[..|ts| - 1]);
      SolventStep(Replay(initial, ts[..|ts| - 1]).value, ts[|ts| - 1]);
    }
  }

  // ---------- Two accounts trading in lockstep under cheaper and dearer costs ----------

  /** The base and the stress account of one simulation. */
  datatype Legs = Legs(base: Book, stress: Book)

  datatype LegCosts = LegCosts(base: CostPolicy, stress: CostPolicy)

  function BuyBoth(l: Legs, reference: real, quantity: real, c: LegCosts, opens: bool): Result<Legs, AccountError> {
    match Bought(l.base, reference, quantity, c.base, opens)
    case Err(e) => Err(e)
    case Ok(base) =>
      match Bought(l.stress, reference, quantity, c.stress, opens)
      case Err(e) => Err(e)
      case Ok(stress) => Ok(Legs(base, stress))
  }

  function SellBoth(l: Legs, reference: real, quantity: real, stressQuantity: real, c: LegCosts, closes: bool)
    : Result<Legs, AccountError>
  {
    match Sold(l.base, reference, quantity, c.base, closes)
    case Err(e) => Err(e)
    case Ok(base) =>
      match Sold(l.stress, reference, stressQuantity, c.stress, closes)
      case Err(e) => Err(e)
      case Ok(stress) => Ok(Legs(base, stress))
  }

  /** Move both holdings by the signed difference between the target and the base holding. */
  function Rebalance(l: Legs, reference: real, target: real, c: LegCosts): Result<Legs, AccountError> {
    var delta := target - l.base.quantity;
    if delta > 0.0 then BuyBoth(l, reference, delta, c, false)
    else if delta < 0.0 then SellBoth(l, reference, -delta, -delta, c, false)
    else Ok(l)
  }

  method BuyLegs(base: Account, stress: Account, reference: real, quantity: real, c: LegCosts, opens: bool)
    returns (refusal: Option<AccountError>)
    requires base != stress
    modifies base, stress
    ensures match BuyBoth(Legs(old(base.View()), old(stress.View())), reference, quantity, c, opens)
            case Ok(l) => refusal == None && l == Legs(base.View(), stress.View())
            case Err(e) => refusal == Some(e)
  {
    refusal := base.Buy(reference, quantity, c.base, opens);
    if refusal.None? {
      refusal := stress.Buy(reference, quantity, c.stress, opens);
    }
  }

  method SellLegs(base: Account, stress: Account, reference: real, quantity: real, stressQuantity: real, c: LegCosts,
      closes: bool)
    returns (refusal: Option<AccountError>)
    requires base != stress
    modifies base, stress
    ensures match SellBoth(Legs(old(base.View()), old(stress.View())), reference, quantity, stressQuantity, c, closes)
            case Ok(l) => refusal == None && l == Legs(base.View(), stress.View())
            case Err(e) => refusal == Some(e)
  {
    refusal := base.Sell(reference, quantity, c.base, closes);
    if refusal.None? {
      refusal := stress.Sell(reference, stressQuantity, c.stress, closes);
    }
  }

  method RebalanceLegs(base: Account, stress: Account, reference: real, target: real, c: LegCosts)
    returns (refusal: Option<AccountError>)
    requires base != stress
    modifies base, stress
    ensures match Rebalance(Legs(old(base.View()), old(stress.View())), reference, target, c)
            case Ok(l) => refusal == None && l == Legs(base.View(), stress.View())
            case Err(e) => refusal == Some(e)
  {
    var delta := target - base.quantity;
    refusal := None;
    if delta > 0.0 {
      refusal := BuyLegs(base, stress, reference, delta, c, false);
    } else if delta < 0.0 {
      refusal := SellLegs(base, stress, reference, -delta, -delta, c, false);
    }
  }

  predicate Dominates(base: Book, stress: Book) {
    && base.quantity == stress.quantity
    && 0.0 <= base.quantity
    && stress.cash <= base.cash
    && base.cycle.Some? == stress.cycle.Some?
    && stress.OpenFlow() <= base.OpenFlow()
    && NowhereAbove(stress.realized, base.realized)
  }

  lemma BuyKeepsDominance(b: Book, s: Book, reference: real, quantity: real, c: CostPolicy, d: CostPolicy, opens: bool)
    requires Dominates(b, s) && c.Legal() && d.Legal() && c.Within(d) && 0.0 <= reference
    requires Bought(b, reference, quantity, c, opens).Ok? && Bought(s, reference, quantity, d, opens).Ok?
    ensures Dominates(Bought(b, reference, quantity, c, opens).value, Bought(s, reference, quantity, d, opens).value)
  {
    BuyDominance(reference, quantity, c, d);
  }

  lemma SellKeepsDominance(b: Book, s: Book, reference: real, quantity: real, c: CostPolicy, d: CostPolicy,
      closes: bool)
    requires Dominates(b, s) && c.Legal() && d.Legal() && c.Within(d) && 0.0 <= reference
    requires Sold(b, reference, quantity, c, closes).Ok? && Sold(s, reference, quantity, d, closes).Ok?
    ensures Dominates(Sold(b, reference, quantity, c, closes).value, Sold(s, reference, quantity, d, closes).value)
  {
    SellDominance(reference, quantity, c, d);
    var base, stress := Reduced(b, reference, quantity, c), Reduced(s, reference, quantity, d);
    NowhereAboveAppend(s.realized, b.realized, stress.OpenFlow(), base.OpenFlow());
  }

  /** One trade of a lockstep pair, under cheaper costs c and dearer costs d. */
  lemma TradeKeepsDominance(b: Book, s: Book, t: Trade, d: CostPolicy)
    requires Dominates(b, s) && t.costs.Legal() && d.Legal() && t.costs.Within(d) && 0.0 <= t.reference
    requires Traded(b, t).Ok? && Traded(s, t.(costs := d)).Ok?
    ensures Dominates(Traded(b, t).value, Traded(s, t.(costs := d)).value)
  {
    if t.Buy? {
      BuyKeepsDominance(b, s, t.reference, t.quantity, t.costs, d, t.opens);
    } else {
      SellKeepsDominance(b, s, t.reference, t.quantity, t.costs, d, t.closes);
    }
  }

  lemma EquityDominance(b: Book, s: Book, mark: real, c: CostPolicy, d: CostPolicy)
    requires Dominates(b, s) && c.Legal() && d.Legal() && c.Within(d) && 0.0 <= mark
    ensures s.Equity(mark, d) <= b.Equity(mark, c)
  {
    LiquidationIsSale(mark, b.quantity, c);
    LiquidationIsSale(mark, b.quantity, d);
    SellDominance(mark, b.quantity, c, d);
  }

  /** If the dearer account can trade, so can the cheaper one: only the stress leg can add a refusal. */
  lemma StressRefusesFirst(b: Book, s: Book, t: Trade, d: CostPolicy)
    requires Dominates(b, s) && t.costs.Legal() && d.Legal() && t.costs.Within(d) && 0.0 <= t.reference
    requires Traded(s, t.(costs := d)).Ok?
    ensures Traded(b, t).Ok?
  {
    if t.Buy? {
      BuyDominance(t.reference, t.quantity, t.costs, d);
    }
  }
}
