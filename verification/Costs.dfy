/**
 Fee and adverse-slippage arithmetic shared by every research account.
 Decimal values are exact reals here.
 */
module Costs {
  import opened Basics

  datatype CostPolicy = CostPolicy(feeBps: real, slippageBps: real)
  {
    function FeeRate(): (rate: real)
      ensures rate * 10000.0 == feeBps
    {
      feeBps / 10000.0
    }

    function SlipRate(): (rate: real)
      ensures rate * 10000.0 == slippageBps
    {
      slippageBps / 10000.0
    }

    /** A policy whose rates lie between nothing and the whole notional. */
    predicate Legal() {
      0.0 <= feeBps <= 10000.0 && 0.0 <= slippageBps <= 10000.0
    }

    /** This policy charges no more than the other on both components. */
    predicate Within(stress: CostPolicy) {
      feeBps <= stress.feeBps && slippageBps <= stress.slippageBps
    }
  }

  /** What one execution moves: traded notional, fee, and slippage against the reference. */
  datatype Execution = Execution(gross: real, fee: real, slippage: real)

  function BuyExecution(reference: real, quantity: real, c: CostPolicy): Execution {
    var price := reference * (1.0 + c.SlipRate());
    var gross := quantity * price;
    Execution(gross, gross * c.FeeRate(), quantity * (price - reference))
  }

  function SellExecution(reference: real, quantity: real, c: CostPolicy): Execution {
    var price := reference * (1.0 - c.SlipRate());
    var gross := quantity * price;
    Execution(gross, gross * c.FeeRate(), quantity * (reference - price))
  }

  function BuyDebit(reference: real, quantity: real, c: CostPolicy): real {
    var e := BuyExecution(reference, quantity, c);
    e.gross + e.fee
  }

  function SellProceeds(reference: real, quantity: real, c: CostPolicy): real {
    var e := SellExecution(reference, quantity, c);
    e.gross - e.fee
  }

  /** A charge of so much per unit. */
  function AtRate(rate: real, amount: real): real {
    rate * amount
  }

  /** Value of a holding if it were sold at the mark. */
  function Liquidation(mark: real, quantity: real, c: CostPolicy): real {
    quantity * (mark * (1.0 - c.SlipRate())) * (1.0 - c.FeeRate())
  }

  lemma MulOrder(a: real, b: real, x: real, y: real)
    requires 0.0 <= a <= b && 0.0 <= x <= y
    ensures 0.0 <= a * x <= b * y
  {
    assert a * x <= a * y;
    assert a * y <= b * y;
  }

  lemma NotionalOrder(q: real, r: real, price: real)
    requires 0.0 <= price && 0.0 <= q <= r
    ensures Notional(q, price) <= Notional(r, price)
  {
    MulOrder(q, r, price, price);
  }

  lemma RatesOrdered(c: CostPolicy, d: CostPolicy)
    requires c.Legal() && d.Legal() && c.Within(d)
    ensures 0.0 <= c.FeeRate() <= d.FeeRate() <= 1.0
    ensures 0.0 <= c.SlipRate() <= d.SlipRate() <= 1.0
  {
  }

  /** A buyer pays the reference notional plus slippage plus fee, and nothing else. */
  lemma BuyDecomposes(reference: real, quantity: real, c: CostPolicy)
    ensures BuyDebit(reference, quantity, c)
         == quantity * reference
          + BuyExecution(reference, quantity, c).slippage + BuyExecution(reference, quantity, c).fee
    ensures BuyExecution(reference, quantity, c).slippage == c.SlipRate() * (quantity * reference)
    ensures BuyExecution(reference, quantity, c).fee == c.FeeRate() * BuyExecution(reference, quantity, c).gross
  {
    var price := reference * (1.0 + c.SlipRate());
    assert quantity * (price - reference) == quantity * price - quantity * reference;
    assert price - reference == reference * c.SlipRate();
    assert quantity * (reference * c.SlipRate()) == c.SlipRate() * (quantity * reference);
  }

  /** A seller receives the reference notional less slippage less fee. */
  lemma SellDecomposes(reference: real, quantity: real, c: CostPolicy)
    ensures SellProceeds(reference, quantity, c)
         == quantity * reference
          - SellExecution(reference, quantity, c).slippage - SellExecution(reference, quantity, c).fee
    ensures SellExecution(reference, quantity, c).slippage == c.SlipRate() * (quantity * reference)
    ensures SellExecution(reference, quantity, c).fee == c.FeeRate() * SellExecution(reference, quantity, c).gross
  {
    var price := reference * (1.0 - c.SlipRate());
    assert quantity * (reference - price) == quantity * reference - quantity * price;
    assert reference - price == reference * c.SlipRate();
    assert quantity * (reference * c.SlipRate()) == c.SlipRate() * (quantity * reference);
  }

  lemma SellCostsNonnegative(reference: real, quantity: real, c: CostPolicy)
    requires c.Legal() && 0.0 <= reference && 0.0 <= quantity
    ensures 0.0 <= SellProceeds(reference, quantity, c)
    ensures 0.0 <= SellExecution(reference, quantity, c).fee
    ensures 0.0 <= SellExecution(reference, quantity, c).slippage
    ensures 0.0 <= SellExecution(reference, quantity, c).gross
  {
    SellDecomposes(reference, quantity, c);
    RatesOrdered(c, c);
    MulOrder(0.0, reference, 0.0, 1.0 - c.SlipRate());
    var price := reference * (1.0 - c.SlipRate());
    MulOrder(0.0, quantity, 0.0, price);
    MulOrder(0.0, quantity, 0.0, reference);
    MulOrder(0.0, c.SlipRate(), 0.0, quantity * reference);
    var gross := quantity * price;
    MulOrder(0.0, gross, 0.0, c.FeeRate());
    MulOrder(0.0, gross, 0.0, 1.0 - c.FeeRate());
    assert gross - gross * c.FeeRate() == gross * (1.0 - c.FeeRate());
  }

  lemma BuyCostsNonnegative(reference: real, quantity: real, c: CostPolicy)
    requires c.Legal() && 0.0 <= reference && 0.0 <= quantity
    ensures 0.0 <= BuyDebit(reference, quantity, c)
    ensures 0.0 <= BuyExecution(reference, quantity, c).fee
    ensures 0.0 <= BuyExecution(reference, quantity, c).slippage
    ensures 0.0 <= BuyExecution(reference, quantity, c).gross
  {
    BuyDecomposes(reference, quantity, c);
    RatesOrdered(c, c);
    MulOrder(0.0, reference, 0.0, 1.0 + c.SlipRate());
    var price := reference * (1.0 + c.SlipRate());
    MulOrder(0.0, quantity, 0.0, price);
    MulOrder(0.0, quantity, 0.0, reference);
    MulOrder(0.0, c.SlipRate(), 0.0, quantity * reference);
    MulOrder(0.0, quantity * price, 0.0, c.FeeRate());
  }

  /** Dearer costs never make the same purchase cheaper. */
  lemma BuyDominance(reference: real, quantity: real, c: CostPolicy, d: CostPolicy)
    requires c.Legal() && d.Legal() && c.Within(d) && 0.0 <= reference && 0.0 <= quantity
    ensures BuyDebit(reference, quantity, c) <= BuyDebit(reference, quantity, d)
  {
    RatesOrdered(c, d);
    MulOrder(reference, reference, 1.0 + c.SlipRate(), 1.0 + d.SlipRate());
    var p, q := reference * (1.0 + c.SlipRate()), reference * (1.0 + d.SlipRate());
    MulOrder(quantity, quantity, p, q);
    MulOrder(quantity * p, quantity * q, c.FeeRate(), d.FeeRate());
  }

  /** Dearer costs never make the same sale worth more. */
  lemma SellDominance(reference: real, quantity: real, c: CostPolicy, d: CostPolicy)
    requires c.Legal() && d.Legal() && c.Within(d) && 0.0 <= reference && 0.0 <= quantity
    ensures 0.0 <= SellProceeds(reference, quantity, d) <= SellProceeds(reference, quantity, c)
  {
    LiquidationIsSale(reference, quantity, c);
    LiquidationIsSale(reference, quantity, d);
    RatesOrdered(c, d);
    MulOrder(reference, reference, 1.0 - d.SlipRate(), 1.0 - c.SlipRate());
    var p, q := reference * (1.0 - d.SlipRate()), reference * (1.0 - c.SlipRate());
    MulOrder(quantity, quantity, p, q);
    MulOrder(quantity * p, quantity * q, 1.0 - d.FeeRate(), 1.0 - c.FeeRate());
  }

  /** Marking a holding and selling it at the mark give the same value. */
  lemma LiquidationIsSale(mark: real, quantity: real, c: CostPolicy)
    ensures Liquidation(mark, quantity, c) == SellProceeds(mark, quantity, c)
  {
    var gross := quantity * (mark * (1.0 - c.SlipRate()));
    assert gross - gross * c.FeeRate() == gross * (1.0 - c.FeeRate());
  }
}
