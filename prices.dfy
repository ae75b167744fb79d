/** The price arithmetic around the calculator: the percentage fall from the
    initial price, the price at which the loan reaches a given LTV, what it
    takes to reach a safer LTV, and the split of a liquidation at 80 % LTV.
    Where Python would divide by zero, the divisor is required to be non-zero. */
module Prices {
  import opened Wrappers
  import opened Loan
  import opened Rebalance

  /** calculate_price_drop: how far, in percent of the initial price, the
      price has fallen (negative when it rose). */
  function PriceDrop(initialPrice: real, currentPrice: real): real
    requires initialPrice != 0.0
  {
    (initialPrice - currentPrice) / initialPrice * 100.0
  }

  /** Reference definition: the price left after a fall of `percent` percent. */
  function PriceAfterDrop(initialPrice: real, percent: real): real {
    initialPrice * (1.0 - percent / 100.0)
  }

  /** The drop and the price after a drop invert each other. */
  lemma PriceDropRoundTrip(initialPrice: real, currentPrice: real, percent: real)
    requires initialPrice != 0.0
    ensures PriceDrop(initialPrice, PriceAfterDrop(initialPrice, percent)) == percent
    ensures PriceAfterDrop(initialPrice, PriceDrop(initialPrice, currentPrice)) == currentPrice
  {
    var d := PriceDrop(initialPrice, currentPrice);
    assert d / 100.0 == (initialPrice - currentPrice) / initialPrice;
    assert initialPrice * ((initialPrice - currentPrice) / initialPrice) == initialPrice - currentPrice;
  }

  /** No move is no drop, halving is a 50 % drop, doubling is a -100 % drop. */
  lemma PriceDropExamples(initialPrice: real)
    requires initialPrice != 0.0
    ensures PriceDrop(initialPrice, initialPrice) == 0.0
    ensures PriceDrop(initialPrice, initialPrice / 2.0) == 50.0
    ensures PriceDrop(initialPrice, 2.0 * initialPrice) == -100.0
  {
    PriceDropRoundTrip(initialPrice, initialPrice, 0.0);
    PriceDropRoundTrip(initialPrice, initialPrice, 50.0);
    PriceDropRoundTrip(initialPrice, initialPrice, -100.0);
  }

  /** From a positive initial price, the drop is positive exactly when the
      price fell, negative exactly when it rose, and zero exactly when it held. */
  lemma PriceDropSign(initialPrice: real, currentPrice: real)
    requires initialPrice > 0.0
    ensures PriceDrop(initialPrice, currentPrice) > 0.0 <==> currentPrice < initialPrice
    ensures PriceDrop(initialPrice, currentPrice) < 0.0 <==> currentPrice > initialPrice
    ensures PriceDrop(initialPrice, currentPrice) == 0.0 <==> currentPrice == initialPrice
  {
    var q := (initialPrice - currentPrice) / initialPrice;
    assert q * initialPrice == initialPrice - currentPrice;
    if q > 0.0 {
      assert q * initialPrice > 0.0;
    } else if q < 0.0 {
      assert q * initialPrice < 0.0;
    }
  }

  /** The price at which `btc` coins back a loan of `loanAmount` at exactly
      `ltvPercent` percent LTV. */
  function PriceAtLtv(loanAmount: real, btc: real, ltvPercent: real): real
    requires btc != 0.0 && ltvPercent != 0.0
  {
    loanAmount / (btc * (ltvPercent / 100.0))
  }

  /** At the price for X % LTV the loan is at exactly X % LTV. */
  lemma PriceAtLtvHitsLtv(loanAmount: real, btc: real, ltvPercent: real)
    requires loanAmount != 0.0 && btc != 0.0 && ltvPercent != 0.0
    ensures btc * PriceAtLtv(loanAmount, btc, ltvPercent) != 0.0
    ensures Ltv(loanAmount, btc, PriceAtLtv(loanAmount, btc, ltvPercent)) == ltvPercent
  {
    var p := PriceAtLtv(loanAmount, btc, ltvPercent);
    var k := btc * (ltvPercent / 100.0);
    assert p * k == loanAmount;
    assert btc * p == loanAmount / (ltvPercent / 100.0);
  }

  /** On a positive loan the LTV reaches X % exactly when the price is at or
      below the price for X % LTV: that price is where a trigger of X starts
      to fire. */
  lemma TriggerPriceThreshold(loanAmount: real, btc: real, ltvPercent: real, price: real)
    requires loanAmount > 0.0 && btc > 0.0 && ltvPercent > 0.0 && price > 0.0
    ensures btc * price != 0.0
    ensures Ltv(loanAmount, btc, price) >= ltvPercent <==> price <= PriceAtLtv(loanAmount, btc, ltvPercent)
  {
    var p := PriceAtLtv(loanAmount, btc, ltvPercent);
    PriceAtLtvHitsLtv(loanAmount, btc, ltvPercent);
    PriceAtLtvPositive(loanAmount, btc, ltvPercent);
    if price < p {
      ScaleStrict(btc, price, p);
      LoanOverValueDecreasing(loanAmount, btc * price, btc * p);
    } else if p < price {
      ScaleStrict(btc, p, price);
      LoanOverValueDecreasing(loanAmount, btc * p, btc * price);
    }
  }

  lemma PriceAtLtvPositive(loanAmount: real, btc: real, ltvPercent: real)
    requires loanAmount > 0.0 && btc > 0.0 && ltvPercent > 0.0
    ensures PriceAtLtv(loanAmount, btc, ltvPercent) > 0.0
  {
    var k := btc * (ltvPercent / 100.0);
    assert k > 0.0;
    assert PriceAtLtv(loanAmount, btc, ltvPercent) * k == loanAmount;
  }

  lemma ScaleStrict(b: real, x: real, y: real)
    requires b > 0.0 && 0.0 < x < y
    ensures 0.0 < b * x < b * y
  {
  }

  /** Evaluating the calculator at the price for X % LTV reports exactly X %
      as the current LTV, so a trigger of X (or any lower one) fires. */
  lemma PriceAtLtvFiresTrigger(s: LoanState, ltvPercent: real, ltvTrigger: real)
    requires Valid(s) && ltvPercent > 0.0
    ensures var p := PriceAtLtv(s.loanAmount, s.btcCollateral, ltvPercent);
      && CalculateRebalance(s, p, ltvTrigger).Success?
      && CalculateRebalance(s, p, ltvTrigger).value.currentLtv == ltvPercent
      && (CalculateRebalance(s, p, ltvTrigger).value.needsRebalance <==> ltvTrigger <= ltvPercent)
  {
    var p := PriceAtLtv(s.loanAmount, s.btcCollateral, ltvPercent);
    PriceAtLtvHitsLtv(s.loanAmount, s.btcCollateral, ltvPercent);
    PriceAtLtvPositive(s.loanAmount, s.btcCollateral, ltvPercent);
    ValidNeverFails(s, p, ltvTrigger);
    TriggerDecision(s, p, ltvTrigger);
  }

  /** One row of the "Target LTV Scenarios" table: how much BTC, bought at
      the 70 % LTV price, would bring the loan to `targetLtv`, what it costs,
      and at what price the loan would reach `targetLtv` without buying. */
  datatype TargetScenario = TargetScenario(
    targetLtv: real,
    btcNeeded: real,
    euroValueNeeded: real,
    priceAtTargetLtv: real,
    priceDrop: real)

  function TargetScenarioAt(loanAmount: real, btc: real, priceAt70: real, initialPrice: real, targetLtv: real): TargetScenario
    requires priceAt70 != 0.0 && btc != 0.0 && targetLtv != 0.0 && initialPrice != 0.0
  {
    var btcNeeded := loanAmount / (priceAt70 * (targetLtv / 100.0)) - btc;
    var priceAtTarget := loanAmount / (btc * (targetLtv / 100.0));
    TargetScenario(targetLtv, btcNeeded, btcNeeded * priceAt70, priceAtTarget, PriceDrop(initialPrice, priceAtTarget))
  }

  /** Buying the listed BTC at the quoted price puts the loan exactly at the
      target LTV, its euro cost is the gap to the target collateral value,
      and the listed price is the price for the target LTV. */
  lemma TargetPurchaseReachesTarget(loanAmount: real, btc: real, priceAt70: real, initialPrice: real, targetLtv: real)
    requires loanAmount != 0.0 && priceAt70 != 0.0 && btc != 0.0 && targetLtv != 0.0 && initialPrice != 0.0
    ensures var t := TargetScenarioAt(loanAmount, btc, priceAt70, initialPrice, targetLtv);
      && (btc + t.btcNeeded) * priceAt70 != 0.0
      && Ltv(loanAmount, btc + t.btcNeeded, priceAt70) == targetLtv
      && t.euroValueNeeded == loanAmount / (targetLtv / 100.0) - btc * priceAt70
      && t.priceAtTargetLtv == PriceAtLtv(loanAmount, btc, targetLtv)
  {
    var t := TargetScenarioAt(loanAmount, btc, priceAt70, initialPrice, targetLtv);
    var k := priceAt70 * (targetLtv / 100.0);
    var total := loanAmount / k;
    assert btc + t.btcNeeded == total;
    assert total * k == loanAmount;
    assert total * priceAt70 == loanAmount / (targetLtv / 100.0);
    assert loanAmount / (total * priceAt70) == targetLtv / 100.0;
  }

  /** Quoted at the 70 % LTV price, the BTC needed for a target below 70 % is
      `btc * (70 / target - 1)`, so positive. */
  lemma TargetPurchaseFromPriceAt70(loanAmount: real, btc: real, initialPrice: real, targetLtv: real)
    requires loanAmount > 0.0 && btc > 0.0 && initialPrice != 0.0 && 0.0 < targetLtv < 70.0
    ensures PriceAtLtv(loanAmount, btc, 70.0) != 0.0
    ensures var t := TargetScenarioAt(loanAmount, btc, PriceAtLtv(loanAmount, btc, 70.0), initialPrice, targetLtv);
      && t.btcNeeded == btc * (70.0 / targetLtv - 1.0)
      && t.btcNeeded > 0.0
  {
    var p := PriceAtLtv(loanAmount, btc, 70.0);
    assert p * (btc * 0.7) == loanAmount;
    assert p > 0.0;
    var k := p * (targetLtv / 100.0);
    assert loanAmount / k == btc * 0.7 / (targetLtv / 100.0) by {
      assert (btc * 0.7 / (targetLtv / 100.0)) * k == loanAmount;
    }
    assert btc * 0.7 / (targetLtv / 100.0) == btc * (70.0 / targetLtv);
    assert 70.0 / targetLtv > 1.0;
  }

  /** The LTV targets listed in the "Target LTV Scenarios" table, in order. */
  const TargetLtvs: seq<real> := [65.0, 60.0, 55.0]

  /** The table: one row per target, in the order of the targets. */
  function TargetScenarios(loanAmount: real, btc: real, priceAt70: real, initialPrice: real, targets: seq<real>): (rows: seq<TargetScenario>)
    requires priceAt70 != 0.0 && btc != 0.0 && initialPrice != 0.0
    requires forall i :: 0 <= i < |targets| ==> targets[i] != 0.0
    ensures |rows| == |targets|
    ensures forall i :: 0 <= i < |targets| ==> rows[i] == TargetScenarioAt(loanAmount, btc, priceAt70, initialPrice, targets[i])
    decreases |targets|
  {
    if targets == [] then
      []
    else
      [TargetScenarioAt(loanAmount, btc, priceAt70, initialPrice, targets[0])]
      + TargetScenarios(loanAmount, btc, priceAt70, initialPrice, targets[1..])
  }

  /** The liquidation scenario at 80 % LTV: the price, its drop from the
      initial price, and how the collateral splits between the BTC sold to
      repay the loan and the BTC left over, in coins and in euros. */
  datatype Liquidation = Liquidation(
    price: real,
    priceDrop: real,
    btcToSell: real,
    btcRemaining: real,
    euroValueSold: real,
    euroValueRemaining: real)

  function LiquidationAt80(loanAmount: real, btc: real, initialPrice: real): Liquidation
    requires loanAmount != 0.0 && btc != 0.0 && initialPrice != 0.0
  {
    var price := PriceAtLtv(loanAmount, btc, 80.0);
    assert price != 0.0 by {
      assert price * (btc * 0.8) == loanAmount;
    }
    var btcToSell := loanAmount / price;
    var btcRemaining := btc - btcToSell;
    Liquidation(price, PriceDrop(initialPrice, price), btcToSell, btcRemaining, btcToSell * price, btcRemaining * price)
  }

  /** At 80 % LTV the sale repays exactly the loan with 80 % of the coins; the
      other 20 %, worth a quarter of the loan, are what is left. */
  lemma LiquidationSplit(loanAmount: real, btc: real, initialPrice: real)
    requires loanAmount != 0.0 && btc != 0.0 && initialPrice != 0.0
    ensures var l := LiquidationAt80(loanAmount, btc, initialPrice);
      && l.btcToSell == 0.8 * btc
      && l.btcRemaining == 0.2 * btc
      && l.euroValueSold == loanAmount
      && l.euroValueRemaining == loanAmount / 4.0
      && l.euroValueSold + l.euroValueRemaining == btc * l.price
  {
    var l := LiquidationAt80(loanAmount, btc, initialPrice);
    assert l.price * (btc * 0.8) == loanAmount;
    assert l.btcToSell == 0.8 * btc;
    assert l.euroValueSold == loanAmount;
    assert l.btcRemaining * l.price == 0.2 * (btc * l.price);
    assert btc * l.price == loanAmount / 0.8;
  }
}
