/** BitcoinLoanCalculator.calculate_rebalance: given a snapshot, a new price
    and an LTV trigger, decide whether to buy collateral with the cash
    reserve, how much, and what the loan looks like afterwards. */
module Rebalance {
  import opened Wrappers
  import opened Loan

  /** The one way the calculation fails: a division whose divisor is zero,
      which Python reports as ZeroDivisionError. */
  datatype Error = ZeroDivision

  /** The dictionary calculate_rebalance returns. `totalBtcNeeded` is absent
      (None) when no rebalance is needed, as the key is absent there. */
  datatype RebalanceResult = RebalanceResult(
    needsRebalance: bool,
    currentLtv: real,
    btcToBuy: real,
    cashNeeded: real,
    canFullyRebalance: bool,
    newBtcTotal: real,
    newLtv: real,
    cashUsed: real,
    cashRemaining: real,
    totalCashRequired: real,
    totalBtcNeeded: Option<real>)

  /** Value the collateral must have for the loan to sit at its original
      ratio again (the ratio, not the trigger, is the restoration target). */
  function TargetCollateralValue(s: LoanState): real
    requires s.ltvRatio != 0.0
  {
    s.loanAmount / (s.ltvRatio / 100.0)
  }

  /** Cash a full rebalance at `newPrice` would cost: the gap between the
      target collateral value and the value of the collateral now. */
  function RequiredCash(s: LoanState, newPrice: real): real
    requires s.ltvRatio != 0.0
  {
    TargetCollateralValue(s) - s.btcCollateral * newPrice
  }

  /** The rebalance decision at `newPrice` for a loan that fires at
      `ltvTrigger` percent LTV: nothing below the trigger; otherwise buy the
      BTC that restores the original ratio if the reserve covers it, or spend
      the whole reserve if it does not. */
  function CalculateRebalance(s: LoanState, newPrice: real, ltvTrigger: real): Result<RebalanceResult, Error> {
    var newCollateralValue := s.btcCollateral * newPrice;
    if newCollateralValue == 0.0 then Failure(ZeroDivision)
    else
      var currentLtv := Ltv(s.loanAmount, s.btcCollateral, newPrice);
      if currentLtv < ltvTrigger then
        Success(RebalanceResult(
          needsRebalance := false,
          currentLtv := currentLtv,
          btcToBuy := 0.0,
          cashNeeded := 0.0,
          canFullyRebalance := true,
          newBtcTotal := s.btcCollateral,
          newLtv := currentLtv,
          cashUsed := 0.0,
          cashRemaining := s.remainingCash,
          totalCashRequired := 0.0,
          totalBtcNeeded := None))
      else if s.ltvRatio == 0.0 then Failure(ZeroDivision)
      else
        var additionalCollateralNeeded := RequiredCash(s, newPrice);
        assert newPrice != 0.0;
        var totalBtcNeeded := additionalCollateralNeeded / newPrice;
        var totalCashRequired := totalBtcNeeded * newPrice;
        var canFullyRebalance := totalCashRequired <= s.remainingCash;
        if !canFullyRebalance then
          var actualBtcToBuy := s.remainingCash / newPrice;
          Rebalanced(s, newPrice, currentLtv, false, actualBtcToBuy, s.remainingCash,
                     s.btcCollateral + actualBtcToBuy, totalCashRequired, totalBtcNeeded)
        else
          Rebalanced(s, newPrice, currentLtv, true, totalBtcNeeded, totalCashRequired,
                     s.btcCollateral + totalBtcNeeded, totalCashRequired, totalBtcNeeded)
  }

  /** The tail shared by the full and the partial rebalance: value the new
      collateral at the new price and report the purchase. */
  function Rebalanced(
    s: LoanState, newPrice: real, currentLtv: real, canFullyRebalance: bool,
    actualBtcToBuy: real, cashUsed: real, newBtcTotal: real,
    totalCashRequired: real, totalBtcNeeded: real): Result<RebalanceResult, Error>
  {
    var newCollateralValue := newBtcTotal * newPrice;
    if newCollateralValue == 0.0 then
      Failure(ZeroDivision)
    else
      Success(RebalanceResult(
        needsRebalance := true,
        currentLtv := currentLtv,
        btcToBuy := actualBtcToBuy,
        cashNeeded := cashUsed,
        canFullyRebalance := canFullyRebalance,
        newBtcTotal := newBtcTotal,
        newLtv := Ltv(s.loanAmount, newBtcTotal, newPrice),
        cashUsed := cashUsed,
        cashRemaining := s.remainingCash - cashUsed,
        totalCashRequired := totalCashRequired,
        totalBtcNeeded := Some(totalBtcNeeded)))
  }

  /** The calculation fails when no value can be put on the collateral at
      the new price (it also fails past the trigger on a zero ratio, or when
      the new collateral is worth nothing) ... */
  lemma ZeroCollateralValueFails(s: LoanState, newPrice: real, ltvTrigger: real)
    requires s.btcCollateral * newPrice == 0.0
    ensures CalculateRebalance(s, newPrice, ltvTrigger) == Failure(ZeroDivision)
  {
  }

  /** ... and never on a valid snapshot at a positive price, whatever the
      trigger. */
  lemma ValidNeverFails(s: LoanState, newPrice: real, ltvTrigger: real)
    requires Valid(s) && newPrice > 0.0
    ensures CalculateRebalance(s, newPrice, ltvTrigger).Success?
  {
    var v := s.btcCollateral * newPrice;
    assert v > 0.0;
    var ltv := s.loanAmount / v * 100.0;
    if ltv >= ltvTrigger {
      var totalBtcNeeded := (TargetCollateralValue(s) - v) / newPrice;
      var totalCashRequired := totalBtcNeeded * newPrice;
      assert totalCashRequired == TargetCollateralValue(s) - v;
      assert TargetCollateralValue(s) > 0.0;
      if totalCashRequired <= s.remainingCash {
        assert (s.btcCollateral + totalBtcNeeded) * newPrice == TargetCollateralValue(s);
      } else {
        assert (s.btcCollateral + s.remainingCash / newPrice) * newPrice == v + s.remainingCash;
      }
    }
  }

  /** The decision: the current LTV is the loan over the collateral's value at
      the new price, and a rebalance is flagged iff it reaches the trigger. */
  lemma TriggerDecision(s: LoanState, newPrice: real, ltvTrigger: real)
    requires CalculateRebalance(s, newPrice, ltvTrigger).Success?
    ensures s.btcCollateral * newPrice != 0.0
    ensures var r := CalculateRebalance(s, newPrice, ltvTrigger).value;
      && r.currentLtv == Ltv(s.loanAmount, s.btcCollateral, newPrice)
      && (r.needsRebalance <==> Ltv(s.loanAmount, s.btcCollateral, newPrice) >= ltvTrigger)
  {
  }

  /** Below the trigger nothing is bought or spent and the loan is unchanged. */
  lemma NoRebalanceBelowTrigger(s: LoanState, newPrice: real, ltvTrigger: real)
    requires s.btcCollateral * newPrice != 0.0
    requires Ltv(s.loanAmount, s.btcCollateral, newPrice) < ltvTrigger
    ensures CalculateRebalance(s, newPrice, ltvTrigger).Success?
    ensures var r := CalculateRebalance(s, newPrice, ltvTrigger).value;
      && !r.needsRebalance
      && r.btcToBuy == 0.0 && r.cashUsed == 0.0 && r.cashNeeded == 0.0
      && r.cashRemaining == s.remainingCash
      && r.newBtcTotal == s.btcCollateral
      && r.newLtv == r.currentLtv == Ltv(s.loanAmount, s.btcCollateral, newPrice)
      && r.canFullyRebalance
      && r.totalCashRequired == 0.0 && r.totalBtcNeeded == None
  {
  }

  /** When the reserve covers the whole gap, exactly that gap is spent and the
      loan lands exactly on its original ratio (not on the trigger). */
  lemma FullRebalanceRestoresTarget(s: LoanState, newPrice: real, ltvTrigger: real)
    requires s.btcCollateral * newPrice != 0.0 && s.ltvRatio != 0.0 && s.loanAmount != 0.0
    requires Ltv(s.loanAmount, s.btcCollateral, newPrice) >= ltvTrigger
    requires RequiredCash(s, newPrice) <= s.remainingCash
    ensures CalculateRebalance(s, newPrice, ltvTrigger).Success?
    ensures var r := CalculateRebalance(s, newPrice, ltvTrigger).value;
      && r.needsRebalance && r.canFullyRebalance
      && r.totalBtcNeeded == Some(r.btcToBuy)
      && r.btcToBuy * newPrice == RequiredCash(s, newPrice)
      && r.cashUsed == r.totalCashRequired == RequiredCash(s, newPrice)
      && r.cashRemaining == s.remainingCash - RequiredCash(s, newPrice)
      && r.newBtcTotal * newPrice == TargetCollateralValue(s)
      && r.newLtv == s.ltvRatio
  {
    RestoreArithmetic(s.loanAmount, s.btcCollateral, s.ltvRatio, newPrice);
    var totalBtcNeeded := RequiredCash(s, newPrice) / newPrice;
    FullBranchCall(s, newPrice, ltvTrigger);
    RebalancedFields(s, newPrice, Ltv(s.loanAmount, s.btcCollateral, newPrice), true, totalBtcNeeded,
                     totalBtcNeeded * newPrice, s.btcCollateral + totalBtcNeeded,
                     totalBtcNeeded * newPrice, totalBtcNeeded);
  }

  /** The shared tail succeeds once the new collateral has a value, and then
      reports the purchase it was given, flags a rebalance, takes the cash
      used out of the reserve and prices the new LTV on the new collateral. */
  lemma RebalancedFields(
    s: LoanState, newPrice: real, currentLtv: real, canFullyRebalance: bool,
    actualBtcToBuy: real, cashUsed: real, newBtcTotal: real,
    totalCashRequired: real, totalBtcNeeded: real)
    requires newBtcTotal * newPrice != 0.0
    ensures var r := Rebalanced(s, newPrice, currentLtv, canFullyRebalance, actualBtcToBuy, cashUsed,
                                newBtcTotal, totalCashRequired, totalBtcNeeded);
      && r.Success?
      && r.value.needsRebalance
      && r.value.currentLtv == currentLtv
      && r.value.canFullyRebalance == canFullyRebalance
      && r.value.btcToBuy == actualBtcToBuy
      && r.value.cashUsed == r.value.cashNeeded == cashUsed
      && r.value.cashRemaining == s.remainingCash - cashUsed
      && r.value.newBtcTotal == newBtcTotal
      && r.value.newLtv == Ltv(s.loanAmount, newBtcTotal, newPrice)
      && r.value.totalCashRequired == totalCashRequired
      && r.value.totalBtcNeeded == Some(totalBtcNeeded)
  {
  }

  /** Past the trigger and with the reserve covering the gap, the calculation
      takes the full-rebalance branch. */
  lemma FullBranchCall(s: LoanState, newPrice: real, ltvTrigger: real)
    requires s.btcCollateral * newPrice != 0.0 && s.ltvRatio != 0.0
    requires Ltv(s.loanAmount, s.btcCollateral, newPrice) >= ltvTrigger
    requires newPrice != 0.0
    requires RequiredCash(s, newPrice) / newPrice * newPrice <= s.remainingCash
    ensures var totalBtcNeeded := RequiredCash(s, newPrice) / newPrice;
      CalculateRebalance(s, newPrice, ltvTrigger)
      == Rebalanced(s, newPrice, Ltv(s.loanAmount, s.btcCollateral, newPrice), true, totalBtcNeeded,
                    totalBtcNeeded * newPrice, s.btcCollateral + totalBtcNeeded,
                    totalBtcNeeded * newPrice, totalBtcNeeded)
  {
  }

  /** The algebra of a full rebalance: pricing the missing BTC gives back the
      missing value, buying it brings the collateral to the target value, and
      at that value the loan sits at its ratio. */
  lemma RestoreArithmetic(loanAmount: real, btc: real, ltvRatio: real, newPrice: real)
    requires btc * newPrice != 0.0 && ltvRatio != 0.0 && loanAmount != 0.0
    ensures newPrice != 0.0
    ensures var target := loanAmount / (ltvRatio / 100.0);
      var totalBtcNeeded := (target - btc * newPrice) / newPrice;
      && totalBtcNeeded * newPrice == target - btc * newPrice
      && (btc + totalBtcNeeded) * newPrice == target
      && target != 0.0
      && loanAmount / target * 100.0 == ltvRatio
  {
    var target := loanAmount / (ltvRatio / 100.0);
    var v := btc * newPrice;
    var totalBtcNeeded := (target - v) / newPrice;
    assert totalBtcNeeded * newPrice == target - v;
    assert (btc + totalBtcNeeded) * newPrice == totalBtcNeeded * newPrice + v;
    assert target * (ltvRatio / 100.0) == loanAmount;
    assert loanAmount / target == ltvRatio / 100.0;
  }

  /** When the reserve falls short, all of it is spent on as much BTC as it
      buys; this is reported, not raised. */
  lemma PartialRebalanceSpendsAll(s: LoanState, newPrice: real, ltvTrigger: real)
    requires s.btcCollateral * newPrice != 0.0 && s.ltvRatio != 0.0
    requires Ltv(s.loanAmount, s.btcCollateral, newPrice) >= ltvTrigger
    requires RequiredCash(s, newPrice) > s.remainingCash
    requires s.btcCollateral * newPrice + s.remainingCash != 0.0
    ensures newPrice != 0.0
    ensures CalculateRebalance(s, newPrice, ltvTrigger).Success?
    ensures var r := CalculateRebalance(s, newPrice, ltvTrigger).value;
      && r.needsRebalance && !r.canFullyRebalance
      && r.cashUsed == r.cashNeeded == s.remainingCash
      && r.btcToBuy == s.remainingCash / newPrice
      && r.newBtcTotal == s.btcCollateral + s.remainingCash / newPrice
      && r.cashRemaining == 0.0
      && r.totalCashRequired == RequiredCash(s, newPrice)
      && r.newLtv == Ltv(s.loanAmount, s.btcCollateral + s.remainingCash / newPrice, newPrice)
  {
    PartialArithmetic(s.btcCollateral, s.remainingCash, RequiredCash(s, newPrice), newPrice);
    var totalBtcNeeded := RequiredCash(s, newPrice) / newPrice;
    var actualBtcToBuy := s.remainingCash / newPrice;
    PartialBranchCall(s, newPrice, ltvTrigger);
    RebalancedFields(s, newPrice, Ltv(s.loanAmount, s.btcCollateral, newPrice), false, actualBtcToBuy,
                     s.remainingCash, s.btcCollateral + actualBtcToBuy,
                     totalBtcNeeded * newPrice, totalBtcNeeded);
  }

  /** Past the trigger and with the reserve short of the gap, the calculation
      takes the partial-rebalance branch. */
  lemma PartialBranchCall(s: LoanState, newPrice: real, ltvTrigger: real)
    requires s.btcCollateral * newPrice != 0.0 && s.ltvRatio != 0.0
    requires Ltv(s.loanAmount, s.btcCollateral, newPrice) >= ltvTrigger
    requires newPrice != 0.0
    requires RequiredCash(s, newPrice) / newPrice * newPrice > s.remainingCash
    ensures var totalBtcNeeded := RequiredCash(s, newPrice) / newPrice;
      var actualBtcToBuy := s.remainingCash / newPrice;
      CalculateRebalance(s, newPrice, ltvTrigger)
      == Rebalanced(s, newPrice, Ltv(s.loanAmount, s.btcCollateral, newPrice), false, actualBtcToBuy,
                    s.remainingCash, s.btcCollateral + actualBtcToBuy,
                    totalBtcNeeded * newPrice, totalBtcNeeded)
  {
  }

  /** The algebra of a partial rebalance: dividing by the price and
      multiplying back is the identity, so the reserve buys BTC worth
      exactly the reserve. */
  lemma PartialArithmetic(btc: real, cash: real, gap: real, newPrice: real)
    requires btc * newPrice != 0.0
    ensures newPrice != 0.0
    ensures gap / newPrice * newPrice == gap
    ensures cash / newPrice * newPrice == cash
    ensures (btc + cash / newPrice) * newPrice == btc * newPrice + cash
  {
    assert newPrice != 0.0;
    assert (btc + cash / newPrice) * newPrice == btc * newPrice + cash / newPrice * newPrice;
  }

  /** Any result that was flagged but not fully affordable spent the whole
      reserve and left none. */
  lemma PartialResultSpendsAll(s: LoanState, newPrice: real, ltvTrigger: real)
    requires CalculateRebalance(s, newPrice, ltvTrigger).Success?
    requires CalculateRebalance(s, newPrice, ltvTrigger).value.needsRebalance
    requires !CalculateRebalance(s, newPrice, ltvTrigger).value.canFullyRebalance
    ensures var r := CalculateRebalance(s, newPrice, ltvTrigger).value;
      r.cashUsed == s.remainingCash && r.cashRemaining == 0.0
  {
  }

  /** On a valid snapshot at a positive price, a flagged rebalance, full or
      partial, leaves positive collateral and a reserve that is not overdrawn. */
  lemma CommitKeepsValid(s: LoanState, newPrice: real, ltvTrigger: real)
    requires Valid(s) && newPrice > 0.0
    requires CalculateRebalance(s, newPrice, ltvTrigger).Success?
    ensures var r := CalculateRebalance(s, newPrice, ltvTrigger).value;
      r.newBtcTotal > 0.0 && r.cashRemaining >= 0.0
  {
    var v := s.btcCollateral * newPrice;
    assert v > 0.0;
    if Ltv(s.loanAmount, s.btcCollateral, newPrice) < ltvTrigger {
      NoRebalanceBelowTrigger(s, newPrice, ltvTrigger);
    } else if RequiredCash(s, newPrice) <= s.remainingCash {
      FullCommitKeepsValid(s, newPrice, ltvTrigger);
    } else {
      PartialRebalanceSpendsAll(s, newPrice, ltvTrigger);
      assert s.remainingCash / newPrice >= 0.0;
    }
  }

  lemma FullCommitKeepsValid(s: LoanState, newPrice: real, ltvTrigger: real)
    requires Valid(s) && newPrice > 0.0
    requires Ltv(s.loanAmount, s.btcCollateral, newPrice) >= ltvTrigger
    requires RequiredCash(s, newPrice) <= s.remainingCash
    ensures CalculateRebalance(s, newPrice, ltvTrigger).Success?
    ensures var r := CalculateRebalance(s, newPrice, ltvTrigger).value;
      r.newBtcTotal > 0.0 && r.cashRemaining >= 0.0
  {
    FullRebalanceRestoresTarget(s, newPrice, ltvTrigger);
    var r := CalculateRebalance(s, newPrice, ltvTrigger).value;
    assert TargetCollateralValue(s) > 0.0;
    assert r.newBtcTotal * newPrice > 0.0;
  }

  /** A cash-constrained rebalance lowers the LTV but never reaches the
      ratio; it lowers it strictly exactly when there was cash to spend. */
  lemma PartialImprovesButFallsShort(s: LoanState, newPrice: real, ltvTrigger: real)
    requires Valid(s) && newPrice > 0.0
    requires Ltv(s.loanAmount, s.btcCollateral, newPrice) >= ltvTrigger
    requires RequiredCash(s, newPrice) > s.remainingCash
    ensures CalculateRebalance(s, newPrice, ltvTrigger).Success?
    ensures var r := CalculateRebalance(s, newPrice, ltvTrigger).value;
      && s.ltvRatio < r.newLtv <= r.currentLtv
      && (r.newLtv < r.currentLtv <==> s.remainingCash > 0.0)
  {
    assert s.btcCollateral * newPrice > 0.0;
    PartialRebalanceSpendsAll(s, newPrice, ltvTrigger);
    PartialLtvBetween(s.loanAmount, s.btcCollateral, s.remainingCash, s.ltvRatio, newPrice);
  }

  /** Spending a reserve that is short of the gap to the target value moves
      the LTV towards the ratio without reaching it. */
  lemma PartialLtvBetween(loan: real, btc: real, cash: real, ltvRatio: real, newPrice: real)
    requires loan > 0.0 && btc > 0.0 && cash >= 0.0 && ltvRatio > 0.0 && newPrice > 0.0
    requires loan / (ltvRatio / 100.0) - btc * newPrice > cash
    ensures var after := btc + cash / newPrice;
      && after * newPrice != 0.0
      && ltvRatio < Ltv(loan, after, newPrice) <= Ltv(loan, btc, newPrice)
      && (Ltv(loan, after, newPrice) < Ltv(loan, btc, newPrice) <==> cash > 0.0)
  {
    var v := btc * newPrice;
    assert v > 0.0;
    PartialArithmetic(btc, cash, 0.0, newPrice);
    var w := v + cash;
    assert (btc + cash / newPrice) * newPrice == w;
    var target := loan / (ltvRatio / 100.0);
    assert target * (ltvRatio / 100.0) == loan;
    assert loan / target == ltvRatio / 100.0;
    assert v <= w < target;
    LoanOverValueDecreasing(loan, w, target);
    if cash > 0.0 {
      LoanOverValueDecreasing(loan, v, w);
    }
  }

  /** A larger collateral value gives a strictly smaller LTV. */
  lemma LoanOverValueDecreasing(loan: real, v: real, w: real)
    requires loan > 0.0 && 0.0 < v < w
    ensures loan / w * 100.0 < loan / v * 100.0
  {
    assert loan / w < loan / v by {
      assert loan / w * w == loan == loan / v * v;
    }
  }

  /** Which side of the ratio the LTV is on decides the sign of the cash a
      full rebalance costs: a loan above its ratio needs cash, one below it
      would release cash. */
  lemma RequiredCashSign(s: LoanState, newPrice: real)
    requires Valid(s) && newPrice > 0.0
    ensures s.btcCollateral * newPrice != 0.0
    ensures Ltv(s.loanAmount, s.btcCollateral, newPrice) < s.ltvRatio <==> RequiredCash(s, newPrice) < 0.0
    ensures Ltv(s.loanAmount, s.btcCollateral, newPrice) == s.ltvRatio <==> RequiredCash(s, newPrice) == 0.0
  {
    var v := s.btcCollateral * newPrice;
    assert v > 0.0;
    var target := TargetCollateralValue(s);
    assert target > 0.0;
    assert s.loanAmount / target * 100.0 == s.ltvRatio;
    if v < target {
      LoanOverValueDecreasing(s.loanAmount, v, target);
    } else if target < v {
      LoanOverValueDecreasing(s.loanAmount, target, v);
    }
  }

  /** Cash accounting of one result: the cash needed is the cash used, the
      reserve shrinks by exactly that much, the BTC bought costs exactly that
      much, and the new LTV is that of the new collateral at the new price.
      A flagged rebalance also reports the full cost of restoring the ratio,
      priced from the BTC it would take. */
  predicate CashAccounted(s: LoanState, newPrice: real, r: RebalanceResult) {
    && r.cashNeeded == r.cashUsed
    && r.cashRemaining == s.remainingCash - r.cashUsed
    && r.btcToBuy * newPrice == r.cashUsed
    && r.newBtcTotal == s.btcCollateral + r.btcToBuy
    && r.newBtcTotal * newPrice != 0.0
    && r.newLtv == Ltv(s.loanAmount, r.newBtcTotal, newPrice)
    && (r.needsRebalance <==> r.totalBtcNeeded.Some?)
    && (r.needsRebalance ==>
          && s.ltvRatio != 0.0
          && r.totalCashRequired == r.totalBtcNeeded.value * newPrice == RequiredCash(s, newPrice))
  }

  /** Every result the calculation returns, in every branch, is accounted for. */
  lemma CashAccounting(s: LoanState, newPrice: real, ltvTrigger: real)
    requires CalculateRebalance(s, newPrice, ltvTrigger).Success?
    ensures s.btcCollateral * newPrice != 0.0
    ensures CashAccounted(s, newPrice, CalculateRebalance(s, newPrice, ltvTrigger).value)
  {
    if Ltv(s.loanAmount, s.btcCollateral, newPrice) < ltvTrigger {
      NoRebalanceBelowTrigger(s, newPrice, ltvTrigger);
    } else {
      assert s.ltvRatio != 0.0;
      if RequiredCash(s, newPrice) <= s.remainingCash {
        AccountedFull(s, newPrice, ltvTrigger);
      } else {
        AccountedPartial(s, newPrice, ltvTrigger);
      }
    }
  }

  lemma AccountedFull(s: LoanState, newPrice: real, ltvTrigger: real)
    requires CalculateRebalance(s, newPrice, ltvTrigger).Success?
    requires s.btcCollateral * newPrice != 0.0 && s.ltvRatio != 0.0
    requires Ltv(s.loanAmount, s.btcCollateral, newPrice) >= ltvTrigger
    requires RequiredCash(s, newPrice) <= s.remainingCash
    ensures CashAccounted(s, newPrice, CalculateRebalance(s, newPrice, ltvTrigger).value)
  {
    FullBranchDefined(s, newPrice, ltvTrigger);
    FullRebalanceRestoresTarget(s, newPrice, ltvTrigger);
  }

  lemma AccountedPartial(s: LoanState, newPrice: real, ltvTrigger: real)
    requires CalculateRebalance(s, newPrice, ltvTrigger).Success?
    requires s.btcCollateral * newPrice != 0.0 && s.ltvRatio != 0.0
    requires Ltv(s.loanAmount, s.btcCollateral, newPrice) >= ltvTrigger
    requires RequiredCash(s, newPrice) > s.remainingCash
    ensures CashAccounted(s, newPrice, CalculateRebalance(s, newPrice, ltvTrigger).value)
  {
    PartialBranchDefined(s, newPrice, ltvTrigger);
    PartialRebalanceSpendsAll(s, newPrice, ltvTrigger);
    assert s.remainingCash / newPrice * newPrice == s.remainingCash;
  }

  /** A full rebalance that does not fail had a non-zero principal: with a
      zero principal the new collateral value would be zero. */
  lemma FullBranchDefined(s: LoanState, newPrice: real, ltvTrigger: real)
    requires CalculateRebalance(s, newPrice, ltvTrigger).Success?
    requires s.btcCollateral * newPrice != 0.0 && s.ltvRatio != 0.0
    requires Ltv(s.loanAmount, s.btcCollateral, newPrice) >= ltvTrigger
    requires RequiredCash(s, newPrice) <= s.remainingCash
    ensures s.loanAmount != 0.0
  {
    var gap := RequiredCash(s, newPrice);
    PartialArithmetic(s.btcCollateral, gap, gap, newPrice);
    FullBranchCall(s, newPrice, ltvTrigger);
    assert (s.btcCollateral + gap / newPrice) * newPrice == TargetCollateralValue(s);
  }

  /** A partial rebalance that does not fail left a non-zero collateral value. */
  lemma PartialBranchDefined(s: LoanState, newPrice: real, ltvTrigger: real)
    requires CalculateRebalance(s, newPrice, ltvTrigger).Success?
    requires s.btcCollateral * newPrice != 0.0 && s.ltvRatio != 0.0
    requires Ltv(s.loanAmount, s.btcCollateral, newPrice) >= ltvTrigger
    requires RequiredCash(s, newPrice) > s.remainingCash
    ensures s.btcCollateral * newPrice + s.remainingCash != 0.0
  {
    PartialArithmetic(s.btcCollateral, s.remainingCash, RequiredCash(s, newPrice), newPrice);
    PartialBranchCall(s, newPrice, ltvTrigger);
  }

  /** With a trigger no looser than the ratio, a rebalance only ever buys:
      the cash used and the BTC bought are non-negative, the reserve never
      goes negative or grows, and the LTV never rises. */
  lemma CashBounded(s: LoanState, newPrice: real, ltvTrigger: real)
    requires Valid(s) && newPrice > 0.0 && ltvTrigger >= s.ltvRatio
    ensures CalculateRebalance(s, newPrice, ltvTrigger).Success?
    ensures var r := CalculateRebalance(s, newPrice, ltvTrigger).value;
      && 0.0 <= r.cashUsed && 0.0 <= r.btcToBuy
      && 0.0 <= r.cashRemaining <= s.remainingCash
      && r.newLtv <= r.currentLtv
  {
    var v := s.btcCollateral * newPrice;
    assert v > 0.0;
    RequiredCashSign(s, newPrice);
    if Ltv(s.loanAmount, s.btcCollateral, newPrice) < ltvTrigger {
      NoRebalanceBelowTrigger(s, newPrice, ltvTrigger);
    } else if RequiredCash(s, newPrice) <= s.remainingCash {
      FullRebalanceRestoresTarget(s, newPrice, ltvTrigger);
      var r := CalculateRebalance(s, newPrice, ltvTrigger).value;
      assert r.btcToBuy >= 0.0 by {
        assert r.btcToBuy * newPrice == RequiredCash(s, newPrice) >= 0.0;
      }
    } else {
      PartialImprovesButFallsShort(s, newPrice, ltvTrigger);
      PartialRebalanceSpendsAll(s, newPrice, ltvTrigger);
    }
  }

  /** With a trigger looser than the ratio (the inputs allow a trigger down to
      zero), an LTV between the two still fires, and the "rebalance" sells
      collateral: a negative purchase that refills the reserve above what it
      held and raises the LTV up to the ratio. */
  lemma NegativePurchaseQuirk(s: LoanState, newPrice: real, ltvTrigger: real)
    requires Valid(s) && newPrice > 0.0
    requires ltvTrigger <= Ltv(s.loanAmount, s.btcCollateral, newPrice) < s.ltvRatio
    ensures CalculateRebalance(s, newPrice, ltvTrigger).Success?
    ensures var r := CalculateRebalance(s, newPrice, ltvTrigger).value;
      && r.needsRebalance && r.canFullyRebalance
      && r.btcToBuy < 0.0
      && r.cashRemaining > s.remainingCash
      && r.currentLtv < r.newLtv == s.ltvRatio
  {
    RequiredCashSign(s, newPrice);
    FullRebalanceRestoresTarget(s, newPrice, ltvTrigger);
    var r := CalculateRebalance(s, newPrice, ltvTrigger).value;
    assert r.btcToBuy < 0.0 by {
      assert r.btcToBuy * newPrice == RequiredCash(s, newPrice) < 0.0;
    }
  }

  /** The default loan of the calculator: 1 BTC bought at 20000 EUR with a
      50 % ratio, so a 10000 EUR loan and a 10000 EUR reserve. */
  function DefaultLoan(remainingCash: real): LoanState {
    LoanState(1.0, 20000.0, 50.0, 10000.0, 10000.0, remainingCash)
  }

  /** The quirk on the default loan with a zero trigger and a price of 25000:
      the loan sits at 40 % LTV, -0.2 BTC is "bought" for -5000 EUR, the
      reserve grows to 15000 and the LTV rises to 50 %. */
  lemma NegativePurchaseExample()
    ensures CalculateRebalance(DefaultLoan(10000.0), 25000.0, 0.0) == Success(RebalanceResult(
      needsRebalance := true, currentLtv := 40.0, btcToBuy := -0.2, cashNeeded := -5000.0,
      canFullyRebalance := true, newBtcTotal := 0.8, newLtv := 50.0, cashUsed := -5000.0,
      cashRemaining := 15000.0, totalCashRequired := -5000.0, totalBtcNeeded := Some(-0.2)))
  {
    var r := CalculateRebalance(DefaultLoan(10000.0), 25000.0, 0.0);
    assert r.value.currentLtv == 40.0;
    assert r.value.totalBtcNeeded == Some(-0.2);
    assert r.value.totalCashRequired == -5000.0;
    assert r.value.newBtcTotal == 0.8;
    assert r.value.newLtv == 50.0;
  }

  /** At 15000 EUR and a 70 % trigger the LTV is 10000 / 15000 and nothing happens. */
  lemma ExampleNoRebalance()
    ensures CalculateRebalance(DefaultLoan(10000.0), 15000.0, 70.0) == Success(RebalanceResult(
      needsRebalance := false, currentLtv := 10000.0 / 15000.0 * 100.0, btcToBuy := 0.0, cashNeeded := 0.0,
      canFullyRebalance := true, newBtcTotal := 1.0, newLtv := 10000.0 / 15000.0 * 100.0, cashUsed := 0.0,
      cashRemaining := 10000.0, totalCashRequired := 0.0, totalBtcNeeded := None))
  {
    var r := CalculateRebalance(DefaultLoan(10000.0), 15000.0, 70.0);
    assert r.value.currentLtv == 10000.0 / 15000.0 * 100.0;
  }

  /** At 10000 EUR the LTV is 100 %; the 10000 EUR reserve buys exactly the
      missing 1 BTC and the loan is back at 50 %. */
  lemma ExampleFullRebalance()
    ensures CalculateRebalance(DefaultLoan(10000.0), 10000.0, 70.0) == Success(RebalanceResult(
      needsRebalance := true, currentLtv := 100.0, btcToBuy := 1.0, cashNeeded := 10000.0,
      canFullyRebalance := true, newBtcTotal := 2.0, newLtv := 50.0, cashUsed := 10000.0,
      cashRemaining := 0.0, totalCashRequired := 10000.0, totalBtcNeeded := Some(1.0)))
  {
    var r := CalculateRebalance(DefaultLoan(10000.0), 10000.0, 70.0);
    assert r.value.currentLtv == 100.0;
    assert r.value.totalBtcNeeded == Some(1.0);
    assert r.value.totalCashRequired == 10000.0;
    assert r.value.newLtv == 50.0;
  }

  /** With only 4000 EUR left, the reserve buys 0.4 BTC and the LTV only
      falls to 10000 / 14000. */
  lemma ExamplePartialRebalance()
    ensures CalculateRebalance(DefaultLoan(4000.0), 10000.0, 70.0) == Success(RebalanceResult(
      needsRebalance := true, currentLtv := 100.0, btcToBuy := 0.4, cashNeeded := 4000.0,
      canFullyRebalance := false, newBtcTotal := 1.4, newLtv := 10000.0 / 14000.0 * 100.0, cashUsed := 4000.0,
      cashRemaining := 0.0, totalCashRequired := 10000.0, totalBtcNeeded := Some(1.0)))
  {
    var r := CalculateRebalance(DefaultLoan(4000.0), 10000.0, 70.0);
    assert r.value.currentLtv == 100.0;
    assert r.value.totalBtcNeeded == Some(1.0);
    assert r.value.totalCashRequired == 10000.0;
    assert r.value.btcToBuy == 0.4;
    assert r.value.newBtcTotal == 1.4;
    assert r.value.newLtv == 10000.0 / 14000.0 * 100.0;
    assert r.value.cashRemaining == 0.0;
  }
}
