/** The loan snapshot of app.py and the LTV arithmetic shared by every part
    of the calculator. All quantities are exact reals in place of floats. */
module Loan {

  /** One immutable snapshot of a Bitcoin-backed loan: collateral held (BTC),
      the price this snapshot refers to (EUR), the LTV ratio the loan was
      opened at (percent), the loan principal, and the cash reserve as it was
      at origination and as it is now. */
  datatype LoanState = LoanState(
    btcCollateral: real,
    price: real,
    ltvRatio: real,
    loanAmount: real,
    initialCash: real,
    remainingCash: real)
  {
    /** Euro value of the collateral at the snapshot's own price. */
    function CollateralValue(): real {
      btcCollateral * price
    }
  }

  /** Loan-to-value in percent: the loan as a share of the value of `btc`
      coins at `price`. */
  function Ltv(loanAmount: real, btc: real, price: real): real
    requires btc * price != 0.0
  {
    loanAmount / (btc * price) * 100.0
  }

  /** The LTV of a snapshot at its own price, as the final summary shows it. */
  function StateLtv(s: LoanState): (ltv: real)
    requires s.CollateralValue() != 0.0
    ensures ltv == Ltv(s.loanAmount, s.btcCollateral, s.price)
  {
    s.loanAmount / s.CollateralValue() * 100.0
  }

  /** Cash taken from the reserve since origination, as the final summary shows it. */
  function CashSpent(s: LoanState): real {
    s.initialCash - s.remainingCash
  }

  /** A snapshot on which every later calculation is defined: positive
      collateral, ratio and principal, and a reserve that is not overdrawn. */
  predicate Valid(s: LoanState) {
    && s.btcCollateral > 0.0
    && s.ltvRatio > 0.0
    && s.loanAmount > 0.0
    && s.remainingCash >= 0.0
  }

  /** The snapshot taken when the loan is opened: the principal is `ltvRatio`
      percent of the collateral's value, and the whole principal is set aside
      as the cash reserve. */
  function Originate(btcAmount: real, initialPrice: real, ltvRatio: real): LoanState {
    var collateralValue := btcAmount * initialPrice;
    var loanAmount := collateralValue * (ltvRatio / 100.0);
    LoanState(btcAmount, initialPrice, ltvRatio, loanAmount, loanAmount, loanAmount)
  }

  /** A loan opened with positive collateral, price and ratio is valid, starts
      exactly at its ratio, has spent no cash, and keeps its whole principal in
      reserve. */
  lemma OriginationAtTarget(btcAmount: real, initialPrice: real, ltvRatio: real)
    requires btcAmount > 0.0 && initialPrice > 0.0 && ltvRatio > 0.0
    ensures var s := Originate(btcAmount, initialPrice, ltvRatio);
      && Valid(s)
      && s.CollateralValue() != 0.0
      && StateLtv(s) == ltvRatio
      && CashSpent(s) == 0.0
      && s.initialCash == s.remainingCash == s.loanAmount
  {
    var s := Originate(btcAmount, initialPrice, ltvRatio);
    var v := btcAmount * initialPrice;
    assert v > 0.0;
    assert s.loanAmount == v * (ltvRatio / 100.0);
    assert s.loanAmount / v == ltvRatio / 100.0;
  }
}
