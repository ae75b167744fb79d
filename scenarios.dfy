/** The what-if scenarios that main() chains: where each scenario's price
    comes from, how a rebalance is committed into the next snapshot, the
    general chain of such steps and its invariants. */
module Scenarios {
  import opened Wrappers
  import opened Loan
  import opened Rebalance
  import opened Prices

  // ---------------------------------------------------------------------
  // Price sources. The live price feed is not modelled: its answer (None
  // when the lookup failed) is an input.

  /** Where the initial price comes from. */
  datatype InitialPriceSource = InitialManual(entered: real) | InitialLive

  /** Where a scenario's price comes from; `AtLtv(x)` is the price at x %
      LTV for the current collateral (the page offers 70, and 65 in the
      second scenario). */
  datatype PriceSource = Manual(entered: real) | Live | AtLtv(percent: real)

  /** The initial price: a failed live lookup falls back to 20000. Only an
      absent answer falls back; a live answer of 0 is kept. */
  function InitialPrice(source: InitialPriceSource, feed: Option<real>): (p: real)
    ensures source.InitialLive? && feed.Some? ==> p == feed.value
    ensures source.InitialLive? && feed.None? ==> p == 20000.0
    ensures source.InitialManual? ==> p == source.entered
  {
    match source
    case InitialManual(entered) => entered
    case InitialLive => if feed.None? then 20000.0 else feed.value
  }

  /** Python's `feed or fallback` on an optional float: an absent answer and
      a zero answer (which is falsy) both give the fallback. */
  function LiveOr(feed: Option<real>, fallback: real): (p: real)
    ensures feed.Some? && feed.value != 0.0 ==> p == feed.value
    ensures feed.None? || feed.value == 0.0 ==> p == fallback
    ensures p == 0.0 ==> fallback == 0.0
  {
    if feed.Some? && feed.value != 0.0 then feed.value else fallback
  }

  /** A live answer of 0 is kept as the initial price but replaced by the
      fallback in a scenario. */
  lemma ZeroLiveAnswer(fallback: real)
    ensures InitialPrice(InitialLive, Some(0.0)) == 0.0
    ensures LiveOr(Some(0.0), fallback) == fallback
    ensures fallback != 0.0 ==> InitialPrice(InitialLive, Some(0.0)) != LiveOr(Some(0.0), fallback)
  {
  }

  /** A scenario's price: the live answer or `fallback`, or the price at a
      given LTV for this loan and collateral, or the entered value. */
  function ScenarioPrice(source: PriceSource, feed: Option<real>, fallback: real, loanAmount: real, btc: real): real
    requires source.AtLtv? ==> btc != 0.0 && source.percent != 0.0
  {
    match source
    case Manual(entered) => entered
    case Live => LiveOr(feed, fallback)
    case AtLtv(percent) => PriceAtLtv(loanAmount, btc, percent)
  }

  /** A source that yields a positive price on a valid loan: a positive
      entered price, a live answer that is absent or not negative (with a
      positive fallback), or a positive LTV. */
  predicate PositiveSource(source: PriceSource, feed: Option<real>) {
    match source
    case Manual(entered) => entered > 0.0
    case Live => feed.None? || feed.value >= 0.0
    case AtLtv(percent) => percent > 0.0
  }

  lemma PositiveSourcePrice(source: PriceSource, feed: Option<real>, fallback: real, loanAmount: real, btc: real)
    requires PositiveSource(source, feed) && fallback > 0.0 && loanAmount > 0.0 && btc > 0.0
    ensures ScenarioPrice(source, feed, fallback, loanAmount, btc) > 0.0
  {
    if source.AtLtv? {
      PriceAtLtvPositive(loanAmount, btc, source.percent);
    }
  }

  // ---------------------------------------------------------------------
  // Committing a result and chaining scenarios.

  /** The snapshot built from a rebalance result: the new collateral, the
      scenario's price and the cash left, with the ratio, principal and
      initial cash the caller passes on. */
  function Commit(r: RebalanceResult, price: real, ltvRatio: real, loanAmount: real, initialCash: real): LoanState {
    LoanState(r.newBtcTotal, price, ltvRatio, loanAmount, initialCash, r.cashRemaining)
  }

  /** Whether the caller commits a result: only a flagged rebalance, and a
      partial one only when the caller agrees to spend all remaining cash. */
  predicate Commits(r: RebalanceResult, proceedIfPartial: bool) {
    r.needsRebalance && (r.canFullyRebalance || proceedIfPartial)
  }

  /** One scenario: a price, a trigger, and whether a partial rebalance is
      accepted. */
  datatype Step = Step(price: real, trigger: real, proceedIfPartial: bool)

  /** Evaluate one scenario on a snapshot and commit it if the policy says
      so, carrying the ratio, principal and initial cash forward. */
  function ApplyStep(s: LoanState, step: Step): Result<LoanState, Error> {
    var r :- CalculateRebalance(s, step.price, step.trigger);
    if Commits(r, step.proceedIfPartial) then
      Success(Commit(r, step.price, s.ltvRatio, s.loanAmount, s.initialCash))
    else
      Success(s)
  }

  /** A chain of scenarios, each starting from the snapshot the previous one left. */
  function RunChain(s: LoanState, steps: seq<Step>): Result<LoanState, Error>
    decreases |steps|
  {
    if steps == [] then
      Success(s)
    else
      var next :- ApplyStep(s, steps[0]);
      RunChain(next, steps[1..])
  }

  /** Principal, ratio and initial cash are the same before and after. */
  predicate SameLoan(s: LoanState, t: LoanState) {
    s.loanAmount == t.loanAmount && s.ltvRatio == t.ltvRatio && s.initialCash == t.initialCash
  }

  /** A step either leaves the snapshot alone or replaces collateral, price
      and cash by the result's; the principal, ratio and initial cash never
      change. */
  lemma StepCommitsResult(s: LoanState, step: Step)
    requires ApplyStep(s, step).Success?
    ensures CalculateRebalance(s, step.price, step.trigger).Success?
    ensures var r := CalculateRebalance(s, step.price, step.trigger).value;
      var t := ApplyStep(s, step).value;
      && SameLoan(s, t)
      && (Commits(r, step.proceedIfPartial) ==>
            t.btcCollateral == r.newBtcTotal && t.price == step.price && t.remainingCash == r.cashRemaining)
      && (!Commits(r, step.proceedIfPartial) ==> t == s)
  {
  }

  /** Every step at a positive price keeps a valid snapshot valid, whatever
      the trigger and the policy, and never fails. */
  lemma StepPreservesValid(s: LoanState, step: Step)
    requires Valid(s) && step.price > 0.0
    ensures ApplyStep(s, step).Success?
    ensures Valid(ApplyStep(s, step).value)
    ensures SameLoan(s, ApplyStep(s, step).value)
  {
    ValidNeverFails(s, step.price, step.trigger);
    var r := CalculateRebalance(s, step.price, step.trigger).value;
    if r.needsRebalance {
      CommitKeepsValid(s, step.price, step.trigger);
    }
  }

  /** After a committed step, the LTV of the new snapshot at its own price
      (the one the final summary shows) is the result's new LTV. */
  lemma CommittedLtvIsNewLtv(s: LoanState, step: Step)
    requires Valid(s) && step.price > 0.0
    ensures ApplyStep(s, step).Success?
    ensures var r := CalculateRebalance(s, step.price, step.trigger).value;
      var t := ApplyStep(s, step).value;
      Commits(r, step.proceedIfPartial) ==> t.CollateralValue() != 0.0 && StateLtv(t) == r.newLtv
  {
    ValidNeverFails(s, step.price, step.trigger);
    CashAccounting(s, step.price, step.trigger);
  }

  /** With a trigger no looser than the ratio, a step never adds cash. */
  lemma StepCashMonotone(s: LoanState, step: Step)
    requires Valid(s) && step.price > 0.0 && step.trigger >= s.ltvRatio
    ensures ApplyStep(s, step).Success?
    ensures ApplyStep(s, step).value.remainingCash <= s.remainingCash
  {
    CashBounded(s, step.price, step.trigger);
  }

  predicate PositivePrices(steps: seq<Step>) {
    forall i :: 0 <= i < |steps| ==> steps[i].price > 0.0
  }

  predicate TriggersAtLeast(steps: seq<Step>, ltvRatio: real) {
    forall i :: 0 <= i < |steps| ==> steps[i].trigger >= ltvRatio
  }

  /** A chain of scenarios at positive prices never fails, keeps the snapshot
      valid and keeps principal, ratio and initial cash. */
  lemma {:induction false} ChainPreservesValid(s: LoanState, steps: seq<Step>)
    requires Valid(s) && PositivePrices(steps)
    ensures RunChain(s, steps).Success?
    ensures Valid(RunChain(s, steps).value)
    ensures SameLoan(s, RunChain(s, steps).value)
    decreases |steps|
  {
    if steps != [] {
      StepPreservesValid(s, steps[0]);
      var next := ApplyStep(s, steps[0]).value;
      assert PositivePrices(steps[1..]) by {
        forall i | 0 <= i < |steps[1..]| ensures steps[1..][i].price > 0.0 {
          assert steps[1..][i] == steps[i + 1];
        }
      }
      ChainPreservesValid(next, steps[1..]);
    }
  }

  /** When no trigger is looser than the ratio, the reserve only ever shrinks
      along the chain: it ends between zero and where it started, so it never
      exceeds the initial cash if it did not at the start. */
  lemma {:induction false} ChainCashMonotone(s: LoanState, steps: seq<Step>)
    requires Valid(s) && PositivePrices(steps) && TriggersAtLeast(steps, s.ltvRatio)
    ensures RunChain(s, steps).Success?
    ensures 0.0 <= RunChain(s, steps).value.remainingCash <= s.remainingCash
    decreases |steps|
  {
    ChainPreservesValid(s, steps);
    if steps != [] {
      StepPreservesValid(s, steps[0]);
      StepCashMonotone(s, steps[0]);
      var next := ApplyStep(s, steps[0]).value;
      assert PositivePrices(steps[1..]) && TriggersAtLeast(steps[1..], next.ltvRatio) by {
        forall i | 0 <= i < |steps[1..]| ensures steps[1..][i].price > 0.0 && steps[1..][i].trigger >= next.ltvRatio {
          assert steps[1..][i] == steps[i + 1];
        }
      }
      ChainCashMonotone(next, steps[1..]);
    }
  }

  /** With a zero trigger the reserve can grow beyond the initial cash: on
      the default loan, a scenario at 25000 leaves 15000 EUR of a 10000 EUR
      reserve. */
  lemma ChainCashGrowthExample()
    ensures RunChain(DefaultLoan(10000.0), [Step(25000.0, 0.0, false)]).Success?
    ensures var t := RunChain(DefaultLoan(10000.0), [Step(25000.0, 0.0, false)]).value;
      t.remainingCash == 15000.0 > t.initialCash
  {
    NegativePurchaseExample();
    var s := DefaultLoan(10000.0);
    var steps := [Step(25000.0, 0.0, false)];
    assert ApplyStep(s, steps[0]) == Success(LoanState(0.8, 25000.0, 50.0, 10000.0, 10000.0, 15000.0));
    assert steps[1..] == [];
  }
}
