/** One run of the calculator page: the loan is opened, a first scenario is
    evaluated and committed whenever it rebalances, a second scenario is
    evaluated and committed when it rebalances fully or the user agrees to
    spend all remaining cash, the critical price levels are listed after
    such a partial rebalance, and the final position is summarised.
    Rendering is not modelled; the values the page shows can be read off
    the report. */
module Session {
  import opened Wrappers
  import opened Loan
  import opened Rebalance
  import opened Prices
  import opened Scenarios

  /** What the user enters on the page, and what the three live price
      lookups answered (None when a lookup failed). */
  datatype Inputs = Inputs(
    btcAmount: real,
    initialSource: InitialPriceSource,
    ltvRatio: real,
    trigger1: real,
    source1: PriceSource,
    trigger2: real,
    source2: PriceSource,
    proceed: bool,
    livePrice0: Option<real>,
    livePrice1: Option<real>,
    livePrice2: Option<real>)

  /** The "Critical Price Levels" section. */
  datatype CriticalLevels = CriticalLevels(
    priceAt70: real,
    priceDrop70: real,
    targets: seq<TargetScenario>,
    liquidation: Liquidation)

  /** The "Final Position Summary". */
  datatype Summary = Summary(
    btcCollateral: real,
    collateralValue: real,
    remainingCash: real,
    currentLtv: real,
    initialCashUsed: real)

  /** Everything one run computes. */
  datatype Report = Report(
    initialPrice: real,
    origin: LoanState,
    price1: real,
    priceDrop1: real,
    rebalance1: RebalanceResult,
    afterFirst: LoanState,
    price2: real,
    priceDrop2: real,
    rebalance2: RebalanceResult,
    final: LoanState,
    critical: Option<CriticalLevels>,
    summary: Summary)

  /** The critical price levels for a snapshot: the 70 % LTV price, the
      purchases that reach 65, 60 and 55 % quoted at that price, and the
      liquidation at 80 % LTV. */
  function CriticalSection(s: LoanState, initialPrice: real): Result<CriticalLevels, Error> {
    if s.btcCollateral == 0.0 || s.loanAmount == 0.0 || initialPrice == 0.0 then
      Failure(ZeroDivision)
    else
      var priceAt70 := PriceAtLtv(s.loanAmount, s.btcCollateral, 70.0);
      assert priceAt70 != 0.0 by {
        assert priceAt70 * (s.btcCollateral * 0.7) == s.loanAmount;
      }
      Success(CriticalLevels(
        priceAt70,
        PriceDrop(initialPrice, priceAt70),
        TargetScenarios(s.loanAmount, s.btcCollateral, priceAt70, initialPrice, TargetLtvs),
        LiquidationAt80(s.loanAmount, s.btcCollateral, initialPrice)))
  }

  /** On a valid snapshot the critical section is defined and holds: the
      price at which the loan sits at 70 % LTV; one row per target of 65, 60
      and 55 %, in that order, whose positive purchase at that price lands the
      loan exactly on its target; and a liquidation at 80 % LTV that sells 80 %
      of the coins for exactly the loan. */
  lemma CriticalSectionContents(s: LoanState, initialPrice: real)
    requires Valid(s) && initialPrice != 0.0
    ensures CriticalSection(s, initialPrice).Success?
    ensures var c := CriticalSection(s, initialPrice).value;
      && c.priceAt70 == PriceAtLtv(s.loanAmount, s.btcCollateral, 70.0)
      && s.btcCollateral * c.priceAt70 != 0.0
      && Ltv(s.loanAmount, s.btcCollateral, c.priceAt70) == 70.0
      && c.priceDrop70 == PriceDrop(initialPrice, c.priceAt70)
      && |c.targets| == |TargetLtvs|
      && (forall i :: 0 <= i < |c.targets| ==>
            && c.targets[i].targetLtv == TargetLtvs[i]
            && c.targets[i].btcNeeded > 0.0
            && (s.btcCollateral + c.targets[i].btcNeeded) * c.priceAt70 != 0.0
            && Ltv(s.loanAmount, s.btcCollateral + c.targets[i].btcNeeded, c.priceAt70) == TargetLtvs[i])
      && c.liquidation.btcToSell == 0.8 * s.btcCollateral
      && (forall i :: 0 <= i < |c.targets| ==>
            c.targets[i].priceAtTargetLtv == PriceAtLtv(s.loanAmount, s.btcCollateral, TargetLtvs[i]))
      && c.liquidation.price == PriceAtLtv(s.loanAmount, s.btcCollateral, 80.0)
      && c.liquidation.euroValueSold == s.loanAmount
  {
    var p := PriceAtLtv(s.loanAmount, s.btcCollateral, 70.0);
    PriceAtLtvHitsLtv(s.loanAmount, s.btcCollateral, 70.0);
    var c := CriticalSection(s, initialPrice).value;
    assert c.priceAt70 == p;
    forall i | 0 <= i < |c.targets|
      ensures && c.targets[i].targetLtv == TargetLtvs[i]
              && c.targets[i].priceAtTargetLtv == PriceAtLtv(s.loanAmount, s.btcCollateral, TargetLtvs[i])
              && c.targets[i].btcNeeded > 0.0
              && (s.btcCollateral + c.targets[i].btcNeeded) * p != 0.0
              && Ltv(s.loanAmount, s.btcCollateral + c.targets[i].btcNeeded, p) == TargetLtvs[i]
    {
      assert c.targets[i] == TargetScenarioAt(s.loanAmount, s.btcCollateral, p, initialPrice, TargetLtvs[i]);
      TargetPurchaseReachesTarget(s.loanAmount, s.btcCollateral, p, initialPrice, TargetLtvs[i]);
      TargetPurchaseFromPriceAt70(s.loanAmount, s.btcCollateral, initialPrice, TargetLtvs[i]);
    }
    LiquidationSplit(s.loanAmount, s.btcCollateral, initialPrice);
  }

  /** The price a scenario uses, failing where the LTV-derived price would
      divide by zero. */
  function ChosenPrice(source: PriceSource, feed: Option<real>, fallback: real, loanAmount: real, btc: real): Result<real, Error> {
    if source.AtLtv? && (btc == 0.0 || source.percent == 0.0) then
      Failure(ZeroDivision)
    else
      Success(ScenarioPrice(source, feed, fallback, loanAmount, btc))
  }

  /** One run of the page, from the first scenario to the summary. */
  function RunSession(inp: Inputs): Result<Report, Error> {
    var initialPrice := InitialPrice(inp.initialSource, inp.livePrice0);
    var origin := Originate(inp.btcAmount, initialPrice, inp.ltvRatio);
    var loanAmount := origin.loanAmount;
    // First scenario: committed whenever a rebalance is flagged.
    var price1 :- ChosenPrice(inp.source1, inp.livePrice1, 15000.0, loanAmount, origin.btcCollateral);
    if initialPrice == 0.0 then
      Failure(ZeroDivision)
    else
      var r1 :- CalculateRebalance(origin, price1, inp.trigger1);
      var afterFirst :=
        if r1.needsRebalance then Commit(r1, price1, inp.ltvRatio, loanAmount, loanAmount) else origin;
      SecondScenario(inp, initialPrice, origin, price1, r1, afterFirst)
  }

  /** The rest of a run, from the snapshot the first scenario left: the
      second scenario, the critical levels and the summary. */
  function SecondScenario(
    inp: Inputs, initialPrice: real, origin: LoanState,
    price1: real, r1: RebalanceResult, afterFirst: LoanState): Result<Report, Error>
    requires initialPrice != 0.0
  {
    var loanAmount := origin.loanAmount;
    // Second scenario: a partial rebalance is committed only on confirmation.
    var price2 :- ChosenPrice(inp.source2, inp.livePrice2, 10000.0, loanAmount, afterFirst.btcCollateral);
    var r2 :- CalculateRebalance(afterFirst, price2, inp.trigger2);
    var final :=
      if r2.needsRebalance && (r2.canFullyRebalance || inp.proceed) then
        Commit(r2, price2, inp.ltvRatio, loanAmount, afterFirst.initialCash)
      else
        afterFirst;
    var critical :-
      if r2.needsRebalance && !r2.canFullyRebalance && inp.proceed then
        var c :- CriticalSection(final, initialPrice);
        Success(Some(c))
      else
        Success(None);
    if final.CollateralValue() == 0.0 then
      Failure(ZeroDivision)
    else
      Success(Report(
        initialPrice, origin,
        price1, PriceDrop(initialPrice, price1), r1, afterFirst,
        price2, PriceDrop(initialPrice, price2), r2, final,
        critical,
        Summary(final.btcCollateral, final.CollateralValue(), final.remainingCash, StateLtv(final), CashSpent(final))))
  }

  /** The two scenarios of a run are the chain of two steps from the opened
      loan: the first accepting any rebalance, the second accepting a partial
      one only on confirmation. The page's own bookkeeping (the principal and
      ratio it keeps aside, the initial cash it passes) agrees with the
      snapshot's. */
  lemma SessionIsChain(inp: Inputs)
    requires RunSession(inp).Success?
    ensures var rep := RunSession(inp).value;
      && RunChain(rep.origin, [Step(rep.price1, inp.trigger1, true)]) == Success(rep.afterFirst)
      && RunChain(rep.origin, [Step(rep.price1, inp.trigger1, true), Step(rep.price2, inp.trigger2, inp.proceed)])
         == Success(rep.final)
      && SameLoan(rep.origin, rep.final)
  {
    var rep := RunSession(inp).value;
    var s1 := Step(rep.price1, inp.trigger1, true);
    var s2 := Step(rep.price2, inp.trigger2, inp.proceed);
    assert ApplyStep(rep.origin, s1) == Success(rep.afterFirst);
    assert ApplyStep(rep.afterFirst, s2) == Success(rep.final);
    assert [s1, s2][1..] == [s2];
    assert [s1][1..] == [];
    assert [s2][1..] == [];
    assert RunChain(rep.afterFirst, [s2]) == Success(rep.final);
  }

  /** How the parts of a report hang together: each rebalance is the
      calculation on the snapshot before it, and the summary describes the
      final snapshot. */
  lemma ReportShape(inp: Inputs)
    requires RunSession(inp).Success?
    ensures var rep := RunSession(inp).value;
      && CalculateRebalance(rep.afterFirst, rep.price2, inp.trigger2) == Success(rep.rebalance2)
      && rep.final == (if rep.rebalance2.needsRebalance && (rep.rebalance2.canFullyRebalance || inp.proceed)
                       then Commit(rep.rebalance2, rep.price2, inp.ltvRatio, rep.origin.loanAmount, rep.afterFirst.initialCash)
                       else rep.afterFirst)
      && (rep.critical.Some? <==> rep.rebalance2.needsRebalance && !rep.rebalance2.canFullyRebalance && inp.proceed)
      && rep.final.CollateralValue() != 0.0
      && rep.summary.currentLtv == StateLtv(rep.final)
      && rep.summary.remainingCash == rep.final.remainingCash
      && rep.afterFirst.loanAmount == rep.origin.loanAmount
  {
  }

  /** The inputs the page's widgets are meant for: positive collateral and
      ratio, a positive initial price, and scenario prices that come out
      positive. */
  predicate PlausibleInputs(inp: Inputs) {
    && inp.btcAmount > 0.0
    && inp.ltvRatio > 0.0
    && InitialPrice(inp.initialSource, inp.livePrice0) > 0.0
    && PositiveSource(inp.source1, inp.livePrice1)
    && PositiveSource(inp.source2, inp.livePrice2)
  }

  /** On plausible inputs a run never divides by zero, whatever the triggers
      and the confirmation, and ends on a valid snapshot of the same loan. */
  lemma SessionNeverFails(inp: Inputs)
    requires PlausibleInputs(inp)
    ensures RunSession(inp).Success?
    ensures Valid(RunSession(inp).value.final)
    ensures SameLoan(RunSession(inp).value.origin, RunSession(inp).value.final)
  {
    var initialPrice := InitialPrice(inp.initialSource, inp.livePrice0);
    var origin := Originate(inp.btcAmount, initialPrice, inp.ltvRatio);
    OriginationAtTarget(inp.btcAmount, initialPrice, inp.ltvRatio);
    PositiveSourcePrice(inp.source1, inp.livePrice1, 15000.0, origin.loanAmount, origin.btcCollateral);
    var price1 := ScenarioPrice(inp.source1, inp.livePrice1, 15000.0, origin.loanAmount, origin.btcCollateral);
    var step1 := Step(price1, inp.trigger1, true);
    StepPreservesValid(origin, step1);
    ValidNeverFails(origin, price1, inp.trigger1);
    var r1 := CalculateRebalance(origin, price1, inp.trigger1).value;
    var afterFirst := if r1.needsRebalance then Commit(r1, price1, inp.ltvRatio, origin.loanAmount, origin.loanAmount) else origin;
    assert afterFirst == ApplyStep(origin, step1).value;
    assert afterFirst.price > 0.0;
    SecondScenarioNeverFails(inp, initialPrice, origin, price1, r1, afterFirst);
    SessionIsChain(inp);
  }

  /** The second half of a run never fails from a valid snapshot of the loan
      when its price source yields a positive price. */
  lemma SecondScenarioNeverFails(
    inp: Inputs, initialPrice: real, origin: LoanState,
    price1: real, r1: RebalanceResult, afterFirst: LoanState)
    requires initialPrice > 0.0 && Valid(afterFirst) && PositiveSource(inp.source2, inp.livePrice2)
    requires afterFirst.loanAmount == origin.loanAmount && afterFirst.ltvRatio == inp.ltvRatio
    requires afterFirst.price > 0.0
    ensures SecondScenario(inp, initialPrice, origin, price1, r1, afterFirst).Success?
    ensures Valid(SecondScenario(inp, initialPrice, origin, price1, r1, afterFirst).value.final)
  {
    PositiveSourcePrice(inp.source2, inp.livePrice2, 10000.0, origin.loanAmount, afterFirst.btcCollateral);
    var price2 := ScenarioPrice(inp.source2, inp.livePrice2, 10000.0, origin.loanAmount, afterFirst.btcCollateral);
    var step2 := Step(price2, inp.trigger2, inp.proceed);
    StepPreservesValid(afterFirst, step2);
    ValidNeverFails(afterFirst, price2, inp.trigger2);
    var final := ApplyStep(afterFirst, step2).value;
    assert final.price > 0.0;
    assert final.CollateralValue() > 0.0;
  }

  /** The critical price levels appear only after a partial rebalance the
      user confirmed, which has spent the whole reserve; the summary then
      shows that rebalance's LTV. */
  lemma CriticalOnlyWhenCashExhausted(inp: Inputs)
    requires RunSession(inp).Success? && RunSession(inp).value.critical.Some?
    ensures var rep := RunSession(inp).value;
      && rep.rebalance2.needsRebalance && !rep.rebalance2.canFullyRebalance && inp.proceed
      && rep.final.remainingCash == 0.0
      && rep.summary.currentLtv == rep.rebalance2.newLtv
  {
    var rep := RunSession(inp).value;
    ReportShape(inp);
    PartialResultSpendsAll(rep.afterFirst, rep.price2, inp.trigger2);
    CashAccounting(rep.afterFirst, rep.price2, inp.trigger2);
  }

  /** On plausible inputs the loan is still above its ratio when the
      critical price levels are listed. */
  lemma CriticalAboveRatio(inp: Inputs)
    requires PlausibleInputs(inp)
    requires RunSession(inp).Success? && RunSession(inp).value.critical.Some?
    ensures RunSession(inp).value.summary.currentLtv > inp.ltvRatio
  {
    var rep := RunSession(inp).value;
    SessionNeverFails(inp);
    SessionIsChain(inp);
    StepCommitsResult(rep.origin, Step(rep.price1, inp.trigger1, true));
    assert Valid(rep.afterFirst) && rep.price2 > 0.0 by {
      var initialPrice := InitialPrice(inp.initialSource, inp.livePrice0);
      OriginationAtTarget(inp.btcAmount, initialPrice, inp.ltvRatio);
      PositiveSourcePrice(inp.source1, inp.livePrice1, 15000.0, rep.origin.loanAmount, rep.origin.btcCollateral);
      StepPreservesValid(rep.origin, Step(rep.price1, inp.trigger1, true));
      assert [Step(rep.price1, inp.trigger1, true)][1..] == [];
      PositiveSourcePrice(inp.source2, inp.livePrice2, 10000.0, rep.origin.loanAmount, rep.afterFirst.btcCollateral);
    }
    TriggerDecision(rep.afterFirst, rep.price2, inp.trigger2);
    CashAccounting(rep.afterFirst, rep.price2, inp.trigger2);
    PartialImprovesButFallsShort(rep.afterFirst, rep.price2, inp.trigger2);
  }

  /** The collateral field accepts zero: a run with no collateral always
      divides by zero. */
  lemma ZeroCollateralFails(inp: Inputs)
    requires inp.btcAmount == 0.0
    ensures RunSession(inp).Failure?
  {
  }
}
