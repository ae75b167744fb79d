# Bitcoin loan rebalancing calculator, modelled in Dafny

The repository `bitone` is a single-page calculator for a Bitcoin-backed
loan. A user deposits BTC as collateral and borrows a share of its value,
the *LTV ratio* (loan-to-value, in percent). The whole principal is set
aside as a cash reserve. When the BTC price falls, the loan's LTV rises.
Once it reaches a *trigger*, the calculator spends the reserve on more BTC
so that the LTV returns to the original ratio. If the reserve is not
enough, it spends all of it and reports the shortfall.

This project models the calculation core of `app.py` over exact reals and
proves what it computes:

- `loan.dfy` (module `Loan`): the `LoanState` snapshot, its collateral
  value, the LTV measure, and the snapshot taken when a loan is opened.
- `rebalance.dfy` (module `Rebalance`): `calculate_rebalance` as a total
  function returning `Result`. It has three branches: no rebalance, full
  rebalance back to the original ratio, and partial rebalance with the
  whole reserve. Where Python would raise `ZeroDivisionError` (collateral
  worth nothing at the new price, a zero ratio, or new collateral worth
  nothing), the model returns `Failure(ZeroDivision)`.
- `prices.dfy` (module `Prices`): `calculate_price_drop`, the price at
  which the loan reaches a given LTV, the purchases listed for 65/60/55 %
  targets, and the liquidation split at 80 % LTV.
- `scenarios.dfy` (module `Scenarios`): the price sources a scenario can
  use, committing a rebalance result to a new snapshot, and chains of
  scenarios.
- `session.dfy` (module `Session`): one run of the page. The first
  scenario is committed whenever it rebalances. The second is committed
  when it rebalances fully, or when the user confirms spending all
  remaining cash. After such a confirmed partial rebalance, the critical
  price levels are listed. Finally the position is summarised.
- `wrappers.dfy` (module `Wrappers`): `Option` and `Result`.

Behaviour of the code that the model keeps as written:

- The only failure is division by zero. The code validates no input; the
  page's widgets allow 0 BTC, a zero price and a zero trigger.
- After the trigger fires, nothing stops a negative purchase. With a
  trigger at or below the current LTV and an LTV *below* the original
  ratio (possible because a trigger may be as low as 0), the "rebalance"
  buys a negative amount of BTC. This sells collateral, refills the
  reserve above its previous level and raises the LTV up to the ratio
  (`Rebalance.NegativePurchaseQuirk`); when no cash had been spent yet,
  the reserve ends beyond the initial cash
  (`Scenarios.ChainCashGrowthExample`).
  The case is not reachable with a trigger above the ratio, and the code
  does not treat it as a no-op.
- When no rebalance is needed, the result reports `canFullyRebalance` as
  true and carries no `totalBtcNeeded` (the key is absent; here it is
  `None`).
- A live price of 0 falls back to the default in the scenarios, because
  Python's `or` treats `0.0` as false. For the initial price, only a
  missing answer falls back.
- The first scenario commits with the initial cash set to the loan
  amount. The second passes on the snapshot's own initial cash. The two
  agree (`Session.SessionIsChain`).

Every step at a positive price keeps a snapshot valid: positive
collateral, ratio and principal, and a reserve that is not negative. This
holds whatever the trigger. The reserve only shrinks when no trigger is
below the ratio.

## Model

| member | source | states |
|---|---|---|
| Loan.LoanState.CollateralValue | app.py:15-17 | the collateral's euro value at the snapshot's own price; see Loan.OriginationAtTarget and Scenarios.CommittedLtvIsNewLtv |
| Loan.Ltv | app.py:42 | the LTV measure used throughout; see Rebalance.TriggerDecision and Rebalance.LoanOverValueDecreasing |
| Loan.StateLtv | app.py:521 | the summary's LTV; see Scenarios.CommittedLtvIsNewLtv and Session.CriticalOnlyWhenCashExhausted |
| Loan.Originate | app.py:202-226 | opening a loan; see Loan.OriginationAtTarget |
| Rebalance.CalculateRebalance | app.py:31-89 | calculate_rebalance; its properties are the Rebalance lemmas below, chiefly Rebalance.TriggerDecision, Rebalance.NoRebalanceBelowTrigger, Rebalance.FullRebalanceRestoresTarget, Rebalance.PartialRebalanceSpendsAll, Rebalance.CashAccounting and Rebalance.CashBounded |
| Rebalance.Rebalanced | app.py:74-89 | the tail shared by the full and the partial rebalance; see Rebalance.CashAccounting |
| Loan.OriginationAtTarget | app.py:202-226 | a loan opened with positive collateral, price and ratio is valid, starts exactly at its ratio, has spent no cash, and holds the whole principal as reserve and as initial cash |
| Rebalance.ZeroCollateralValueFails | app.py:41-42 | when the collateral is worth nothing at the new price, the calculation divides by zero |
| Rebalance.ValidNeverFails | app.py:41-75 | on a valid snapshot at a positive price, the calculation never divides by zero, whatever the trigger |
| Rebalance.TriggerDecision | app.py:41-44 | the current LTV is the loan over the collateral's value at the new price, and a rebalance is flagged if and only if that LTV reaches the trigger |
| Rebalance.NoRebalanceBelowTrigger | app.py:44-56 | below the trigger nothing is bought or spent, the collateral and reserve are unchanged, the new LTV is the current one, the result counts as fully rebalanced, and no total BTC need is reported |
| Rebalance.FullRebalanceRestoresTarget | app.py:58-89 | when the reserve covers the gap to the target collateral value, exactly that gap is spent, the BTC bought is its value at the new price, the collateral reaches the target value, and the new LTV equals the original ratio, not the trigger |
| Rebalance.RestoreArithmetic | app.py:58-61 | pricing the missing BTC gives back the missing value, and buying it restores the ratio exactly |
| Rebalance.PartialRebalanceSpendsAll | app.py:63-89 | when the reserve is short of the gap, all of it buys BTC at the new price, nothing is left, the full cost is still reported, and this is a result rather than an error |
| Rebalance.PartialResultSpendsAll | app.py:65-67 | any flagged result that was not fully affordable used the whole reserve and left none |
| Rebalance.CommitKeepsValid | app.py:41-89 | on a valid snapshot at a positive price, every result has positive new collateral and a reserve that is not negative |
| Rebalance.FullCommitKeepsValid | app.py:69-75 | a full rebalance from a valid snapshot leaves positive collateral and a reserve that is not negative |
| Rebalance.PartialImprovesButFallsShort | app.py:65-75 | a cash-limited rebalance lowers the LTV but stays above the ratio, and it lowers the LTV strictly exactly when there was cash to spend |
| Rebalance.PartialLtvBetween | app.py:66-75 | spending a reserve that is short of the gap moves the LTV towards the ratio without reaching it |
| Rebalance.LoanOverValueDecreasing | app.py:42 | for a positive loan, a larger collateral value gives a strictly smaller LTV |
| Rebalance.RequiredCashSign | app.py:58-59 | the gap to the target collateral value is positive, zero or negative exactly when the LTV is above, at or below the ratio |
| Rebalance.CashAccounting | app.py:44-89 | in every branch, the cash needed is the cash used, the reserve falls by exactly that, the BTC bought costs exactly that, the new LTV is the new collateral's, and a flagged result reports the full cost of restoring the ratio |
| Rebalance.FullBranchDefined | app.py:58-75 | a full rebalance that does not divide by zero had a non-zero principal |
| Rebalance.PartialBranchDefined | app.py:63-75 | a partial rebalance that does not divide by zero leaves new collateral with a value |
| Rebalance.CashBounded | app.py:58-89 | with the trigger at or above the ratio, a rebalance never buys a negative amount, never overdraws or refills the reserve, and never raises the LTV |
| Rebalance.NegativePurchaseQuirk | app.py:58-72 | with the trigger at or below an LTV that is below the ratio, the calculation still fires, buys a negative amount of BTC, refills the reserve beyond its level and raises the LTV to the ratio |
| Rebalance.NegativePurchaseExample | app.py:41-89 | 1 BTC, 10000 EUR loan at 50 %, trigger 0, price 25000: LTV 40 %, -0.2 BTC "bought", reserve 15000, LTV 50 % |
| Rebalance.ExampleNoRebalance | app.py:44-56 | the default loan at 15000 EUR with a 70 % trigger needs no rebalance |
| Rebalance.ExampleFullRebalance | app.py:58-89 | the default loan at 10000 EUR is at 100 % LTV, and 10000 EUR buys 1 BTC back to 50 % |
| Rebalance.ExamplePartialRebalance | app.py:63-89 | with 4000 EUR left, 0.4 BTC is bought and the LTV falls only to 10000 / 14000 |
| Prices.PriceDrop | app.py:91-93 | calculate_price_drop; see Prices.PriceDropRoundTrip, Prices.PriceDropSign and Prices.PriceDropExamples |
| Prices.PriceAtLtv | app.py:443 | the price for a given LTV (also app.py:255, 348-350, 464, 481); see Prices.PriceAtLtvHitsLtv and Prices.TriggerPriceThreshold |
| Prices.TargetScenarioAt | app.py:460-465 | one row of the target table; see Prices.TargetPurchaseReachesTarget and Prices.TargetPurchaseFromPriceAt70 |
| Prices.LiquidationAt80 | app.py:481-486 | the liquidation scenario; see Prices.LiquidationSplit |
| Prices.PriceDropRoundTrip | app.py:91-93 | the price drop and the price after a drop of that many percent invert each other |
| Prices.PriceDropExamples | app.py:91-93 | an unchanged price is a 0 % drop, half the price a 50 % drop, double the price a -100 % drop |
| Prices.PriceDropSign | app.py:91-93 | from a positive initial price, the drop is positive, negative or zero exactly when the price fell, rose or held |
| Prices.PriceAtLtvHitsLtv | app.py:443 | at the price for X % LTV, the loan sits at exactly X % LTV |
| Prices.TriggerPriceThreshold | app.py:348-350 | on a positive loan, the LTV reaches X % exactly when the price is at or below the price for X % LTV |
| Prices.PriceAtLtvPositive | app.py:255 | the price for a positive LTV is positive on a positive loan |
| Prices.PriceAtLtvFiresTrigger | app.py:254-272 | evaluated at the price for X % LTV, the calculation reports X % as the current LTV, and it fires exactly for triggers at or below X |
| Prices.TargetPurchaseReachesTarget | app.py:460-465 | buying the listed BTC at the quoted price puts the loan exactly at the target LTV, its euro cost is the gap to the target collateral value, and the listed price is the price for the target LTV |
| Prices.TargetPurchaseFromPriceAt70 | app.py:461-462 | quoted at the 70 % price, the BTC needed for a target below 70 % is the collateral times 70 / target - 1, so it is positive |
| Prices.TargetScenarios | app.py:460-477 | the table has one row per target, in the order of the targets |
| Prices.LiquidationSplit | app.py:481-486 | at 80 % LTV, selling 80 % of the coins repays exactly the loan, and the other 20 % are worth a quarter of the loan |
| Scenarios.ScenarioPrice | app.py:252-262 | a scenario's price from its source; see Scenarios.PositiveSourcePrice and Prices.PriceAtLtvFiresTrigger |
| Scenarios.Commit | app.py:310-318 | the snapshot built from a result (also app.py:395-402, 417-424); see Scenarios.StepCommitsResult |
| Scenarios.ApplyStep | app.py:395-402 | one scenario evaluated and committed by policy; see Scenarios.StepPreservesValid and Scenarios.StepCashMonotone |
| Scenarios.RunChain | app.py:309-424 | scenarios in sequence; see Scenarios.ChainPreservesValid and Scenarios.ChainCashMonotone |
| Scenarios.InitialPrice | app.py:178-190 | a missing live answer falls back to 20000, a live answer (even 0) is used, and a manual price is used as entered |
| Scenarios.LiveOr | app.py:253 | a present, non-zero live answer is used; a missing or zero answer gives the fallback; so the price is zero only if the fallback is |
| Scenarios.ZeroLiveAnswer | app.py:178-181 | a live answer of 0 is kept as the initial price but replaced by the fallback in a scenario (app.py:253), so the two differ for a non-zero fallback |
| Scenarios.PositiveSourcePrice | app.py:252-262 | on a positive loan, each price source with a positive entry, a non-negative live answer or a positive LTV gives a positive price |
| Scenarios.StepCommitsResult | app.py:310-318 | a scenario either leaves the snapshot alone or takes the result's collateral, its price and the result's reserve, and the principal, ratio and initial cash never change |
| Scenarios.StepPreservesValid | app.py:395-402 | every scenario at a positive price keeps a valid snapshot valid and never fails, whatever the trigger and the confirmation |
| Scenarios.CommittedLtvIsNewLtv | app.py:517-522 | after a committed scenario, the LTV the summary shows for the new snapshot is the result's new LTV |
| Scenarios.StepCashMonotone | app.py:417-424 | with the trigger at or above the ratio, a scenario never adds cash to the reserve |
| Scenarios.ChainPreservesValid | app.py:309-424 | a chain of scenarios at positive prices never fails, stays valid and keeps principal, ratio and initial cash |
| Scenarios.ChainCashMonotone | app.py:309-424 | with no trigger below the ratio, the reserve along a chain ends between zero and where it started |
| Scenarios.ChainCashGrowthExample | app.py:310-318 | with a zero trigger, a scenario can leave more reserve than the initial cash |
| Session.RunSession | app.py:202-522 | one run of the page; see Session.SessionIsChain, Session.SessionNeverFails and Session.ZeroCollateralFails |
| Session.SecondScenario | app.py:345-522 | the second scenario, the critical section and the summary; see Session.SecondScenarioNeverFails and Session.CriticalOnlyWhenCashExhausted |
| Session.CriticalSection | app.py:440-486 | the critical price levels; see Session.CriticalSectionContents |
| Session.CriticalSectionContents | app.py:440-486 | on a valid snapshot, the critical section lists the 70 % LTV price and its drop, three rows for 65, 60 and 55 % whose positive purchases land exactly on their targets and whose prices are the prices for those targets, and a liquidation at the price for 80 % that sells 80 % of the coins for exactly the loan |
| Session.SessionIsChain | app.py:309-424 | the two scenarios of a run are a chain of two steps, the first accepting any rebalance and the second accepting a partial one only on confirmation, and the loan's terms never change |
| Session.SessionNeverFails | app.py:202-522 | on positive collateral, ratio, initial price and scenario prices, a run never divides by zero and ends on a valid snapshot of the same loan (same ratio, principal and initial cash) |
| Session.SecondScenarioNeverFails | app.py:345-522 | from a valid snapshot with a positive second price, the rest of a run never divides by zero and ends valid |
| Session.CriticalOnlyWhenCashExhausted | app.py:432 | the critical section appears only after a confirmed partial rebalance, which spent the whole reserve, and the summary then shows that rebalance's LTV |
| Session.CriticalAboveRatio | app.py:432-521 | on plausible inputs, the loan is still above its ratio when the critical levels are listed |
| Session.ZeroCollateralFails | app.py:164-170 | with 0 BTC of collateral, which the input field allows, a run divides by zero |

## Left out

- `get_live_price` (app.py:20-29) queries a market-data service over the
  network. Each of its three answers is an `Option<real>` input of the
  run; `None` stands for a failed lookup.
- Rendering is not modelled: the Streamlit page, its styling, messages,
  and number formatting.
- Streamlit re-runs the whole script on every widget change. The model
  evaluates one run on fixed inputs.
- The ranges the widgets enforce (ratio 30-50 %, triggers 0-100 %,
  non-negative amounts) are not assumed. The model covers every real
  input and states the plausible ones as a predicate where a property
  needs them.
- Floating point is not modelled. Values are exact reals, so rounding,
  overflow, infinities and NaN are out of scope. The equalities proved
  here (for example, the new LTV equals the ratio) hold exactly for reals
  but only approximately for floats.
- The "Additional Cash Needed" line (app.py:295, app.py:390) is a display
  expression, the full cost minus the reserve. It is not a separate
  member; `Rebalance.PartialRebalanceSpendsAll` states that the full cost
  exceeds the reserve.
- The "Initial Loan Summary" box (app.py:202-214) shows only values that
  `Loan.Originate` computes.
- The price drops listed in the critical section (app.py:444, 465, 482)
  are `Prices.PriceDrop` of the listed prices; beyond that, nothing is
  proved about them.
