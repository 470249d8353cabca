# Stablecoin simulation: positions, strategies and indicators

This is a model of the core of a stablecoin simulator. It has three parts.

- **A collateralised-loan position.** There are two copies of it: `Vault` and its near-duplicate `Trove`.
  - The position holds collateral worth `coll_value = amount × price` against a loan.
  - It derives a liquidation buffer `lb = coll_value/min_coll_ratio − loan` and a volatility buffer `vb = coll_value − lb − loan`.
  - A new price that breaches the minimum collateral ratio liquidates the position for good.
  - A resize (`update_loan`) raises if it would make the amount or loan negative. It is silently refused if it would breach the ratio.
- **Strategies.** An `Owner` (over a `Vault`) or a `Borrower` (over a `Trove`) resizes the position by one of seven strategies, reading the newest row of the indicator table.
- **Indicators.** `Metrics` keeps an append-only table of prices with the running mean, an exponential moving average with α = 0.05, and the relative gap `(ema − ma)/ma`.

## How the model is built

- **`Positions`** states each position operation as a pure function over a `Position` value. The classes `Vaults.Vault` and `Troves.Trove` keep the source's fields and update them in place. Each of their methods is proved to produce exactly the state and failure of the matching function.
- **`Policy`** states each strategy as a pure step. The deltas are named functions of the position and the draws.
  - `Owners.Owner` and `Borrowers.Borrower` are classes whose methods compute those deltas and call `UpdateLoan` on the position object.
  - Each method is proved equal to its step.
  - `PolicyProperties` proves what each strategy achieves: the target buffer ratio it lands on, when it raises, and what it leaves unchanged.
- **`Indicators`** defines the table as a function of the price history, `TableOf`. Its parts are the mean, a recursive `Ema` and `Gap`. The class `Metrics` holds the table as a `seq<Row>`, and its methods are proved to keep it equal to `TableOf(Prices())`.

Representation choices:

- A Python exception becomes an `Error` value, returned as a failure beside the new state.
- A missing data-frame column becomes `Absent`, and a NaN cell becomes `NaN`.
- The random draws of a strategy are a `Draws` parameter. `Policy.InRange` states their ranges.
- `x/sqrt(x²+1)` is characterised by the relation `Sentiment.IsSentimentOf`. The sentiment value is a parameter that must satisfy it.
- All arithmetic is on `real`.
- ACTIVE's `3 − min_coll_ratio` divisor (utils/owner.py:51) is a Python float, so at ratio 3 the source raises `ZeroDivisionError` before any numpy division. This is modelled as `DivisionByZero`, for every indicator price.

## Model

Some members have no row of their own, because the rows that use them cover what they define:
- the reference definitions `Positions.Liquidate`, `Positions.Resize`, `Indicators.Mean`, `Indicators.Ema`, `Indicators.Gap`, `Indicators.RowOf` and `Indicators.TableOf`;
- the strategy deltas in `Policy`;
- the PASSIVE rounds `Owners.Owner.ModifyViaPassive` and `Borrowers.Borrower.ModifyViaPassive` (utils/owner.py:71-72, utils/borrower.py:71-72), which change nothing. `Policy.Modify` states this for PASSIVE.

| member | source | states |
|---|---|---|
| Positions.Create | utils/vault.py:2-20 | construction succeeds exactly when price, amount and loan are non-negative, the ratio exceeds 1 and `price×amount ≥ ratio×loan` (equality allowed); a negative input fails first, then a ratio ≤ 1, and every other failure is a ratio violation; a success is a valid, live position holding the given price, amount, loan and ratio |
| Positions.UpdateCollPrice | utils/vault.py:30-42 | a negative price raises, even when liquidated, and changes nothing; a liquidated position is unchanged; otherwise the price is recorded and the position is liquidated exactly when `amount×price < ratio×loan`, which zeroes the amount and records `amount×price − loan`; the loan and the ratio never change and the invariant is kept |
| Positions.UpdateLoan | utils/vault.py:44-58 | a liquidated position is unchanged; a live one raises `OverExtraction` exactly when the new amount or the new loan would be negative; a raise changes nothing; the price, ratio and liquidation flag never change and the invariant is kept |
| Positions.UpdateLoanCommitsOrRefuses | utils/vault.py:46-58 | on a live position, a resize that keeps both values non-negative and the ratio at the last price commits both deltas without raising; any other resize leaves the position as it was |
| Positions.Run | utils/vault.py:30-58 | any sequence of price updates and resizes keeps the invariant and the ratio, and a liquidated position stays liquidated |
| Positions.LiquidatedIsTerminal | utils/vault.py:30-58 | once liquidated, no sequence of price updates and resizes changes any field |
| Positions.SolventBuffers | utils/vault.py:8-19 | a live valid position is solvent, its liquidation buffer is non-negative, `lb + vb + loan = coll_value`, `vb×m = coll_value×(m−1)` and `vb ≥ loan×(m−1)` |
| Positions.LiquidationExample | utils/vault.py:22-42 | price 2, amount 10, ratio 1.5, loan 10 is accepted, and a price of 1 then liquidates it with value 0 and amount 0; price 100, amount 1, ratio 2, loan 60 is refused as a ratio violation |
| Vaults.Vault.New | utils/vault.py:2-20 | builds a vault exactly when `Create` succeeds, with the state `Create` gives, and otherwise fails with `Create`'s error |
| Vaults.Vault.constructor | utils/vault.py:10-20 | the new vault's fields are the position `Create` computes |
| Vaults.Vault.Liquidate | utils/vault.py:22-28 | zeroes amount, value and both buffers, sets the flag and records the updated value minus the loan |
| Vaults.Vault.UpdateCollPrice | utils/vault.py:30-42 | the new fields and the raised error are those of `Positions.UpdateCollPrice` on the old fields; the invariant is kept |
| Vaults.Vault.UpdateLoan | utils/vault.py:44-58 | the new fields and the raised error are those of `Positions.UpdateLoan` on the old fields, valued at the stored last price; the invariant is kept |
| Troves.Trove.New | utils/trove.py:2-20 | builds a trove exactly when `Create` succeeds, with the state `Create` gives, and otherwise fails with `Create`'s error |
| Troves.Trove.constructor | utils/trove.py:10-20 | the new trove's fields, with `coll_amount` and `coll_surplus`, are the position `Create` computes |
| Troves.Trove.Liquidate | utils/trove.py:22-28 | zeroes amount, value, liquidation buffer and surplus, sets the flag and records the updated value minus the loan |
| Troves.Trove.UpdateCollPrice | utils/trove.py:30-42 | the new fields and the raised error are those of `Positions.UpdateCollPrice` on the old fields; the invariant is kept |
| Troves.Trove.UpdateLoan | utils/trove.py:44-58 | the new fields and the raised error are those of `Positions.UpdateLoan` on the old fields, valued at the stored last price; the invariant is kept |
| Sentiment.SentimentBounded | utils/owner.py:103-105 | the sentiment of any gap lies strictly between −1 and 1 |
| Sentiment.SentimentSign | utils/owner.py:103-105 | the sentiment is positive, negative or zero exactly when the gap is |
| Sentiment.SentimentUnique | utils/owner.py:103-105 | the characterisation admits at most one value per gap, so it is a function |
| Sentiment.SentimentOdd | utils/owner.py:103-105 | negating the gap negates the sentiment |
| Sentiment.SentimentIncreasing | utils/owner.py:103-105 | a larger gap has a strictly larger sentiment |
| Indicators.MeanStep | utils/metrics.py:17-19 | the incremental update `(n×ma + price)/(n+1)` of the mean of n prices is the mean of the n+1 prices |
| Indicators.EmaPrefix | utils/metrics.py:22 | appending prices does not change any earlier EMA entry |
| Indicators.EmaWithinBounds | utils/metrics.py:22 | the EMA stays within any bounds that hold for the prices so far |
| Indicators.ZeroMeanAllZero | utils/metrics.py:19 | a zero mean of non-negative prices means every price so far is zero |
| Indicators.GapNaNOnlyAtZero | utils/metrics.py:25 | where the gap is undefined (mean zero) the EMA is zero as well, since every price so far is zero |
| Indicators.FirstGapIsZero | utils/metrics.py:22-25 | once the derived columns exist, row 0's gap is 0 for a positive first price |
| Indicators.AppendKeepsEarlierRows | utils/metrics.py:17-25 | appending a price adds exactly one row holding it and leaves every earlier row's price and mean unchanged; once the derived columns exist it leaves earlier rows wholly unchanged |
| Indicators.FillDerivedColumns | utils/metrics.py:22-25 | filling the EMA and gap columns of a table whose price and mean columns are right yields exactly the table of the prices |
| Indicators.PriceColumnOfTable | utils/metrics.py:17-21 | the price column of the table of a history is that history, so the table records every price in order |
| Indicators.AppendedPrimaryColumns | utils/metrics.py:17-21 | appending the new price with the incrementally updated mean to the table of a history gives the right price and mean columns for the longer history |
| Indicators.Metrics.New | utils/metrics.py:6-12 | fails, with `NegativePrice`, exactly when the first price is negative; otherwise the table is the single row (price, price) with no EMA or gap column |
| Indicators.Metrics.constructor | utils/metrics.py:9-12 | the table is the single row (price, price) with no EMA or gap column, and it is the table of that one price |
| Indicators.Metrics.UpdateIndicators | utils/metrics.py:14-25 | a negative price fails and leaves the table unchanged; otherwise the price history grows by exactly that price and the table is again the table of the history |
| Indicators.Metrics.GetIndicators | utils/metrics.py:27-28 | returns exactly the last row of the table of the price history: the last price, the mean of all prices, the EMA once it exists, no gap column exactly while the table has one row, and afterwards the gap `(ema − mean)/mean` of the history (NaN for a zero mean) |
| Indicators.Metrics.GetAllIndicators | utils/metrics.py:30-31 | returns the table of the price history |
| Policy.ActiveStep | utils/owner.py:46-52 | ACTIVE raises `DivisionByZero` at ratio 3, whatever the indicator price; every outcome keeps the invariant, the ratio and a live position (where it lands is `PolicyProperties.ActiveTargetsHalfBuffer`) |
| Policy.SentimentStep | utils/owner.py:54-69 | a missing gap column raises `MissingColumn`; a NaN or zero gap changes nothing; a bullish round with `lb ≤ vb/2` and a bearish round with `lb ≥ 0.75×vb` change nothing; the invariant is kept |
| Policy.RandomStep | utils/owner.py:74-82 | RANDOM does nothing when its coin says no; the invariant is kept |
| Policy.SimpleCollStep | utils/owner.py:84-88 | nothing happens while `vb/2 ≤ lb ≤ vb`; every outcome keeps the invariant, the ratio and a live position |
| Policy.SimpleLoanStep | utils/owner.py:90-96 | nothing happens when `lb = vb/2`; the invariant and the ratio are kept |
| Policy.TraditionalStep | utils/owner.py:98-101 | TRADITIONAL never changes the loan and does nothing while `lb` is within [0.75, 1.25]×`vb` |
| Policy.Modify | utils/owner.py:26-44 | a round does nothing to a liquidated position and nothing under PASSIVE; it keeps the invariant, the ratio, the last price and the liquidation flag |
| PolicyProperties.ActiveLoanAlgebra | utils/owner.py:48-50 | for a ratio below 3 and a share in [0, 1], the loan after ACTIVE's drawn share of `lb − vb/2` is non-negative |
| PolicyProperties.ActiveCollAlgebra | utils/owner.py:51 | for a ratio below 3 and a positive price, ACTIVE's collateral amount is non-negative and meets the ratio exactly at `lb = vb/2` |
| PolicyProperties.ActiveProportion | utils/owner.py:48-51 | for a ratio below 3, a positive price and a share in [0, 1], ACTIVE's two deltas form an accepted resize whose loan is `(1 − (m−1)/2)/m` of the new collateral value |
| PolicyProperties.ActiveTargetsHalfBuffer | utils/owner.py:46-52 | with the indicator price equal to the last price, a ratio below 3 and a share in [0, 1], ACTIVE commits the drawn loan change and leaves `lb = vb/2` |
| PolicyProperties.TraditionalAlgebra | utils/owner.py:100 | for a ratio below 2 and a positive price, TRADITIONAL's collateral amount is non-negative, solvent and puts the loan at the `lb = vb` target |
| PolicyProperties.TraditionalResizes | utils/owner.py:98-101 | TRADITIONAL's collateral change is accepted and puts the loan at the `lb = vb` target |
| PolicyProperties.TraditionalTargetsVolatilityBuffer | utils/owner.py:98-101 | when TRADITIONAL fires, with a ratio below 2 and a positive price, it commits, keeps the loan and leaves `lb = vb` |
| PolicyProperties.TargetAlgebra | utils/owner.py:63 | the shared closed form gives a non-negative, solvent loan in the proportion that yields the target buffer ratio |
| PolicyProperties.TargetProportion | utils/owner.py:63 | on a live position, for a buffer ratio with `br×(m−1) ≤ 1` and an affordable collateral change, the shared closed form is an accepted resize whose loan is `(1 − br(m−1))/m` of the new collateral value |
| PolicyProperties.OverdrawAlgebra | utils/owner.py:63 | when the buffer ratio times (m − 1) exceeds 1 and there is collateral value, the shared closed form asks for a negative loan |
| PolicyProperties.LandsOnBufferRatio | utils/vault.py:57-58 | a valid live position whose loan is `(1 − br(m−1))/m` of its collateral value has `lb = br×vb` |
| PolicyProperties.CommitsOnRatio | utils/vault.py:44-58 | an accepted resize to that loan proportion commits both deltas and lands on `lb = br×vb` |
| PolicyProperties.TargetCommits | utils/owner.py:63 | the shared closed form commits and lands on the target buffer ratio whenever that ratio times (m − 1) is at most 1 and the collateral change is affordable |
| PolicyProperties.TargetOverdraws | utils/owner.py:63 | on a resize that leaves collateral value, the shared closed form raises `OverExtraction` and changes nothing when the ratio times (m − 1) exceeds 1 |
| PolicyProperties.ScaledAmountNonNegative | utils/owner.py:79-80 | RANDOM's ±10% collateral change leaves the amount non-negative |
| PolicyProperties.RandomDrawsFit | utils/owner.py:77-80 | RANDOM's draws in range leave the amount non-negative and give a buffer ratio with `0 ≤ br×(m−1) ≤ 1` |
| PolicyProperties.RandomTargetsBufferRatio | utils/owner.py:74-82 | when RANDOM acts with draws in range, it commits, changes the amount by the drawn share and lands on `lb = buffer_ratio×vb` |
| PolicyProperties.BullishDrawsNonNegative | utils/owner.py:57-62 | for a positive sentiment, the bullish collateral change and buffer ratio are non-negative |
| PolicyProperties.AddedCollateralValue | utils/owner.py:58-63 | adding a non-negative amount of collateral keeps the amount non-negative and never lowers the collateral value at the last price |
| PolicyProperties.BullishTargetsBufferRatio | utils/owner.py:57-64 | bullish SENTIMENT_DRIVEN, when its buffer ratio times (m − 1) is at most 1, commits, never lowers the amount and lands on `lb = buffer_ratio×vb` |
| PolicyProperties.BullishOverdrawRaises | utils/owner.py:57-64 | bullish SENTIMENT_DRIVEN raises `OverExtraction` and changes nothing when its buffer ratio times (m − 1) exceeds 1 |
| PolicyProperties.RepayAlgebra | utils/owner.py:65-69 | the bearish repayment `lb − share×vb` keeps the loan non-negative when `share×(m−1) ≤ 1` and puts it at the target proportion |
| PolicyProperties.RepayProportion | utils/owner.py:65-69 | the bearish repayment puts the loan at `(1 − share(m−1))/m` of the collateral value, is accepted when `share×(m−1) ≤ 1`, and overdraws the loan when it exceeds 1 on a position with collateral value |
| PolicyProperties.RepayCommits | utils/owner.py:65-69 | a repayment with `share×(m−1) ≤ 1` commits and leaves `lb = share×vb` |
| PolicyProperties.RepayOverdraws | utils/owner.py:65-69 | a repayment with `share×(m−1) > 1` on a position with collateral value raises `OverExtraction` and changes nothing |
| PolicyProperties.RepayIsNegative | utils/owner.py:65-68 | when the bearish branch fires (`lb < 0.75×vb`) with a share of at least 0.75, the loan change is strictly negative |
| PolicyProperties.BearishBranch | utils/owner.py:54-69 | for a negative sentiment with `lb < 0.75×vb`, the whole SENTIMENT_DRIVEN round is the single repayment resize |
| PolicyProperties.BearishOnlyRepays | utils/owner.py:65-69 | when the bearish branch fires, the requested loan change is negative, the amount stays and the loan never grows |
| PolicyProperties.BearishTargetsDrawnShare | utils/owner.py:65-69 | the bearish branch lands on `lb = share×vb` when `share×(m−1) ≤ 1` and raises when it exceeds 1 on a position with collateral value |
| PolicyProperties.SimpleCollKeepsLoan | utils/owner.py:84-88 | SIMPLE_COLL never raises and never changes the loan; the amount ends unchanged, +5%, −5% or +5% then −5% |
| PolicyProperties.SimpleCollDeposits | utils/owner.py:84-88 | below `lb = vb/2` the 5% deposit commits and the amount ends 5% higher, or, only for a ratio below 1.1, 5% higher and then 5% lower |
| PolicyProperties.DepositStaysInBand | utils/owner.py:86-87 | after the 5% deposit from below `lb = vb/2`, a ratio of at least 1.1 keeps `lb ≤ vb`, so the withdrawal test fails |
| PolicyProperties.DepositAlgebra | utils/owner.py:85-87 | the arithmetic behind that: `lb < vb/2` before a 5% growth of the collateral value and m ≥ 1.1 give `lb ≤ vb` after it |
| PolicyProperties.SimpleCollWithdraws | utils/owner.py:87-88 | above `lb = vb` the amount ends 5% lower exactly when 95% of the collateral value still meets the ratio, and unchanged otherwise |
| PolicyProperties.DepositCommits | utils/owner.py:85-86 | SIMPLE_COLL's 5% deposit always commits, raising the amount by 5% and keeping the loan |
| PolicyProperties.WithdrawalNeverRaises | utils/owner.py:87-88 | SIMPLE_COLL's 5% withdrawal never raises and keeps the loan; the amount either drops by 5% or, when the ratio would break, stays |
| PolicyProperties.SimpleLoanTargetsHalfBuffer | utils/owner.py:90-96 | SIMPLE_LOAN never changes the amount; for a ratio of at most 3 it never raises; whenever it does not raise it ends at `lb = vb/2`, so its second branch cannot fire after the first commits |
| PolicyProperties.SimpleLoanAboveThree | utils/owner.py:90-93 | above ratio 3, on a live position with collateral value, SIMPLE_LOAN raises `OverExtraction` and changes nothing, because the repayment to `lb = vb/2` would leave a negative loan |
| PolicyProperties.SimpleLoanLandsAboveThree | utils/owner.py:90-96 | above ratio 3, SIMPLE_LOAN keeps the amount and, when it does not raise, ends at `lb = vb/2` |
| Owners.Owner.constructor | utils/owner.py:18-21 | the owner keeps the given strategy |
| Owners.Owner.ModifyVault | utils/owner.py:26-44 | the vault's new fields and the raised error are those of `Policy.Modify` for the owner's strategy; the invariant is kept |
| Owners.Owner.ModifyViaActive | utils/owner.py:46-52 | the vault ends as `Policy.ActiveStep` says |
| Owners.Owner.ModifyViaSentimentDriven | utils/owner.py:54-69 | the vault ends as `Policy.SentimentStep` says |
| Owners.Owner.ModifyViaRandom | utils/owner.py:74-82 | the vault ends as `Policy.RandomStep` says |
| Owners.Owner.ModifyViaSimpleColl | utils/owner.py:84-88 | the vault ends as `Policy.SimpleCollStep` says, the second test reading the first resize's result |
| Owners.Owner.ModifyViaSimpleLoan | utils/owner.py:90-96 | the vault ends as `Policy.SimpleLoanStep` says, the second test reading the first resize's result |
| Owners.Owner.ModifyViaTraditional | utils/owner.py:98-101 | the vault ends as `Policy.TraditionalStep` says |
| Borrowers.Borrower.constructor | utils/borrower.py:18-21 | the borrower keeps the given strategy |
| Borrowers.Borrower.ModifyTrove | utils/borrower.py:26-44 | read against the trove's own fields, the trove's new fields and the raised error are those of `Policy.Modify`; the invariant is kept |
| Borrowers.Borrower.ModifyViaActive | utils/borrower.py:46-52 | the trove ends as `Policy.ActiveStep` says |
| Borrowers.Borrower.ModifyViaSentimentDriven | utils/borrower.py:54-69 | the trove ends as `Policy.SentimentStep` says |
| Borrowers.Borrower.ModifyViaRandom | utils/borrower.py:74-82 | the trove ends as `Policy.RandomStep` says |
| Borrowers.Borrower.ModifyViaSimpleColl | utils/borrower.py:84-88 | the trove ends as `Policy.SimpleCollStep` says |
| Borrowers.Borrower.ModifyViaSimpleLoan | utils/borrower.py:90-96 | the trove ends as `Policy.SimpleLoanStep` says |
| Borrowers.Borrower.ModifyViaTraditional | utils/borrower.py:98-101 | the trove ends as `Policy.TraditionalStep` says |
| Borrowers.ModifyTroveAsWritten | utils/borrower.py:26-101 | as written, a round on a live trove raises `MissingAttribute` exactly when it reads `coll_balance` or `volatility_buffer`, whatever the indicator row; such a round changes nothing; every other round, on inputs whose arithmetic is defined, agrees with `Policy.Modify` |
| Borrowers.StaleAttributeBreaksActive | utils/borrower.py:46-52 | on every live trove with a ratio below 3 and a positive price, ACTIVE as written raises and changes nothing, while the corrected round commits and lands on `lb = vb/2` |

## Left out

- `get_strategy` (utils/owner.py:23-24, utils/borrower.py:23-24) is a plain accessor. The model exposes the strategy as the `const` field `strategy`.
- The constructors' `TypeError` for a non-strategy argument (utils/owner.py:18-21, utils/borrower.py:18-21) and the unreachable `case _` (line 43-44 of both files) have no counterpart. The type `Policy.Strategy` has exactly the seven strategies.
- The `__str__` methods (utils/vault.py:60-70, utils/trove.py:60-70) only report fields.
- The price simulators (utils/price_simulator.py, utils/simple_price_simulator.py, utils/market_stress_simulator.py) are random sources, not part of this model.
- Random draws (`uniform`, `choice`) are inputs in a `Draws` value. Only their ranges are stated, and the distributions are not modelled. RANDOM's `uniform(0, 0.8/(m−1))` is stated as `randomRatio×(m−1) ≤ 0.8`.
- IEEE floating point is replaced by `real`, so rounding, overflow and infinities are not modelled.
  - NaN appears only as the gap cell of a zero mean.
  - The numpy divisions in ACTIVE and TRADITIONAL (utils/owner.py:51, 100) would give an infinity or NaN rather than raise. Two cases are excluded by the preconditions in `Policy.Admissible`, `Policy.ActiveStep` and `Policy.TraditionalStep`. The first is a zero indicator price, in ACTIVE at a ratio other than 3 and in TRADITIONAL whenever it fires. The second is a minimum ratio of exactly 2 whenever TRADITIONAL fires. At ratio 2 the divisor `price×(2−m)` is 0, and utils/vault.py:51-58 would commit the infinite collateral change when the loan and the last price are positive. The model does not capture that.
- `sqrt` has no counterpart. The sentiment value is a parameter that must satisfy `Sentiment.IsSentimentOf`, and the model does not prove that such a value exists.
- pandas data frames and `deepcopy` are replaced by a `seq<Row>` value. Reading `.values[0]` of the newest row becomes passing that `Row`. Only the gap column can be missing, because it is absent until the first update.
- Exception messages are not modelled, only which exception is raised.
- `PolicyProperties.ActiveTargetsHalfBuffer` covers only ratios below 3 and a positive indicator price equal to the last price. Above ratio 3 the target amount is negative whenever the new loan is positive, so the resize would raise. The model does not prove this.
- `PolicyProperties.TraditionalTargetsVolatilityBuffer` covers only ratios below 2. Above ratio 2 the target amount is negative whenever the loan is positive. The model does not prove this case.
- The strategy lemmas assume what the simulation driver arranges: the indicator row's price is the position's last price.
- The volatility buffer is computed as `coll_value − lb − loan = coll_value×(m−1)/m` (utils/vault.py:19, utils/trove.py:19). This is at least `loan×(m−1)`, with equality exactly when the position sits at the minimum ratio, and `Positions.SolventBuffers` proves `vb ≥ loan×(m−1)`.

## Findings

| source | as written | input that shows it | evidently intended | confidence | as-written member | corrected member |
|---|---|---|---|---|---|---|
| utils/borrower.py:48-101 | the strategies read `trove.coll_balance` and `trove.volatility_buffer`, which `Trove` does not define (it has `coll_amount` and `coll_surplus`, utils/trove.py:13,19), so ACTIVE, SIMPLE_COLL, SIMPLE_LOAN, TRADITIONAL, an acting RANDOM and a non-zero SENTIMENT_DRIVEN round raise `AttributeError` before any update | any live trove under ACTIVE, e.g. price 2, amount 10, ratio 1.5, loan 10 | read the trove's `coll_amount` and `coll_surplus`, as the vault strategies read `coll_balance` and `volatility_buffer` | high; not executed | Borrowers.ModifyTroveAsWritten | Borrowers.Borrower.ModifyTrove |
