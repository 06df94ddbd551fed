# Anchor money market: a verified model

This Dafny project models the money market contracts of Anchor on Terra as transactional state
machines over fixed-point arithmetic, and proves what the contracts rely on across functions,
contracts and whole runs: that the market stays solvent and its stored exchange rate never falls,
that debts and ANC rewards match what is booked from both sides up to explicit rounding, that the
overseer and the market agree at every epoch, that collateral records agree across contracts, when a
liquidation goes through and that it lands on the safe ratio, that the bid book is consistent and
covered by coins, and that all of this holds in runs that interleave the transactions of all
contracts.

`dafny verify dfyconfig.toml` checks everything.

## How it is built

- **Arithmetic** (`FixedPoint`, `Tax`, `Totals`). A `Decimal256` is its raw natural number, scaled
  by F = 10^18; a `Uint256` is a natural number. `Mul` and `Div` floor as the source's operators do.
  A subtraction below zero or a division by zero panics in the source; here it is `None`. Reals
  appear only in specifications (ideal debts, ratios, totals over maps).
- **Specification on values** (`MarketModel`, `OverseerModel`, `Tokens`, `CollateralModel`,
  `BidBook`, `LiquidationModel`, `SystemModel`). One function per source function; `None` is an
  `Err` or a panic, after which the transaction leaves no trace. `SystemModel` joins the contracts:
  what one asks of another is computed from the other's state.
- **The contracts as they run** (`MarketContract`, `OverseerContract`, `TokenVectors`,
  `CollateralContract`, `BidContract`, `SystemContract`). Classes with the stored fields, loaded
  records updated in place, loops, and rollback on failure, each proved equal to its function.
- **Effects** (`Accrual`, `MarketEffects`, `CollateralEffects`, `BidEffects`, `SystemEffects`). What
  each transaction gives, takes and leaves alone, from both sides and without the functions it is
  computed by.
- **Theorems** (`Solvency`, `MarketSafety`, `MarketRun`, `Books`, `DebtCover`, `DebtFloor`,
  `AncRewards`, `AncFloor`, `RateTheorems`, `RoundingExamples`, `InterestDistribution`,
  `CollateralAgreement`, `Paging`, `LiquidationBounds`, `LiquidationTheorem`, `LiquidationSuccess`,
  `SystemRun`, `SystemExamples`). A run is a sequence of transactions, each with its own block,
  borrow-rate function, target rate and tax; a failed one changes nothing. Block heights are not
  assumed to grow.

## Assumptions about the environment

- aUST supply changes only through the market's mint and burn, and the 1000000 aUST minted to the
  market at init never move; a redeemer holds what it sends.
- The interest model, oracle, distribution model, tax rate and cap are arbitrary inputs of each
  transaction. Within one transaction the interest model is one function of balance, liabilities and
  reserves, and the oracle gives one price per token.
- A bank send of `net` coins costs the sender `net + min(floor(net * rate), cap)`. Anyone may send
  coins or tokens to any contract. Mints, burns and sends of a zero amount are accepted, as when a
  deposit is worth less than one unit of aUST; a token or bank module that refuses them would revert
  such a transaction.
- Factors, fees, `safe_ratio`, loan-to-value ratios and the tax rate are at most 1 where a statement
  says so (`FactorsOk`, `RatesOk`, `LtvOk`). Canonical addresses have one fixed length (20 bytes)
  where the bid book needs it. Each whitelisted token has one custody for good.

## What turned out not to hold

- The live exchange rate can fall: the skim takes back a donation or rounding gains.
  `LiveRateCanFall` gives a reachable state; `LiveRateFallsIff` gives the exact condition on the
  state and rates before the settlement. The stored rate never falls.
- Sending the reserves can move the live rate, upwards: tax rounding may keep a coin back.
  `SendingReservesCanRaiseRate` gives a reachable state, `ReservesLeaveRate` the exact condition.
- Recorded liabilities can round below a single loan, so repaying it in full reverts:
  `FullRepaymentCanRevert` reaches such a state from init; `RepaySafe` gives the exact condition,
  and `ReachableRepayment` says that only a part of the loan below the debt slack can be stuck.
- Settling at an unchanged index is idle only if loan * index is a multiple of 10^18, and otherwise
  drops one unit: `SettleAtSameIndex`.
- Starting a scan at `key ++ [1]` misses entries that extend the key by a zero byte: `RangeStartIs`,
  with `VariableLengthSkips` as an instance. With fixed-length keys there are none.

## Model

| member | source | states |
|---|---|---|
| MarketRun.ReachableSolvent | contracts/market/src/borrow.rs:289-330 | in every state reachable from init, cash + liabilities - reserves covers the aUST supply at the stored rate, the rate is at least 1, supply at least the initial deposit, and the remembered supply at most the supply |
| MarketRun.RunSafe | contracts/market/src/contract.rs:110-169 | any run from a good state keeps solvency and all borrower indices between 1 and the global index; stored rate, interest index and reward index never fall |
| MarketRun.StoredRateNeverFalls | contracts/market/src/borrow.rs:327-329 | along one run from init the stored exchange rate is monotone |
| MarketSafety.DepositSafe | contracts/market/src/deposit.rs:13-70 | in a good state a deposit fails exactly on zero coins, and keeps the state good: no panic |
| MarketSafety.RedeemSafe | contracts/market/src/deposit.rs:72-146 | a redemption fails exactly beyond the users' aUST or when the cash outside the reserves is short |
| MarketSafety.BorrowSafe | contracts/market/src/borrow.rs:19-85 | a borrow fails exactly on the limit, the borrow factor or the available cash; no subtraction underflows |
| MarketSafety.RepaySafe | contracts/market/src/borrow.rs:116-190 | a repayment fails exactly on zero coins or when the recorded liabilities are below the repaid part of the loan; the loan after it |
| MarketSafety.ClaimSafe | contracts/market/src/borrow.rs:192-237 | a claim never fails and leaves less than one whole ANC pending |
| MarketSafety.SettleInterestSafe | contracts/market/src/contract.rs:262-270 | settling interest before an interest model change never fails and keeps the state good |
| MarketSafety.EpochSafe | contracts/market/src/contract.rs:288-378 | the epoch step, after the distributed coins arrived, never fails and keeps the state good |
| Solvency.InterestKeepsSolvent | contracts/market/src/borrow.rs:289-330 | accrual never underflows, keeps solvency, and lowers neither stored rate, index, liabilities nor reserves |
| Solvency.RateIsCoverage | contracts/market/src/deposit.rs:164-177 | the exchange rate is the largest rate at which the assets cover the supply, defined exactly when assets are not negative |
| Solvency.ExcessYieldExact | contracts/market/src/borrow.rs:316-325 | the skimmed yield is an exact product: only the value of the deposits is floored |
| Accrual.InterestAccrues | contracts/market/src/borrow.rs:289-330 | over n blocks at borrow rate r liabilities and interest index grow by the factor 1 + n*r, short of less than one raw unit; supply and height are remembered, rewards left alone |
| Accrual.LoanAfterBlocks | contracts/market/src/borrow.rs:300-337 | a loan settled n blocks later at rate r is at most the loan times 1 + n*r, and above it minus two coins and loan/10^18 |
| Accrual.FirstAccrual | contracts/market/src/contract.rs:67-78 | counted from init: the index is 1 + n*r after n blocks, nothing is owed, the rate is still 1, and ANC accrues from here at the emission rate of init |
| Accrual.RewardAccrues | contracts/market/src/borrow.rs:340-354 | while something is lent the reward index moves by the largest step that hands out at most blocks * emission rate over liabilities / index; otherwise not at all |
| Accrual.RewardCredited | contracts/market/src/borrow.rs:357-362 | a settlement credits the borrower's share times the index difference, short of less than one raw unit |
| DebtCover.ReachableDebtCover | contracts/market/src/borrow.rs:303-308 | in every reachable state liabilities = lent - repaid + interest exactly, and all debts together are at most liabilities + slack |
| DebtCover.SlackBound | contracts/market/src/borrow.rs:300-308 | after n transactions the slack is at most n units of 10^-18, grown by the run's interest factors |
| DebtFloor.ReachableDebtFloor | contracts/market/src/borrow.rs:300-337 | in every reachable state all debts together are at least the liabilities less a gap, and after n transactions the gap is at most n times (two coins and one raw unit for each coin ever lent), grown by the run's interest factors |
| DebtFloor.InterestKeepsFloor | contracts/market/src/borrow.rs:303-308 | one accrual takes the liabilities above the debts by at most the compounded gap and one raw unit for each coin's weight in the index |
| DebtFloor.DebtAfterChangeAtLeast | contracts/market/src/borrow.rs:333-337 | settling one borrower and changing its loan moves the debts by at least the change less two coins |
| DebtCover.InterestKeepsDebt | contracts/market/src/borrow.rs:303-308 | one accrual rounds the debts above the liabilities by less than one unit beyond the compounded slack |
| DebtCover.DebtAfterLoanChange | contracts/market/src/borrow.rs:333-337 | settling one borrower and changing its loan raises the debts by at most the change |
| DebtCover.LoanWithinLiabilities | contracts/market/src/borrow.rs:153-176 | no settled loan is above the settled liabilities by more than the slack |
| DebtCover.ReachableRepayment | contracts/market/src/borrow.rs:153-176 | in every reachable state a repayment of some coins fails only if it would leave less than the slack of the loan |
| AncRewards.ReachableAnc | contracts/market/src/borrow.rs:340-362 | in every reachable state claimed + pending + unsettled ANC is at most the emission plus a slack, and the slack is at most (1 + debt slack) * reward index |
| AncRewards.AncSlackBound | contracts/market/src/borrow.rs:340-354 | along any run the ANC slack stays within what 1 + debt slack units of 10^-18 would have earned |
| AncRewards.CoveredAnc | contracts/market/src/borrow.rs:340-362 | on runs whose debts stay covered, claimed + pending + unsettled ANC is at most the emission |
| AncFloor.ReachableAncFloor | contracts/market/src/borrow.rs:340-362 | in every reachable state claimed + pending + unsettled ANC is at least the emission, less what accrued while nothing was lent and less a gap; the gap is at most what the shares no borrower holds have earned since init, plus an explicit rounding for each transaction |
| AncFloor.NoIdleEmission | contracts/market/src/borrow.rs:346-351 | on runs where liabilities / index is above zero at each accrual of rewards, no emission is idle |
| AncFloor.UnownedWithin | contracts/market/src/borrow.rs:347-347 | the shares that liabilities / index counts and no borrower holds are at most the debt gap and one unit for each borrower |
| AncRewards.RewardKeepsAnc | contracts/market/src/borrow.rs:340-354 | one step of the reward index entitles borrowers to at most what it accrues, despite floored divisor and shares |
| AncRewards.AncAfterSettle | contracts/market/src/borrow.rs:357-362 | a late settlement at a later index pays no more than the share that was already accounted for |
| AncFloor.AncAfterSettleAtLeast | contracts/market/src/borrow.rs:357-362 | and it loses at most one raw unit and twice what a coin earned since that borrower's last settlement |
| RateTheorems.YieldCap | contracts/market/src/borrow.rs:310-329 | above the target the settled rate is at least prev grown by the target, and beyond it by less than an explicit rounding bound |
| RateTheorems.DepositRedeemRoundTrip | contracts/market/src/deposit.rs:48-98 | depositing d and redeeming the minted m in the same block pays r with r*10^18 < d*10^18 + m, so r <= d while m <= 10^18 |
| MarketEffects.RoundTripLoss | contracts/market/src/deposit.rs:48-98 | and such a round trip loses less than one coin and one aUST at the rate it was minted at |
| MarketEffects.DepositEffect | contracts/market/src/deposit.rs:13-70 | a deposit mints the most aUST that the coins pay for at the live rate, takes the coins, and leaves borrowers alone |
| MarketEffects.RedeemEffect | contracts/market/src/deposit.rs:72-128 | a redemption burns the aUST and costs the market its worth at the live rate short of less than one coin, less at most three units of tax rounding |
| MarketEffects.BorrowEffect | contracts/market/src/borrow.rs:19-85 | a borrow adds exactly the amount to the settled loan and to the liabilities, leaves every other borrower alone, and lowers the cash by the net sent plus its tax |
| MarketEffects.RepayEffect | contracts/market/src/borrow.rs:116-190 | a repayment takes the smaller of coins and loan off the loan and the liabilities and refunds the rest within its tax; every other borrower is left alone |
| MarketEffects.ClaimEffect | contracts/market/src/borrow.rs:192-237 | a claim pays all whole ANC and keeps the fraction; balances, supply and every other borrower are left alone |
| MarketEffects.EpochEffect | contracts/market/src/contract.rs:288-378 | the whole coins of the reserves are sent exactly when there are some and the cash without the distributed coins is more; the new emission rate is stored |
| MarketEffects.QueriesAsStored | contracts/market/src/contract.rs:463-518 | without a block height: the loan as stored, and the rate two-sided against the stored assets |
| MarketEffects.QueriesAsSettled | contracts/market/src/contract.rs:463-518 | with one: the loan as a handler of that block settles it, and the rate the epoch step stores |
| RateTheorems.DepositKeepsRate | contracts/market/src/deposit.rs:48-51 | a deposit never lowers the live rate below the one it was minted at |
| RateTheorems.RedeemKeepsRate | contracts/market/src/deposit.rs:86-98 | a redemption never lowers the live rate for the remaining holders |
| RateTheorems.LiveRateFallsIff | contracts/market/src/borrow.rs:310-329 | settling interest lowers the live rate exactly when the deposit rate quoted before the skim is above the target and its excess, over the remembered deposits and blocks, is more than the interest plus what the old rate had rounded away |
| RateTheorems.SettledLoanBounds | contracts/market/src/borrow.rs:333-337 | after any number of settlements at indices of at least 1 a loan L is at most the ideal L*in/i0, and above it minus 2 times the sum of in/ik |
| RateTheorems.SettleAtSameIndex | contracts/market/src/borrow.rs:333-337 | settling at the same index keeps the loan exactly when loan*index is a multiple of 10^18, else drops one unit |
| RoundingExamples.FullRepaymentCanRevert | contracts/market/src/borrow.rs:153-176 | a run from init after which a full repayment underflows the liabilities, with debts above them |
| RoundingExamples.LiveRateCanFall | contracts/market/src/borrow.rs:310-325 | a run from init after which settling interest halves the live rate |
| RoundingExamples.SendingReservesCanRaiseRate | contracts/market/src/contract.rs:334-351 | a run from init after which an epoch step leaves the live rate above the one it stores |
| MarketContract.StateRecord.ComputeInterestRaw | contracts/market/src/borrow.rs:289-330 | the in-place accrual of a loaded state is the specified one, and panics exactly when it does |
| MarketContract.StateRecord.ComputeInterest | contracts/market/src/borrow.rs:243-282 | accrual with the queried borrow rate, idle within a block |
| MarketContract.StateRecord.ComputeReward | contracts/market/src/borrow.rs:340-354 | the in-place reward accrual of a loaded state |
| MarketContract.StateRecord.SettleEpoch | contracts/market/src/contract.rs:319-332 | interest without, and stored rate with, the distributed coins, then rewards |
| MarketContract.BorrowerRecord.ComputeBorrowerInterest | contracts/market/src/borrow.rs:333-337 | the in-place settlement of a loaded loan |
| MarketContract.BorrowerRecord.ComputeBorrowerReward | contracts/market/src/borrow.rs:357-362 | the in-place settlement of a loaded reward |
| MarketContract.Market.Init | contracts/market/src/contract.rs:28-95 | the initial state, balance and supply, and no contract at all with any other deposit |
| MarketContract.Market.DepositStable | contracts/market/src/deposit.rs:13-70 | new storage, balance and supply as specified, or everything as before |
| MarketContract.Market.RedeemStable | contracts/market/src/deposit.rs:72-128 | new storage, balance and supply as specified, or everything as before |
| MarketContract.Market.BorrowStable | contracts/market/src/borrow.rs:19-85 | new storage and balance as specified, or everything as before |
| MarketContract.Market.AssertMaxBorrowFactor | contracts/market/src/borrow.rs:407-437 | accepts exactly demands within the borrow factor and the available cash |
| MarketContract.Market.RepayStable | contracts/market/src/borrow.rs:116-190 | new storage and balance with the refund, or everything as before |
| MarketContract.Market.RepayStableFromLiquidation | contracts/market/src/borrow.rs:87-114 | repays what the balance gained since the given one, or everything as before |
| MarketContract.Market.ClaimRewards | contracts/market/src/borrow.rs:192-237 | new storage and the whole ANC claimed |
| MarketContract.Market.SettleInterest | contracts/market/src/contract.rs:262-265 | stores the settled state |
| MarketContract.Market.ExecuteEpochOperations | contracts/market/src/contract.rs:288-378 | new storage and balance after settling and sending the reserves |
| MarketContract.Market.QueryEpochState | contracts/market/src/contract.rs:463-518 | the previewed exchange rate, or without a block height the present one, with the supply; storage unchanged |
| MarketContract.Market.QueryBorrowerInfo | contracts/market/src/borrow.rs:364-390 | the loan as every handler in that block would settle it, or without a block height as it is stored |
| OverseerModel.PreviewIsExecution | contracts/overseer/src/contract.rs:423-461 | the rate the market previews for the overseer is the one its epoch step then stores |
| OverseerModel.ReservesLeaveRate | contracts/market/src/contract.rs:334-351 | sending the reserves leaves the live rate at least the stored one, and at it exactly when the coins kept back by tax rounding and the fraction rounded away by the stored rate are together below one raw unit per aUST |
| OverseerModel.SplitConserves | contracts/overseer/src/contract.rs:303-370 | purchase + pre-tax distribution + kept buffer is exactly the buffer, and the split never fails with factors up to 1 |
| OverseerModel.SplitFigures | contracts/overseer/src/contract.rs:303-370 | the ANC purchase is the floored part of what the buffer gained; below the threshold the smaller of the missing deposits and the floored part of the rest is distributed, otherwise nothing |
| OverseerModel.EpochTheorem | contracts/overseer/src/contract.rs:276-471 | an epoch fails exactly when too early; afterwards both contracts store the same rate, not below the old one, the overseer has recorded the block, the market's aUST supply and the kept buffer, and its coins, after both sends and the rewards, cover that buffer |
| OverseerModel.FirstEpoch | contracts/overseer/src/contract.rs:27-62 | instantiated at a height, the overseer runs its first epoch exactly a period and at least one block later |
| OverseerModel.ReachableWorld | contracts/overseer/src/contract.rs:297-311 | in every reachable state the overseer's stored rate lies between 1 and the market's and its balance covers the recorded buffer |
| OverseerModel.WorldMarketIsMarketRun | contracts/overseer/src/contract.rs:406-471 | the market beside the overseer goes through a market run, so every theorem on market runs applies |
| InterestDistribution.DistributionIsCapped | contracts/overseer/src/contract.rs:331-370 | distributing never lowers the deposit rate, and never lifts it more than one raw unit above the threshold while aUST is at least the remembered supply |
| InterestDistribution.DistributionReaches | contracts/overseer/src/contract.rs:331-370 | without tax, with the remembered supply and a buffer that does not bind, the stored deposit rate reaches the threshold up to an explicit rounding |
| InterestDistribution.NextEpochReaches | contracts/overseer/src/contract.rs:423-461 | after an epoch, with no mint or burn in between, the next epoch reaches its threshold in that sense: the remembered supply is the present one |
| OverseerContract.Overseer.Init | contracts/overseer/src/contract.rs:50-59 | the initial epoch state |
| OverseerContract.Overseer.ExecuteEpochOperations | contracts/overseer/src/contract.rs:276-404 | the whole epoch transaction on both contracts, or both as before |
| OverseerContract.Overseer.PlanEpoch | contracts/overseer/src/contract.rs:282-301 | the quoted deposit rate and the resulting split |
| OverseerContract.Overseer.SplitInterestBuffer | contracts/overseer/src/contract.rs:303-345 | the reassigned buffer figures are the specified split |
| OverseerContract.Overseer.SendAndUpdate | contracts/overseer/src/contract.rs:313-390 | sends, rewards and update in order, or both contracts as before |
| OverseerContract.Overseer.UpdateEpochState | contracts/overseer/src/contract.rs:406-471 | stores the epoch state and drives the market, or both contracts as before |
| Tokens.AddRefinesMaps | packages/moneymarket/src/tokens.rs:66-112 | add panics exactly on a repeated token, and otherwise gives the sorted, zero-free pointwise sum |
| Tokens.SubRefinesMaps | packages/moneymarket/src/tokens.rs:28-64 | without repeats sub succeeds exactly when every listed token is held in that amount, and gives the sorted, zero-free difference |
| Tokens.AddThenSub | packages/moneymarket/src/tokens.rs:28-112 | adding positive amounts and subtracting them gives back the vector, sorted and without zeros |
| Tokens.CanonicalUnique | packages/moneymarket/src/tokens.rs:60-110 | sorted zero-free vectors with equal amounts are equal |
| Tokens.DuplicateCheck | packages/moneymarket/src/tokens.rs:114-129 | after sorting, the adjacent check finds exactly the vectors that repeat a token |
| TokenVectors.HasDuplicateToken | packages/moneymarket/src/tokens.rs:114-129 | the loop finds exactly an adjacent repeat |
| TokenVectors.MergeSorted | packages/moneymarket/src/tokens.rs:74-104 | the merge loops compute the specified merge |
| TokenVectors.TokenVec.Add | packages/moneymarket/src/tokens.rs:66-112 | the vector becomes the specified sum, or the call panics |
| TokenVectors.TokenVec.Sub | packages/moneymarket/src/tokens.rs:28-64 | the vector becomes the specified difference, or the call fails |
| TokenVectors.TokenVec.Subtract | packages/moneymarket/src/tokens.rs:36-58 | the in-place two-pointer loop computes the specified subtraction |
| CollateralAgreement.ReachableAgreement | contracts/overseer/src/collateral.rs:21-205 | in every reachable state the overseer's record of every borrower and token is custody balance - spendable, spendable <= balance, and each custody holds its balances in tokens |
| CollateralAgreement.LockKeepsAgreement | contracts/overseer/src/collateral.rs:21-62 | locking fails exactly on a repeated or unregistered token or beyond the spendable amount, and keeps agreement |
| CollateralAgreement.UnlockKeepsAgreement | contracts/overseer/src/collateral.rs:64-125 | unlocking fails exactly in the overseer's own checks, never at a custody, and keeps agreement |
| CollateralAgreement.TakeKeepsAgreement | contracts/overseer/src/collateral.rs:162-187 | liquidating amounts fails exactly when the overseer does not record them, and keeps agreement |
| CollateralModel.WithdrawKeepsCustody | contracts/custody_bluna/src/collateral.rs:45-91 | a withdrawal fails exactly beyond the spendable amount and leaves everyone's locked amount alone |
| CollateralModel.PerformKeepsCustody | contracts/custody_bluna/src/collateral.rs:96-214 | a lock, unlock or liquidation fails exactly beyond what it may take and moves only that borrower's locked amount |
| CollateralEffects.DepositEffect | contracts/custody_bluna/src/collateral.rs:18-41 | balance, spendable and holding grow by the amount, every other record is left alone |
| CollateralEffects.WithdrawEffect | contracts/custody_bluna/src/collateral.rs:45-91 | balance, spendable and holding fall by the amount asked for, or by all that is spendable; the record is gone exactly when nothing is left |
| CollateralEffects.PerformEffect | contracts/custody_bluna/src/collateral.rs:96-214 | what a lock, an unlock and a liquidation do to balance, spendable and holding, with every other record left alone |
| CollateralEffects.BorrowLimitBounds | contracts/overseer/src/collateral.rs:241-274 | the limit exists exactly when every token has a price and a ratio, and is the sum of amount * price * ratio short of at most two coins a token; prices in the same order |
| CollateralContract.Custody.DepositCollateral | contracts/custody_bluna/src/collateral.rs:18-41 | the record and the holding grow by the amount |
| CollateralContract.Custody.WithdrawCollateral | contracts/custody_bluna/src/collateral.rs:45-91 | the specified ledger, or as before |
| CollateralContract.Custody.LockCollateral | contracts/custody_bluna/src/collateral.rs:96-127 | the specified ledger, or as before |
| CollateralContract.Custody.UnlockCollateral | contracts/custody_bluna/src/collateral.rs:132-165 | the specified ledger, or as before |
| CollateralContract.Custody.LiquidateCollateral | contracts/custody_bluna/src/collateral.rs:167-214 | the specified ledger, or as before |
| CollateralContract.ComputeBorrowLimit | contracts/overseer/src/collateral.rs:241-274 | the loop's limit and prices are the specified ones, or an error on a missing price or ratio |
| CollateralContract.OverseerCollaterals.SendAll | contracts/overseer/src/collateral.rs:34-45 | one message per token in order, all or none |
| CollateralContract.OverseerCollaterals.LockCollateral | contracts/overseer/src/collateral.rs:21-62 | overseer and custodies as specified, or as before |
| CollateralContract.OverseerCollaterals.UnlockCollateral | contracts/overseer/src/collateral.rs:64-125 | overseer and custodies as specified, or as before |
| CollateralContract.OverseerCollaterals.TakeCollateral | contracts/overseer/src/collateral.rs:164-187 | overseer and custodies as specified, or as before |
| BidBook.ReachableBook | contracts/liquidation/src/state.rs:44-98 | in every reachable state a bid exists exactly when both indices list it, no other key is stored, and the coins cover all bids |
| BidBook.KeyInjective | contracts/liquidation/src/state.rs:50-54 | the concatenated key determines both fixed-length addresses |
| BidBook.KeyNeedsFixedLength | contracts/liquidation/src/state.rs:50-54 | addresses of different lengths can share a key |
| BidBook.SubmitSafe | contracts/liquidation/src/bid.rs:16-72 | a submission fails exactly on a standing bid, an excessive premium or no coins |
| BidBook.RetractSafe | contracts/liquidation/src/bid.rs:74-127 | a retraction fails exactly without a bid or beyond it; its coins are always there |
| BidBook.ExecuteSafe | contracts/liquidation/src/bid.rs:129-231 | an execution fails exactly without bid, fresh price or enough bid; the debit covers repayment, fee and the tax on both |
| BidEffects.SubmitEffect | contracts/liquidation/src/bid.rs:16-72 | a submission stores the coins sent and the premium asked for, and leaves every other bid alone |
| BidEffects.RetractEffect | contracts/liquidation/src/bid.rs:74-127 | a retraction takes the amount, or all, off the bid, keeps the premium of what stays, and pays it out net of tax, within three units |
| BidEffects.RequiredBounds | contracts/liquidation/src/bid.rs:155-162 | the price is amount * price * (1 - premium), the premium capped at the maximum, short of less than two coins |
| BidEffects.ExecuteEffect | contracts/liquidation/src/bid.rs:129-231 | an execution takes the price off the bid, keeps the premium of what stays, and pays the floored fee and the rest, each net of tax; every other bid is left alone |
| BidBook.FeeWithin | contracts/liquidation/src/bid.rs:180-181 | the debit splits exactly into repayment and fee |
| BidContract.Liquidation.StoreBid | contracts/liquidation/src/state.rs:44-67 | all three buckets updated |
| BidContract.Liquidation.RemoveBid | contracts/liquidation/src/state.rs:69-86 | all three buckets updated |
| BidContract.Liquidation.SubmitBid | contracts/liquidation/src/bid.rs:16-72 | the specified book, or as before |
| BidContract.Liquidation.RetractBid | contracts/liquidation/src/bid.rs:74-127 | the specified book, or as before |
| BidContract.Liquidation.ExecuteBid | contracts/liquidation/src/bid.rs:129-231 | the specified book and the two net payments, or as before |
| Tax.OutflowWithinGross | packages/moneymarket/src/querier.rs:83-106 | the deducted amount plus the chain's tax on it never exceeds the gross amount |
| Tax.NetAtLeast | packages/moneymarket/src/querier.rs:83-106 | the deduction is at most the cap and leaves at least amount / (1 + rate) short of one unit |
| Tax.OutflowNearGross | packages/moneymarket/src/querier.rs:83-106 | the deducted amount plus the chain's tax on it is the gross amount short of at most three units, at a tax rate of at most 1 |
| Paging.PagingIsComplete | contracts/liquidation/src/state.rs:103-173 | paging with any limit of at least one ends and concatenates to exactly one full scan |
| Paging.PageLength | contracts/liquidation/src/state.rs:101-119 | a page holds all that is left, unless that is more than the limit: 10 without one, and 30 whatever is asked for |
| Paging.AscendingFacts | contracts/liquidation/src/state.rs:117-119 | a full scan lists every key once in ascending order |
| Paging.RangeStartIs | contracts/liquidation/src/state.rs:175-182 | starting at key ++ [1] skips exactly the keys up to it and its extensions by a zero byte |
| Paging.VariableLengthSkips | contracts/liquidation/src/state.rs:175-182 | an entry that a scan of keys of different lengths never shows |
| Paging.ScansNeverMiss | contracts/liquidation/src/state.rs:120-123 | no listed key of either index lacks its bid |
| LiquidationModel.AmountsApply | contracts/liquidation/src/contract.rs:226-288 | the query always answers with positive amounts inside the holdings, so the overseer's sub succeeds and leaves the differences |
| LiquidationModel.RatioDefined | contracts/liquidation/src/contract.rs:264-273 | no subtraction or division of the ratio fails and it is below 1 |
| LiquidationModel.AmountsInProportion | contracts/liquidation/src/contract.rs:226-288 | nothing within the limit, everything when the collateral brings no more than the loan; otherwise of each token the part loan / expected below the threshold and (loan - safe) / (expected - safe) from it on, at most that and short of one unit and amount/10^18 |
| CollateralEffects.ValueBounds | contracts/liquidation/src/contract.rs:242-247 | the value a liquidation goes by is the sum of amount * price, short of at most one coin a token |
| LiquidationModel.SumCollateralsValue | contracts/liquidation/src/contract.rs:242-247 | the loop sums the values of the zipped vectors |
| LiquidationModel.ScaleCollaterals | contracts/liquidation/src/contract.rs:275-286 | the zipped, scaled vector without its zero amounts |
| LiquidationModel.QueryLiquidationAmount | contracts/liquidation/src/contract.rs:226-288 | the branches compute the specified amounts |
| LiquidationBounds.BidPays | contracts/liquidation/src/bid.rs:155-193 | any allowed bid pays at least value times (1-premium)(1-fee)(1-tax), short of three units |
| LiquidationBounds.DeductorWithinTwo | contracts/liquidation/src/contract.rs:251-253 | the fee deductor is the real product, short of less than two raw units |
| LiquidationTheorem.BidsBringExpected | contracts/liquidation/src/contract.rs:255-286 | the bids for scaled amounts bring at least ratio times the expected repayment, short of the price slack |
| LiquidationTheorem.RemainingLimit | contracts/overseer/src/collateral.rs:241-274 | the limit of what remains is at least (1 - ratio) of the limit, short of two units per token |
| LiquidationTheorem.MarketRepaid | contracts/market/src/borrow.rs:87-114 | coins that arrived since the overseer looked repay the previewed loan like a direct repayment |
| LiquidationTheorem.MessagesRegroup | contracts/overseer/src/collateral.rs:171-187 | custody calls and bids alternating per token come to the same as all calls followed by all bids |
| LiquidationTheorem.TakeKeepsSystem | contracts/overseer/src/collateral.rs:164-204 | whatever is taken and repaid, every contract keeps its invariant |
| LiquidationTheorem.LiquidationAchieves | contracts/overseer/src/collateral.rs:127-205 | a successful liquidation keeps all contracts' invariants; if the expected repayment exceeds the loan, it leaves debt at most safe_ratio times the remaining limit (below the threshold: nothing), up to an explicit rounding; otherwise it sells everything and the loan falls by at least the expected repayment less the price slack |
| LiquidationSuccess.BidsGoThrough | contracts/liquidation/src/bid.rs:140-181 | the bids of a liquidation all succeed exactly when each by itself covers its price, and bring the sum of their payments |
| LiquidationSuccess.LiquidationSucceedsIff | contracts/overseer/src/collateral.rs:127-205 | with rates up to 1 a liquidation succeeds exactly when every recorded collateral has a fresh price and a ratio, loan > limit, the liquidator's bids suffice, and they bring some coins that the recorded liabilities can absorb: nothing else can fail |
| SystemRun.ReachableSystem | contracts/overseer/src/collateral.rs:21-205 | in every state reachable by interleaving the transactions of all contracts, liquidations included, every contract's invariant holds |
| SystemRun.SystemMarketIsMarketRun | contracts/market/src/borrow.rs:87-114 | the market of such a run goes through a market run, so debt cover and ANC conservation hold there too |
| SystemRun.BorrowedIsBacked | contracts/market/src/borrow.rs:41-50 | a loan just taken cannot be liquidated in the same block at the same prices |
| SystemRun.UnlockedIsBacked | contracts/overseer/src/collateral.rs:84-93 | neither can the loan of a borrower who has just unlocked collateral |
| SystemRun.LiquidationMakesNoCoins | contracts/liquidation/src/bid.rs:180-216 | a liquidation never increases the coins of liquidation contract, market and overseer together |
| SystemEffects.LiquidationCoins | contracts/overseer/src/collateral.rs:164-205 | exactly what a liquidation does to the coins: the liquidation contract pays repayment, fees and the tax on them, the overseer keeps the fees, the market repays the loan with the rest and refunds what it did not need |
| SystemEffects.BorrowSucceedsIff | contracts/market/src/borrow.rs:19-85 | across contracts a borrow succeeds exactly when the recorded collaterals back the settled loan with the amount and the market can lend it |
| SystemEffects.UnlockSucceedsIff | contracts/overseer/src/collateral.rs:64-125 | across contracts an unlock succeeds exactly when that much is recorded and what stays backs the loan as the market settles it |
| SystemExamples.LiquidationHappens | contracts/overseer/src/collateral.rs:127-205 | a run from init in which a liquidation succeeds and lands exactly on the safe ratio |
| SystemContract.Contracts.BorrowStable | contracts/market/src/borrow.rs:19-85 | the market's borrow with the limit of the collaterals the overseer stores, or everything as before |
| SystemContract.Contracts.UnlockCollateral | contracts/overseer/src/collateral.rs:64-125 | the overseer's unlock with the loan the market answers, or everything as before |
| SystemContract.Contracts.LiquidateCollateral | contracts/overseer/src/collateral.rs:127-205 | the whole transaction on all contracts, fees to the overseer included, or all as before |
| SystemContract.Contracts.TakeEach | contracts/overseer/src/collateral.rs:171-187 | one message per token in order: custody, bid and coins, skipping a token that is not whitelisted |
| SystemContract.Contracts.Conclude | contracts/overseer/src/collateral.rs:189-204 | the received coins repaid and everything stored, or all as before |

## Left out

- 256-bit and 128-bit overflow: numbers are unbounded.
- Message routing, serialization, logs, permission checks, `register_*` and most of `update_config`:
  single-branch facts. Changing the interest model is modelled by its settlement.
- `update_whitelist`, `register_whitelist`: the tokens and their custodies are fixed from the start.
- Oracle, interest model and distribution model: their answers are arbitrary inputs.
- Custody reward claiming and swapping: an inflow to the overseer. bAsset internals and cw20
  approvals are not modelled.
- Market and overseer `migrate`: the legacy layout is not modelled.
- The `solana` crate: an empty stub.
- CollateralContract.OverseerCollaterals.LockCollateral: custodies are held by value in one map, not
  as separate objects; `CollateralContract.Custody` is the object form of one of them.
- CollateralContract.OverseerCollaterals.UnlockCollateral: the loan is an input there;
  `SystemContract.Contracts.UnlockCollateral` queries it.
- MarketContract.Market.BorrowStable: the borrow limit is an input there;
  `SystemContract.Contracts.BorrowStable` queries it.
- SystemContract.Contracts.LiquidateCollateral: the messages work on copies of the custodies and
  bids that are stored at the end; `CollateralContract.Custody` and `BidContract.Liquidation` are
  the handlers in place.
- TokenVectors.TokenVec.Sub: after a failure the contents of the discarded vector are not described,
  and a panic is not told apart from an `Err`.
- Sorting of token vectors: an operation of the standard library, given as a function with its order
  and permutation proved.
- Paging: stated on the liquidation contract's indices; the other contracts' scans use the same
  code.
