# rust-ohm core, modelled in Dafny

This project models the arithmetic and state transitions of four CosmWasm contracts of an Olympus-style protocol:

- **Bond contract.** Debt decays linearly over the vesting term. The bond price is the control variable times the debt ratio, never below a minimum price, and the mutating variant clears that floor once it stops binding. A scheduled adjustment moves the control variable towards a target and stops itself. Queries cover the vesting percentage, pending payout, maximum payout, payout for a value, and the oracle staleness guard. The model also covers the guard sequence at the head of a deposit and the admin setters.
- **Staking contract.** The exchange rate is the base-token balance over the staked supply, and never less than one. Stake mints `deposit / rate`; unstake redeems `amount * rate`. The epoch rebase does nothing until the epoch ends, then mints `balance * apr` and advances exactly one epoch. Message builders are modelled too.
- **sCW20 token.** A rebase grows the total supply by the reported profit, capped at `u64::MAX`, and recomputes the gons per fragment.
- **Lock contract.** Deposit fees, linear and cliff vesting, lock creation with a deposit-id counter, unlock authorisation and guards, and the accepted-token allow-list.

How the model represents the host:

- `Decimal256` is a `nat` counting units of 10⁻¹⁸ (`FixedPoint`). `from_ratio`, decimal multiplication and division, and whole-unit truncation are all floored.
- Values that contracts query from the chain are parameters: block time, bank balance and supply, the oracle's quote, the debt ratio, the sender and the attached funds.
- Outgoing messages are the abstract datatype `Cosmos.Msg`.
- A failed call aborts the transaction, so every `Err` path leaves the stored state as it was.
- Contracts whose storage the source updates in place are classes with `modifies` frames: `BondContract`, `Staking`, `Scw20` and `LockContract`. Pure computations are functions, with lemmas relating them.

Where the code and its documented intent differ, the model follows the code, with four exceptions. These are the four defects listed under "## Findings": the fixed deposit fee, the unsaved unlock, the adjustment clock and the unstake exclusion. For each of them the code as written is its own member, named in that table. The contract classes, and the `unstake` function, run the corrected variants instead. The other differences:

- A staking rebase advances exactly one epoch per call, so it is not idempotent when several epochs have elapsed (`StakingExecute.RebaseAgainSameTime`).
- `percent_vested_for` is 0, not 100%, when no vesting time is left.
- `current_exchange_rate` is defined with one exclusion, but its call sites pass two. The model takes both: an amount excluded from the balance and one excluded from the staked supply.
- The bond deposit calls an undefined `_bondPrice()`. The model uses `query_bond_price`, with the debt ratio as a parameter.
- The outstanding debt item is read as `CURRENT_DEBT` but stored as `TOTAL_DEBT`. Both are the field `BondContract.totalDebt`.
- The staking `instantiate` and `Config` are stale. The model's configuration holds `epoch_length`, `epoch_apr` and `admin`, as `rebase` uses them. The epoch state holds `epoch_end` and `epoch_number`.
- The base token's subdenom is a parameter (`baseSubdenom`).
- The lock `Config` holds `next_deposit_id`, as `instantiate` and `execute_lock` use it.
- The lock contract's `DepositLock` is modelled as `Linear(start, per_second_vesting)` or `TimeUnlock(unlock)`.

## Model

| member | source | states |
|---|---|---|
| Cosmos.DepositOneCoin | contracts/staking/src/helpers.rs:7-18 | Succeeds iff exactly one coin of the expected denom is attached, and then returns its amount; otherwise fails with ReceiveOneCoin(denom). The copy at contracts/bond/src/helpers.rs:8-19 is identical. |
| BondState.QueryBondPrice | contracts/bond/src/state.rs:85-94 | The price is at least the minimum price and at least control variable × debt ratio, and equals one of the two, so it is their maximum. |
| BondState.ClearFloor | contracts/bond/src/state.rs:72-81 | Only minimum_price changes. It is kept when the formula price is below it, and becomes 0 otherwise. |
| BondState.ClearFloorKeepsPrice | contracts/bond/src/state.rs:71-94 | Quoting with the saved terms gives the same price as quoting with the original terms, for the same ratio. |
| BondState.ClearFloorIdempotent | contracts/bond/src/state.rs:75-81 | Applying bond_price's update twice with the same ratio leaves the terms the first application left. |
| BondState.FloorReliefIsPermanent | contracts/bond/src/state.rs:75-79 | Once the floor has been cleared, every later quote, at any ratio, is the bare formula price. |
| BondExecute.DecayAmount | contracts/bond/src/execute.rs:183-194 | The decay never exceeds the debt. It is ⌊debt × elapsed / vesting_term⌋ unless clamped to the whole debt. |
| BondExecute.DecayAtLastDecay | contracts/bond/src/execute.rs:186-189 | No elapsed time means no decay. |
| BondExecute.DecayWholeAfterTerm | contracts/bond/src/execute.rs:189-192 | Once elapsed ≥ vesting_term, the whole debt has decayed. |
| BondExecute.DecayMonotone | contracts/bond/src/execute.rs:189-192 | The decay is non-decreasing in the current time. |
| BondExecute.ComputeDepositValue | contracts/bond/src/execute.rs:209-215 | Identity for a plain token, 0 for an LP token. |
| BondExecute.DepositGuards | contracts/bond/src/execute.rs:233-253 | Succeeds iff debt < max_debt, price ≤ max_price and exactly one nonzero principal coin is attached, and then returns its amount. debt > max_debt fails with MaxCapacityReached; max_price < price fails with SlippageLimit; debt = max_debt with every other check passing fails with MaxDebtReached. |
| BondHelpers.AdjustStep | contracts/bond/src/helpers.rs:21-45 | No-op unless rate ≠ 0 and now > last_time + buffer. In the add direction the control variable grows by exactly rate, and rate becomes 0 iff the new value ≥ target. In the subtract direction it becomes max(cv − rate, 0), and rate becomes 0 iff the new value ≤ target. Nothing else changes, last_time included. |
| BondHelpers.StoppedScheduleIsInert | contracts/bond/src/helpers.rs:25 | Once the rate is 0, any run of adjust calls leaves terms and schedule unchanged. |
| BondHelpers.AddScheduleOnlyRaises | contracts/bond/src/helpers.rs:26-30 | In the add direction, no run of adjust calls lowers the control variable. |
| BondHelpers.SubtractScheduleOnlyLowers | contracts/bond/src/helpers.rs:31-38 | In the subtract direction, no run of adjust calls raises the control variable, and the direction stays subtract. |
| BondHelpers.AdjustTwiceInOneBlock | contracts/bond/src/helpers.rs:22-42 | As written, two adjust calls in the same block both move the control variable: 0 becomes 2. |
| BondHelpers.AdjustStepCorrected | contracts/bond/src/helpers.rs:21-45 | The same step as AdjustStep, with last_time set to now whenever it acts. |
| BondHelpers.CorrectedAdjustOncePerWindow | contracts/bond/src/helpers.rs:24-25 | After a corrected adjustment, every adjust call within the next buffer seconds is a no-op. |
| BondQuery.DebtRatio | contracts/bond/src/query.rs:30-37 | Equals ⌊debt × 10¹⁸ / base_supply⌋ for a nonzero supply; at most 1 when debt ≤ supply. |
| BondQuery.AssetPrice | contracts/bond/src/query.rs:90-99 | Fails with StalePrice iff base or quote update + trust period < now. Equality passes. Otherwise returns the oracle rate. |
| BondQuery.StandardizedDebtRatio | contracts/bond/src/query.rs:39-43 | Fails exactly when the price is stale; otherwise debt ratio × oracle price, floored. |
| BondQuery.BondPriceInUsd | contracts/bond/src/state.rs:96-100 | Fails exactly when the price is stale; otherwise query_bond_price × oracle price, floored, and never below minimum price × oracle price. |
| BondQuery.PayoutFor | contracts/bond/src/query.rs:102-106 | ⌊value / price⌋ in whole tokens. A zero price fails with DivideByZero. For a nonzero price it fails with Overflow iff (u128::MAX + 1) × price ≤ value, i.e. the quotient does not fit in a u128, and succeeds otherwise. |
| BondQuery.PayoutAtPriceTwo | contracts/bond/src/contract.rs:341-368 | 10,000 principal at bond price 2 pays out 5,000. |
| BondQuery.BondInfo | contracts/bond/src/query.rs:149-153 | The stored bond, or the all-zero default for an unknown address. |
| BondQuery.PercentVestedFor | contracts/bond/src/query.rs:133-147 | Fails iff the address has no bond. 0 when vesting_time_left = 0; otherwise ⌊elapsed / vesting_time_left⌋ as a decimal. |
| BondQuery.PercentVestedMonotone | contracts/bond/src/query.rs:140-143 | The vested fraction is non-decreasing in time. |
| BondQuery.PercentVestedHalfway | contracts/bond/src/contract.rs:499-504 | Halfway through the vesting time, exactly 0.5 is vested. |
| BondQuery.PercentVestedAtEnd | contracts/bond/src/query.rs:142-143 | At exactly the end of the vesting time, exactly 1 is vested. |
| BondQuery.PendingPayoutFor | contracts/bond/src/query.rs:108-124 | An unknown address fails NotFound. Above 100% vested it is the whole payout. At or below 100% it is ⌊payout × percent_vested⌋, failing with Overflow iff that does not fit in a u128. It never exceeds the payout. |
| BondQuery.MaxPayout | contracts/bond/src/query.rs:126-131 | ⌊base_supply × max_payout⌋. It fails with Overflow iff that does not fit in a u128. It succeeds and stays ≤ supply when the fraction is ≤ 1. |
| BondContract.BondContract.Instantiate | contracts/bond/src/contract.rs:19-55 | The admin defaults to the sender. The terms are stored as given. Debt is 0 and the decay clock is now. The schedule is {add, rate 0, target 0, buffer 0, last_time now}. |
| BondContract.BondContract.UpdateTerms | contracts/bond/src/contract.rs:127-133 | A non-admin fails Unauthorized with nothing changed. The admin replaces the terms wholesale. |
| BondContract.BondContract.UpdateConfig | contracts/bond/src/contract.rs:136-177 | A non-admin fails Unauthorized. Otherwise exactly the fields given as Some change. |
| BondContract.BondContract.UpdateAdjustment | contracts/bond/src/contract.rs:179-211 | A non-admin fails Unauthorized. Otherwise exactly the given schedule fields change, and last_time never does. |
| BondContract.BondContract.DecayDebt | contracts/bond/src/execute.rs:196-201 | debt := debt − decay_amount, without underflow, and the decay clock := now. A zero vesting term fails with nothing changed. |
| BondContract.BondContract.BondPrice | contracts/bond/src/state.rs:71-84 | Returns query_bond_price of the old terms. Saves the terms with the floor cleared, and they quote the same price. |
| BondContract.BondContract.Adjust | contracts/bond/src/helpers.rs:21-45 | The new terms and schedule are AdjustStepCorrected of the old ones. Config, debt and decay clock are unchanged. |
| BondContract.BondContract.Deposit | contracts/bond/src/execute.rs:220-253 | Decays the debt, then runs the guards on the decayed debt. On success the decayed debt is kept and is < max_debt. On failure nothing changes. |
| StakingQuery.FactoryDenomInjective | contracts/staking/src/query.rs:16-18 | For one contract, two factory denoms are equal iff their subdenoms are. |
| StakingQuery.BaseAndStakingDenomsDiffer | contracts/staking/src/query.rs:9-14 | The base and staking denoms coincide iff the base subdenom is "staking_token". |
| StakingQuery.CurrentExchangeRate | contracts/staking/src/query.rs:33-53 | Fails with Overflow iff an exclusion exceeds what it is taken from. The rate is always ≥ 1. It is exactly 1 when the staked amount is 0 or the deposited amount ≤ staked; otherwise ⌊deposited / staked⌋. |
| StakingQuery.QueryExchangeRate | contracts/staking/src/query.rs:67-69 | The rate with nothing excluded. It never fails and is ≥ 1. It is exactly 1 when nothing is staked or the pool holds no more than the staked supply, and ⌊balance / supply⌋ otherwise. |
| StakingQuery.ExchangeRateHundredOverEighty | contracts/staking/src/query.rs:31-32 | 100 held against 80 minted gives exactly 1.25. |
| StakingHelpers.MintMsgs | contracts/staking/src/helpers.rs:32-59 | Two messages: a mint by the contract, then a send. Exactly `amount` of the denom is minted and received by the receiver. Nothing else is minted, sent or burned. |
| StakingHelpers.CreateDenomMsg | contracts/staking/src/helpers.rs:20-30 | A create-denom message whose sender is the contract and whose subdenom is the one given. |
| StakingExecute.StakeMint | contracts/staking/src/execute.rs:62-63 | ⌊deposit / rate⌋ whole tokens, never more than the deposit. The same formula is at contracts/bond/src/execute.rs:71-72. |
| StakingExecute.RedeemAmount | contracts/staking/src/execute.rs:81-82 | ⌊amount × rate⌋ whole tokens, at least the amount. The same formula is at contracts/bond/src/execute.rs:118-119. |
| StakingExecute.Stake | contracts/staking/src/execute.rs:52-69 | Wrong funds fail with ReceiveOneCoin(base denom). A deposit above the balance fails with Overflow. Otherwise the rate excludes the deposit, and the call succeeds iff ⌊deposit / rate⌋ fits in a u128. Those staking tokens, never more than the deposit, are minted to `to`. The response is exactly MintMsgs of that amount: a mint by the contract, then a send to `to`. |
| StakingExecute.UnstakeMsgs | contracts/staking/src/execute.rs:84-107 | Exactly two messages: the contract burns the returned amount of the staking denom, then sends the redeemed base tokens to `to`. No other denom is burned, nothing is minted, and nobody else receives anything. |
| StakingExecute.UnstakeAsWritten | contracts/staking/src/execute.rs:71-108 | As written, the returned amount is excluded from the staked supply when the rate is computed. Succeeds iff one staking coin is attached, its amount is at most the staked supply and the redeemed amount fits in a u128. |
| StakingExecute.UnstakeAsWrittenDrainsPool | contracts/staking/src/execute.rs:79 | As written, with 200 base tokens against 100 staked, unstaking 50 pays out all 200. |
| StakingExecute.Unstake | contracts/staking/src/execute.rs:71-108 | Wrong funds fail with ReceiveOneCoin. Otherwise it succeeds iff ⌊amount × rate⌋ at the whole-supply rate fits in a u128, and then burns exactly the returned amount and sends ⌊amount × rate⌋ ≥ amount. |
| StakingExecute.UnstakeProRata | contracts/staking/src/execute.rs:79-82 | At the whole-supply rate and with supply ≤ balance, redeem × supply ≤ amount × balance, so an unstake of at most the supply pays at most the balance. With balance ≤ supply the rate is 1 and redeem = amount, which can exceed the balance. |
| StakingExecute.MintTokens | contracts/staking/src/execute.rs:110-123 | An unregistered sender fails NotFound; a minter without can_mint fails Unauthorized. Otherwise exactly `amount` of the base denom is minted and sent to `to`. The response is exactly MintMsgs: nothing else is minted, burned or sent. |
| StakingExecute.StakeMintsAtPremiumRate | contracts/staking/src/execute.rs:58-66 | With 10,000 staked and 12,563 in the pool, a stake of 10,000 mints 7,959. |
| StakingExecute.RebaseOutcome | contracts/staking/src/execute.rs:18-50 | No-op while epoch_end > now. Otherwise one mint by the contract of ⌊balance × epoch_apr⌋ of the base denom, epoch_end += epoch_length and epoch_number += 1. |
| StakingExecute.RebaseAgainSameTime | contracts/staking/src/execute.rs:22-47 | A second rebase at the same time mints again iff more than one epoch had elapsed, so catching up takes one call per epoch. |
| StakingExecute.Staking.Instantiate | contracts/staking/src/contract.rs:14-40 | The admin defaults to the sender, and the first epoch has the given number and end. |
| StakingExecute.Staking.Rebase | contracts/staking/src/execute.rs:18-50 | The new epoch state and the messages are RebaseOutcome of the old state. The config is unchanged. |
| Scw20Rebase.TotalGonsIsMultiple | contracts/scw20/src/rebase.rs:5-7 | TOTAL_GONS is a positive multiple of INITIAL_FRAGMENTS_SUPPLY, fits in a u128 and exceeds MAX_SUPPLY. |
| Scw20Rebase.RebaseAmount | contracts/scw20/src/rebase.rs:31-35 | The profit when nothing circulates; otherwise ⌊profit × total / circulating⌋. The product overflowing a u128 fails. |
| Scw20Rebase.FullCirculationAddsProfit | contracts/scw20/src/rebase.rs:28-35 | With circulating = total supply, the rebase amount is exactly the profit. |
| Scw20Rebase.SupplyAfterRebase | contracts/scw20/src/rebase.rs:31-43 | Fails with Overflow iff profit × total or total + profit exceeds a u128. Otherwise the new supply is min(total + profit, MAX_SUPPLY), a zero old supply included. It is positive and never below the capped old supply. gons_per_fragment = ⌊TOTAL_GONS / supply⌋, so gons × supply ≤ TOTAL_GONS. |
| Scw20Rebase.Scw20.ExecuteRebase | contracts/scw20/src/rebase.rs:9-52 | A zero profit succeeds with no change and no auth check. Another sender fails UnauthorizedWithAddress. Otherwise supply and gons are SupplyAfterRebase, and staking_contract is unchanged. |
| LockState.ApplyVariableFee | contracts/lock/src/state.rs:55-58 | amount := ⌊amount × factor⌋, failing beyond u128. The asset kind is kept, and the amount never grows for a factor ≤ 1. |
| LockState.ApplyFeeAsWritten | contracts/lock/src/state.rs:43-60 | As written, a fixed fee succeeds iff fee = amount, leaving 0. fee < amount fails NotEnoughDeposited; fee > amount underflows. |
| LockState.FixedFeeAsWrittenRefusesLargerDeposit | contracts/lock/src/state.rs:46-51 | As written, a deposit of 100 against a fixed fee of 10 is refused. |
| LockState.ApplyFee | contracts/lock/src/state.rs:43-60 | A fixed fee succeeds iff fee ≤ amount and keeps amount − fee; otherwise it fails NotEnoughDeposited(fee, amount). A variable fee is ApplyVariableFee. The asset kind never changes. |
| LockState.ApplyFeeAgreesWhereWrittenSucceeds | contracts/lock/src/state.rs:45-53 | Wherever the written fee succeeds, the corrected one gives the same result. |
| LockQuery.AvailableUnlock | contracts/lock/src/query.rs:91-121 | Linear: nothing iff now ≤ start; otherwise min(locked, ⌊(now − start) × rate⌋), failing when the product exceeds a u128. Cliff: the whole deposit iff unlock < now, else nothing. Never more than locked, and always of the same asset. |
| LockQuery.AvailableUnlockMonotone | contracts/lock/src/query.rs:101-104 | The releasable amount is non-decreasing in time. |
| LockQuery.LinearFullyReleased | contracts/lock/src/query.rs:101-109 | Once the vested amount covers the deposit, the whole deposit is releasable. |
| LockQuery.QueryAvailableUnlock | contracts/lock/src/query.rs:76-89 | An unknown id fails NotFound. Otherwise the releasable amount of the same asset, reported as zero when nothing is releasable. |
| LockContract.RemoveTokens | contracts/lock/src/contract.rs:118-122 | Exactly the listed assets are removed; other entries keep their fees. |
| LockContract.AddTokensContents | contracts/lock/src/contract.rs:108-116 | Saving tokens adds exactly the listed assets and leaves every unlisted entry as it was. AddTokens is the reference fold for the save loops of instantiate (contracts/lock/src/contract.rs:29-36) and update_accepted_token, against which both loop invariants are stated. |
| LockContract.AddTokensLastWins | contracts/lock/src/contract.rs:108-116 | The fee stored for an asset is the one of its last entry in the list. |
| LockContract.AcceptedAfterUpdate | contracts/lock/src/contract.rs:108-122 | An asset is accepted afterwards iff it is not being removed and it was accepted or is being added. Untouched assets keep their fees, so an asset in both lists ends up absent. |
| LockContract.TransferMsg | contracts/lock/src/execute.rs:118 | Native → bank send, cw20 → cw20 transfer, each of exactly the amount. cw1155 fails UnavailableMethod. |
| LockContract.AdmitDeposit | contracts/lock/src/execute.rs:34-67 | Succeeds iff the post-fee asset is cw20, or native with exactly one coin of its post-fee amount attached. The deposit gets id next_deposit_id + 1 and the post-fee asset. cw20 is pulled from the sender. A missing coin fails ReceiveOneCoin, a wrong amount NotEnoughDeposited(kept, got), and cw1155 AssetNotAccepted. |
| LockContract.LockOutcomeAsWritten | contracts/lock/src/execute.rs:14-70 | As written, with Fee::apply as written: an unlisted asset fails AssetNotAccepted. Under a fixed fee a deposit above the fee fails NotEnoughDeposited(fee, amount), and a success locks 0. A variable fee gives the same result as LockOutcome. |
| LockContract.LockAsWrittenRefusesFeePayingDeposit | contracts/lock/src/execute.rs:25-32 | As written, a native lock of 100 under Fixed(10) with 90 attached is refused. With the corrected fee it locks 90 under id 1. |
| LockContract.LockOutcome | contracts/lock/src/execute.rs:14-70 | With the corrected fee (ApplyFee): an unlisted asset fails AssetNotAccepted, and a fee failure is returned as is. Succeeds iff the asset is listed, the fee applies, and the asset is cw20 or native with exactly one coin of the post-fee amount. The deposit gets id next_deposit_id + 1 and the post-fee asset. |
| LockContract.Restarted | contracts/lock/src/execute.rs:98-116 | A linear lock restarts at max(start, now) with the same rate; a cliff is unchanged. |
| LockContract.UnlockOutcome | contracts/lock/src/execute.rs:79-119 | Unauthorized unless sender or `to` is the recipient. Nothing releasable fails NotEnoughDeposited(1, 0). Succeeds iff authorised, the release query succeeds, something is releasable and the asset is not cw1155, which fails UnavailableMethod. Then exactly the releasable amount is transferred to `to`, and paid + remaining = deposited. |
| LockContract.UnlockAsWritten | contracts/lock/src/execute.rs:72-120 | As written, the stored deposits are returned unchanged whatever the outcome. An unknown id fails NotFound. |
| LockContract.UnlockTwiceAsWritten | contracts/lock/src/execute.rs:79-119 | As written, a cliff deposit of 100 is paid out twice. |
| LockContract.UnlockStep | contracts/lock/src/execute.rs:72-120 | On success the reduced deposit is saved under its id; on failure nothing changes. |
| LockContract.TimeUnlockPaysOnce | contracts/lock/src/execute.rs:111-115 | With the deposit saved, a second unlock of a cliff deposit fails NotEnoughDeposited(1, 0). |
| LockContract.UnlockRunConserves | contracts/lock/src/execute.rs:98-118 | Over any sequence of unlock calls, total paid + amount still locked = amount deposited. |
| LockContract.LockContract.Instantiate | contracts/lock/src/contract.rs:14-41 | The admin defaults to the sender, next_deposit_id = 0, and every listed token is stored with its fee, later entries winning. |
| LockContract.LockContract.UpdateConfig | contracts/lock/src/contract.rs:83-97 | A non-admin fails Unauthorized. Otherwise the admin is replaced only if one is given. |
| LockContract.LockContract.UpdateAcceptedToken | contracts/lock/src/contract.rs:98-125 | A non-admin fails Unauthorized. Otherwise the allow-list becomes AcceptedAfterUpdate: additions, then removals. |
| LockContract.LockContract.Lock | contracts/lock/src/execute.rs:14-70 | Runs LockOutcome, the corrected fee. On success the counter grows by exactly 1 and the deposit is stored under the new id, which no earlier deposit holds. On failure nothing changes. Each deposit stays stored under its own id. |
| LockContract.LockContract.Unlock | contracts/lock/src/execute.rs:72-120 | The result and the new deposits are UnlockStep of the old deposits. Admin, counter and allow-list are unchanged. |

## Left out

- Arithmetic overflow of `Uint128`/`Decimal256` is modelled (`Err(Overflow)`) only in three places: where the code converts with `try_into`, where it subtracts unsigned values, and in the sCW20 rebase's `Uint128` product `profit * total_supply` and sum `total_supply + rebase_amount`. Other sums and products are unbounded: the debt update, the control-variable increase and the fixed-point products.
- Address validation (`addr_validate`, `AssetInfoUnchecked::check`) is a host call, and every address is taken as valid. With that, `AcceptedTokenUnchecked::check` returns its entry unchanged, fee included, so allow-list entries are taken already checked.
- Querier calls are parameters: bank balance and supply, the oracle's smart query, the cw20 circulating supply (equal to the total supply) and the outstanding debt.
- The tail of the bond `deposit` is not part of this model: `bondPriceInUSD`, `compute_payout`, the bond record and the redeem path call undefined functions or lack return values. So are `get_bond_price_in_usd`, `update_bond_price_in_terms`, `current_debt` and `debt_decay`.
- The bond contract's own `stake`/`unstake` (contracts/bond/src/execute.rs:59-145) are not modelled separately. Their amount formulas are `StakingExecute.StakeMint` and `StakingExecute.RedeemAmount`, and the rest duplicates the staking contract.
- The `LinearProportion` lock kind is `todo!()` in the source and is not modelled.
- `locks_for_address`, `query_accepted_tokens`, `query_lock` and `query_config` are not part of this model. They are paginated or plain storage reads.
- Entry-point dispatch, JSON/protobuf encoding and response attributes are not modelled. Messages are abstract.
- The oracle, proxy-oracle and staking-token contracts, and the cw20 plumbing of the sCW20 token, are not part of this model.
- StakingExecute.RebaseOutcome: the minted `Uint256` amount is not checked against a `u128`, because the source does not convert it.
- BondContract.BondContract.DecayDebt and BondContract.BondContract.Deposit: both require `lastDecay <= now`. The source's `u64` subtraction would abort on a clock that went backwards, and block time never does.
- Time is whole seconds: `now` is `block.time.seconds()`. The source compares nanosecond timestamps in the oracle staleness check (contracts/bond/src/query.rs:91-95), the adjustment buffer (contracts/bond/src/helpers.rs:24-25) and the linear-lock restart (contracts/lock/src/execute.rs:100-101). So a block 0.5 s after a quote's trust limit is stale in the source but passes `BondQuery.AssetPrice`.
- BondQuery.DebtRatio: requires a nonzero base supply. The source's `Decimal256::from_ratio` panics on a zero supply, which aborts the price query; that abort is not modelled as an error value.
- BondContract.BondContract.Adjust: runs `BondHelpers.AdjustStepCorrected`, which advances `last_time`. The source never writes it; that behaviour is `BondHelpers.AdjustStep`.
- LockContract.LockContract.Unlock: saves the reduced deposit (`UnlockStep`). The source never saves it; that behaviour is `LockContract.UnlockAsWritten`.
- LockContract.LockContract.Lock: applies the corrected fixed fee (`LockContract.LockOutcome`). The source's fee as written is `LockContract.LockOutcomeAsWritten`.
- StakingExecute.Unstake: uses the whole-supply rate. The source excludes the returned amount; that behaviour is `StakingExecute.UnstakeAsWritten`.
- BondQuery.PercentVestedFor and BondQuery.PendingPayoutFor: both require the bond's `last_time <= now`, for the same reason.

## Findings

| source | as written | input that shows it | evidently intended | confidence | as-written member | corrected member |
|---|---|---|---|---|---|---|
| contracts/lock/src/state.rs:46-52 | A fixed fee refuses every deposit larger than the fee, and `amount -= f` underflows for smaller ones, so only a deposit equal to the fee passes, keeping 0. | Fixed(10), deposit 100 → NotEnoughDeposited{expected 10, got 100} | Refuse only amount < fee and keep amount − fee | high, not executed | LockState.FixedFeeAsWrittenRefusesLargerDeposit | LockState.ApplyFee |
| contracts/lock/src/execute.rs:79-119 | The reduced amount and restarted lock are computed on a local copy and never saved, so the same tokens can be unlocked again. | TimeUnlock(5), 100 uatom to alice; unlock at 10 and at 11 → two sends of 100 | Save the updated deposit back under its id | high, not executed | LockContract.UnlockTwiceAsWritten | LockContract.UnlockRunConserves |
| contracts/bond/src/helpers.rs:21-45 | `adjust` never advances `adjustment.last_time`, so the buffer only delays the first adjustment. | rate 1, target 10, buffer 0, last_time 0, control variable 0; adjust twice at time 5 → 2 | Set last_time to now on each adjustment | medium, not executed | BondHelpers.AdjustTwiceInOneBlock | BondHelpers.CorrectedAdjustOncePerWindow |
| contracts/staking/src/execute.rs:79 | `unstake` excludes the returned amount from the staked supply, though those tokens are burned only after the call. | balance 200, staked supply 100, unstake 50 → sends 200 | Rate over the whole staked supply (`query_exchange_rate`) | medium, not executed | StakingExecute.UnstakeAsWrittenDrainsPool | StakingExecute.UnstakeProRata |
