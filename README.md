# Limit-order settlement: encoders, auction curve, fees and fee bank

This project models the resolver side of the 1inch limit-order settlement extension. It covers what the repository's test suite and its calldata helper pin down:

- **The calldata encoders** (`test/helpers/fusionUtils.js`):
  - the auction details: a `uint32` start, a `uint24` duration and a `uint24` initial rate bump, followed by one `uint24` bump and `uint16` delta per point;
  - the fee segment of the post-interaction, in three kinds;
  - the post-interaction trailer;
  - the resolver interaction, including its innermost flag;
  - the builder defaults.

  Each encoder has a decoder, and both directions of the round trip are proved: decoding an encoding gives back its fields, and a byte string that decodes is the encoding of what it decodes to. `buildAuctionDetails` is a loop that appends one point at a time, and it is proved against the recursive encoding.
- **The Dutch-auction rate bump and the amounts it scales:**
  - the piecewise-linear curve, where each point's delta counts from the previous point;
  - the taking amount `orderTaking * making * (1e7 + bump) / (orderMaking * 1e7)` and its inverse;
  - every curve value the tests check, as a lemma.
- **Settling a chain of fills:**
  - Each fill runs maker → resolver, then the nested fill (or, for the innermost fill, the resolver's own token calls), then resolver → maker, then the post-interaction hook.
  - The hook checks the whitelist time lock and charges the fee: a resolver fee on the resolver's credit, or an integrator fee in the taker asset.
  - The whole chain applies atomically.
  - Proved: the fees charged, the NotEnoughCredit abort, the whitelist gate and token conservation.
- **The FeeBankCharger credit ledger:** only its FeeBank may raise or lower credit.
- **The FeeBank:** `deposit`, `depositFor`, the two permit variants and `withdrawTo`. Each moves deposits and credit one-for-one with the fee token, and the bank keeps every account's credit covered by its deposits.

Token balances are a map from (token, holder) to amount. A transfer fails when the sender's balance is short. Time is an explicit parameter. A permit's validity and the resolver's whitelist delay are inputs.

Two places where the code differs from what its names suggest:

- The test called "resolver should pay minimal 1 wei fee" gets its 1 wei from plain proportion, 10 · 1e15 · 1000 / 1e19 = 1. The model reads the fee as that plain proportion, rounded down, so a 999-wei fill is charged 0 (`Scenarios.TinyFillFee`, `SettlementEngine.SmallFillPaysNothing`); see "Left out" for the minimum it does not model.
- The calldata builder writes `resolverFee` as `resolverFee.toString(16)`. A fee given as the string '1000000' (test/Settlement.js:754) keeps its digits, which are then read as hex: the encoded rate is 0x01000000 = 16777216, not 1000000 (`FusionUtils.StringFeeOfMillion`).
- The rate bump is not monotone in time. With no initial bump and one point, it rises from 0 to the point's value (`AuctionCurve.CurveCanRise`).

## Model

| member | source | states |
|---|---|---|
| Bytes.ToNatUintBE | test/helpers/fusionUtils.js:74-75 | the big-endian packing of a value that fits the width reads back as that value |
| Bytes.UintBEToNat | test/helpers/fusionUtils.js:74-75 | every byte string is the big-endian packing of its own value at its own width |
| Bytes.LowBytes | test/helpers/fusionUtils.js:17 | the last k bytes of a byte string hold its value modulo 256^k |
| FusionUtils.EncodeHeader | test/helpers/fusionUtils.js:74-76 | the auction header is exactly 10 bytes |
| FusionUtils.EncodePoints | test/helpers/fusionUtils.js:77-79 | the points take exactly 5 bytes each |
| FusionUtils.EncodeAuction | test/helpers/fusionUtils.js:74-79 | the auction details are 10 + 5·(number of points) bytes long |
| FusionUtils.EncodePointsSnoc | test/helpers/fusionUtils.js:77-79 | appending a point appends exactly its 5 bytes, so the builder's loop and the recursive encoding agree |
| FusionUtils.PointBytesAt | test/helpers/fusionUtils.js:77-79 | point i sits at bytes 5i up to 5i+5, so the points are written in list order |
| FusionUtils.DecodeEncodePoints | test/helpers/fusionUtils.js:77-79 | decoding encoded valid points gives back the same points in order |
| FusionUtils.EncodeDecodePoints | test/helpers/fusionUtils.js:77-79 | every byte string that decodes as points is the encoding of those points, and they are valid |
| FusionUtils.AuctionRoundTrip | test/helpers/fusionUtils.js:74-79 | decoding encoded auction details gives back the start, duration, initial bump and points |
| FusionUtils.AuctionDecodeEncode | test/helpers/fusionUtils.js:74-79 | a byte string that decodes as auction details is their encoding, and they are valid |
| FusionUtils.BuildAuctionDetails | test/helpers/fusionUtils.js:66-81 | the loop's bytes decode to the defaulted auction, which has the delay added to its start; the returned start leaves the delay out; the length is 10 + 5·(number of points) |
| FusionUtils.DefaultAuction | test/helpers/fusionUtils.js:67-73 | with every argument left out, the auction starts now and lasts 1800 s, with no bump and no points; its encoding is the bare 10-byte header |
| FusionUtils.FeeSpecOf | test/helpers/fusionUtils.js:25-34 | feeType 1 selects a resolver fee and 2 an integrator fee, both carrying resolverFee; any other value gives no fee |
| FusionUtils.EncodeFee | test/helpers/fusionUtils.js:25-34 | the fee segment is 1, 5 or 25 bytes long, by kind |
| FusionUtils.FeeRoundTrip | test/helpers/fusionUtils.js:25-34 | a fee segment decodes back to its fee, and its first byte announces its length |
| FusionUtils.FeeDecodeEncode | test/helpers/fusionUtils.js:25-34 | a byte string that decodes as a fee segment is the encoding of that fee |
| FusionUtils.EncodePostInteraction | test/helpers/fusionUtils.js:39-41 | the post-interaction is 20 bytes of settlement address, then the fee segment, then a 16-byte trailer |
| FusionUtils.PostInteractionRoundTrip | test/helpers/fusionUtils.js:39-41 | decoding the post-interaction gives back the settlement, fee, auction start and whitelist data |
| FusionUtils.PostInteractionDecodeEncode | test/helpers/fusionUtils.js:39-41 | a byte string that decodes as a post-interaction is its encoding, with a zero uint16 at the end |
| FusionUtils.AmountDataDecodeEncode | test/helpers/fusionUtils.js:37-38 | a byte string that decodes as amount data is the settlement address followed by the encoding of valid auction details |
| FusionUtils.AmountDataRoundTrip | test/helpers/fusionUtils.js:37-38 | the making and taking amount data, which is the settlement address followed by the auction details, decodes to both |
| FusionUtils.EncodeInteraction | test/helpers/fusionUtils.js:52 | the interaction is 21 bytes plus the next-step data |
| FusionUtils.InteractionRoundTrip | test/helpers/fusionUtils.js:52 | decoding the interaction gives back the resolver, the innermost flag and the next-step bytes |
| FusionUtils.InteractionDecodeEncode | test/helpers/fusionUtils.js:52 | a byte string that decodes as an interaction is its encoding |
| FusionUtils.DefaultWhitelistData | test/helpers/fusionUtils.js:17 | the default whitelist data is 10 bytes holding the resolver address modulo 2^80 |
| FusionUtils.HexValue | test/helpers/fusionUtils.js:28 | a string has a hex value exactly when every character is a hex digit, and that value is below 16^length |
| FusionUtils.StringFeeRate | test/helpers/fusionUtils.js:28-33 | a fee string fits the 4-byte field exactly when it has at most 8 characters, all hex digits, and then it is a valid resolver fee |
| FusionUtils.DecimalStringReadAsHex | test/helpers/fusionUtils.js:28-33 | a decimal string of at most 8 digits is accepted, and its hex reading is at least its decimal value |
| FusionUtils.OneThenZeros | test/helpers/fusionUtils.js:28 | '1' followed by k zeros is decimal 10^k and hex 16^k |
| FusionUtils.StringFeeOfMillion | test/Settlement.js:754 | the string fee '1000000' is decimal 1000000 but is encoded as the rate 16777216 |
| FusionUtils.BuildCalldataForOrder | test/helpers/fusionUtils.js:5-54 | both amount getters receive the same data, which starts with the settlement address and is 20 bytes longer than the auction details; the post-interaction starts with the settlement address and is 20 + fee length + 16 bytes; the interaction is the resolver, then 1 or 0 for the innermost flag, then the next step |
| FusionUtils.CalldataRoundTrip | test/helpers/fusionUtils.js:5-54 | both amount getters receive the same data; the post-interaction decodes to the selected fee, with the order signer as the default integrator, plus the start and the whitelist tag, by default the resolver's low 10 bytes; the interaction decodes to the resolver, the flag and the next step; the default filling amount follows the fill mode |
| AuctionCurve.RateBumpAtPoint | test/Settlement.js:426-445 | at a point's time, counted as the sum of the deltas so far, the bump is exactly that point's bump |
| AuctionCurve.BumpFrom | test/Settlement.js:426-506 | on the segments that start from a given time and bump, the bump at any time before the finish is at most the largest of that starting bump and the remaining points' bumps |
| AuctionCurve.RateBump | test/Settlement.js:409-544 | up to the start the bump is the initial bump; from the finish on it is 0; at any time it is at most the largest bump the auction declares, whether the initial bump or a point's |
| AuctionCurve.TakingAmount | test/Settlement.js:362-370 | the taking amount is orderTaking·making·(1e7 + bump)/(orderMaking·1e7), rounded down: r·denominator ≤ numerator < (r+1)·denominator |
| AuctionCurve.MakingAmount | test/Settlement.js:362-370 | the making amount is orderMaking·taking·1e7/(orderTaking·(1e7 + bump)), rounded down, bracketed the same way |
| AuctionCurve.CurveCanRise | test/Settlement.js:425-445 | with no initial bump and the point (900000, 240), the bump is 0 at the start and 900000 at 240 s, so it is not monotone |
| AuctionCurve.FullFillTaking | test/Settlement.js:362-370 | a whole-order fill costs orderTaking·(1e7 + bump)/1e7, rounded down |
| AuctionCurve.FullFillMaking | test/Settlement.js:362-370 | without a bump, paying the whole taking amount buys the whole making amount |
| AuctionCurve.TakingBumpMonotone | test/Settlement.js:362-370 | a larger bump never lowers the taking amount |
| AuctionCurve.MakingBumpMonotone | test/Settlement.js:362-370 | a larger bump never raises the making amount |
| AuctionCurve.AmountsRoundTrip | test/Settlement.js:362-370 | converting making → taking → making, or taking → making → taking, never gives back more than the start, so rounding never favours the taker |
| AuctionCurve.NoPointsBump | test/Settlement.js:362-365 | without points, the bump is initialRateBump·min(remaining, duration)/duration before the finish and 0 from the finish on |
| AuctionCurve.NoPointsLinearDecay | test/Settlement.js:362-370 | without points, a whole-order fill costs exactly the taking amount the tests compute |
| SettlementEngine.FillAmounts | test/Settlement.js:388-404 | the filling amount sits on its own side; pricing fails with DivisionByZero exactly when an order amount is 0 |
| SettlementEngine.FullFillAtBumpedPrice | test/Settlement.js:388-404 | paying exactly the bumped taking amount in taking mode buys the whole making amount |
| SettlementEngine.ResolverFeeAmount | test/Settlement.js:547-712 | the fee is rate·BASE_POINTS·making/orderMaking, rounded down; a fill of at most the order is charged at most rate·BASE_POINTS, and a full fill exactly that |
| SettlementEngine.IntegratorFeeAmount | test/Settlement.js:195-216 | the integrator fee is taking·rate/1e9, rounded down, and at most the taking amount when the rate is at most 1e9 |
| SettlementEngine.WhitelistOpensOnce | test/Settlement.js:762-809 | once the time lock lets a resolver in, it stays open at every later time |
| SettlementEngine.FeeMonotone | test/Settlement.js:599-654 | filling more never lowers the fee, and a partial fill is charged no more than a full one |
| SettlementEngine.SmallFillPaysNothing | test/Settlement.js:656-712 | under the plain-proportion reading of the fee, a fill worth less than one credit unit is charged 0 |
| SettlementEngine.PostInteractionHook | test/Settlement.js:547-809 | a resolver outside its time lock gets ResolverIsNotWhitelisted; otherwise no fee changes nothing; a resolver fee succeeds exactly when credit covers it (else NotEnoughCredit) and lowers only the resolver's credit, by the fee, moving no tokens; an integrator fee succeeds exactly when the resolver holds it in the taker asset (else TransferFailed), moves exactly that amount to the integrator and leaves credit alone; the only errors are these three |
| SettlementEngine.HookPaysIntegrator | test/Settlement.js:195-216 | a whitelisted fill with an integrator fee whose payment succeeds ends with exactly that payment's balances and the same credit |
| SettlementEngine.RunCalls | test/Settlement.js:374-387 | a failing resolver call fails with TransferFailed |
| SettlementEngine.SettleStep | test/Settlement.js:12-54 | one fill whose transfers and interaction succeed ends in its own post-interaction hook |
| SettlementEngine.SettleNestedFailure | test/Settlement.js:714-760 | a failing nested fill fails the outer fill with the same error |
| SettlementEngine.SettleTwoFills | test/Settlement.js:12-54 | in a two-fill chain the inner hook runs first, and its failure aborts the chain before the outer fill is paid |
| SettlementEngine.SettleTwoFillsOk | test/Settlement.js:12-54 | a two-fill chain whose transfers and hooks all succeed ends in the outer hook's world |
| SettlementEngine.SettleTwoIntegratorFills | test/Settlement.js:160-217 | two whitelisted integrator-fee fills whose transfers and fee payments succeed settle on the balances after the last fee payment, with credit unchanged |
| SettlementEngine.SettleTwoFillsShort | test/Settlement.js:714-760 | two whitelisted resolver-fee fills fail with NotEnoughCredit when credit is below the two fees together |
| SettlementEngine.SettleCharges | test/Settlement.js:547-654 | a settled chain lowers the resolver's credit by exactly the sum of its fills' fees and leaves every other account's credit alone |
| SettlementEngine.NotEnoughCreditAborts | test/Settlement.js:714-760 | credit below the chain's total fee makes settlement fail |
| SettlementEngine.SettleGated | test/Settlement.js:762-809 | every fill of a settled chain passed the whitelist time lock |
| SettlementEngine.Settle | test/Settlement.js:12-54 | settling a chain fails only with DivisionByZero, TransferFailed, NotEnoughCredit or ResolverIsNotWhitelisted |
| SettlementEngine.RunCallsConserve | test/Settlement.js:374-387 | the resolver's calls among a set of holders keep the set's total of every token |
| SettlementEngine.HookConserves | test/Settlement.js:160-217 | the fee hook keeps the total of a set of holders that includes the resolver and the integrator |
| SettlementEngine.SettleConserves | test/Settlement.js:12-54 | a settled chain keeps the combined holding of every token among the accounts it involves |
| SettlementEngine.Settlement.SettleOrders | test/Settlement.js:714-760 | the chain's result is written back only on success; on error, credit and balances are unchanged and the error is returned; success implies every fill was whitelisted and the resolver's credit fell by the chain's total fee |
| Scenarios.FlatAuction | test/helpers/fusionUtils.js:67-73 | the default auction, with no initial bump and no points, never bumps |
| Scenarios.InitialBumpBeforeStart | test/Settlement.js:409-423 | up to the delayed start, a 0.1-ether price becomes 0.11 at bump 1e6 and 0.12 at bump 2e6 |
| Scenarios.BumpAtPoint | test/Settlement.js:426-445 | at 240 s the bump is the point's 900000, and the price is 0.109 ether |
| Scenarios.BumpBeforePoint | test/Settlement.js:447-466 | at 120 s the bump is halfway between 1e6 and 900000, i.e. 950000, and the price is 0.1095 ether |
| Scenarios.BumpAfterPoint | test/Settlement.js:468-486 | at 760 s the bump has fallen linearly from 900000 to 600000, and the price is 0.106 ether |
| Scenarios.BumpBetweenPoints | test/Settlement.js:488-506 | the second delta counts from the first point, so at 860 s the bump is 300000 and the price 0.103 ether |
| Scenarios.HalfwayThroughAuction | test/Settlement.js:525-544 | halfway through a 900 s auction without points, the price is 0.105 ether |
| Scenarios.PartialFillFee | test/Settlement.js:599-654 | a 40% fill at fee 100 is charged 40·BASE_POINTS |
| Scenarios.TinyFillFee | test/Settlement.js:656-712 | a 1000-wei fill of a 10-ether order at fee 10 is charged exactly 1; 999 wei are charged 0 |
| Scenarios.IntegratorFeeRates | test/Settlement.js:195-216 | at rate 1000000 the integrator fee on 100 DAI is 0.1 DAI, and on 0.1 WETH it is 0.0001 WETH |
| Scenarios.SwapAmounts | test/Settlement.js:12-54 | on the default auction both legs of the opposite swap fill whole, in making mode and in taking mode: 100 DAI for 0.1 WETH, and the inner order's WETH for 100 DAI |
| Scenarios.SwapTransfers | test/Settlement.js:12-54 | the four transfers succeed and move owner −100 DAI +0.1 WETH, alice +100 DAI −her WETH, and leave the difference with the resolver; nobody else's DAI or WETH moves |
| Scenarios.SwapSetup | test/Settlement.js:12-54 | the opposite swap, priced and transferred in either mode, meets the two-fill lemmas' conditions, and its time lock is open exactly from the start |
| Scenarios.OppositeSwapZeroCapital | test/Settlement.js:12-54 | a resolver with no tokens settles the swap; credit is unchanged, owner −100 DAI +0.1 WETH, alice +100 DAI −0.11 WETH, resolver +0.01 WETH |
| Scenarios.IntegratorFeeMoves | test/Settlement.js:195-216 | on top of the swap's transfers, the resolver pays bob 0.1 DAI and 0.0001 WETH, and against the starting balances owner and alice trade as without fees while bob gains the two fees |
| Scenarios.IntegratorFeeScenario | test/Settlement.js:160-217 | with integrator fees at 1000000 to bob on both fills and 0.11 WETH from alice, the swap settles with credit unchanged: owner −100 DAI +0.1 WETH, alice +100 DAI −0.11 WETH, bob +0.1 DAI +0.0001 WETH |
| Scenarios.NotEnoughCreditScenario | test/Settlement.js:714-760 | with the outer fee '1000000', encoded as 16777216, and the inner 125, a resolver whose credit is below both fees together gets NotEnoughCredit |
| Scenarios.WhitelistScenario | test/Settlement.js:762-809 | before the auction start the chain fails with ResolverIsNotWhitelisted; from the start on it settles |
| Scenarios.TwoLegFee | test/Settlement.js:547-597 | two full fills by their taking amounts at fees 100 and 125 settle for a resolver with credit for both, and lower its credit by (100 + 125)·BASE_POINTS |
| Tokens.Transfer | test/Settlement.js:374-387 | a transfer succeeds exactly when the sender holds the amount (else TransferFailed), and then moves exactly that amount between the two holders |
| Tokens.TransferConserves | test/Settlement.js:12-54 | a transfer between two of a set of distinct holders keeps the set's total of every token |
| CreditLedger.Add | test/FeeBankCharger.js:29-31 | raises one account's credit by the amount and no other |
| CreditLedger.Sub | test/FeeBankCharger.js:56-57 | lowers one account's credit by the amount exactly when it has that much, and no other; otherwise fails with the given error |
| CreditLedger.ChargeFee | test/Settlement.js:714-760 | a fee above the resolver's credit fails with NotEnoughCredit |
| CreditLedger.AddSubRoundTrip | test/FeeBankCharger.js:52-57 | removing the credit just added restores every account |
| CreditLedger.FeeBankCharger.AvailableCredit | test/FeeBankCharger.js:29-31 | an account never credited has 0 available credit; otherwise its recorded credit |
| CreditLedger.FeeBankCharger.constructor | test/FeeBankCharger.js:10-13 | a new charger is bound to its FeeBank, and everyone's credit is 0 |
| CreditLedger.FeeBankCharger.IncreaseAvailableCredit | test/FeeBankCharger.js:34-40 | anyone but the FeeBank gets OnlyFeeBankAccess and nothing changes; the FeeBank raises the account's credit by the amount and gets back the new credit |
| CreditLedger.FeeBankCharger.DecreaseAvailableCredit | test/FeeBankCharger.js:60-66 | anyone but the FeeBank gets OnlyFeeBankAccess; the FeeBank lowers the credit by the amount, and ArithmeticUnderflow with no change if the credit is too small |
| Bank.AfterDepositFor | test/FeeBank.js:53-58 | the payer's transfer to the bank decides success; the beneficiary's deposits and credit both rise by the amount; no other account changes |
| Bank.AfterDepositForWithPermit | test/FeeBank.js:70-77 | an invalid permit fails with InvalidPermit; a valid one acts exactly as depositFor |
| Bank.AfterWithdrawTo | test/FeeBankCharger.js:56-57 | the caller's credit and deposits fall by the amount and the recipient receives it; the recipient's credit is untouched; an amount above the caller's credit fails with ArithmeticUnderflow |
| Bank.DepositKeepsCovered | test/FeeBank.js:42-58 | deposits keep every account's credit at most its deposits |
| Bank.WithdrawKeepsCovered | test/FeeBankCharger.js:52-57 | withdrawals keep every account's credit at most its deposits |
| Bank.DepositWithdrawRoundTrip | test/FeeBankCharger.js:43-57 | depositing and then withdrawing the same amount restores deposits, credit and every balance |
| Bank.TwoDeposits | test/FeeBank.js:39-48 | two accounts depositing into an empty bank each end with their own amount as deposits and as credit |
| Bank.DepositThenWithdrawTo | test/FeeBankCharger.js:52-57 | after a deposit, withdrawing part to another account leaves the depositor that much less credit, and the recipient none |
| Bank.FeeBank.AccountDeposits | test/FeeBank.js:39-58 | in a consistent bank, an account's deposits cover its available credit |
| Bank.FeeBank.constructor | test/FeeBankCharger.js:10-13 | a new bank is its charger's writer and holds no deposits |
| Bank.FeeBank.DepositFor | test/FeeBankCharger.js:29-31 | the bank's, the charger's and the tokens' new state is the depositFor result, or unchanged with its error; credit stays covered |
| Bank.FeeBank.Deposit | test/FeeBank.js:39-48 | a deposit for the caller itself, with the same effect |
| Bank.FeeBank.DepositForWithPermit | test/FeeBank.js:70-77 | the new state is the permit-deposit result for the beneficiary, or unchanged with InvalidPermit or the transfer error |
| Bank.FeeBank.DepositWithPermit | test/FeeBank.js:61-68 | with a valid permit, the same effect as deposit |
| Bank.FeeBank.WithdrawTo | test/FeeBankCharger.js:56-57 | the new state is the withdrawTo result, or unchanged with ArithmeticUnderflow or the transfer error; credit stays covered |
| Bank.DeployFeeBankCharger | test/FeeBankCharger.js:10-13 | deploying the charger creates its FeeBank, which is the charger's only writer; nobody has credit or deposits yet |

## Left out

- Permit and permit2 signature checking, and the permit-packing word. A permit is a boolean input, `permitValid`.
- ERC-20 `approve` and allowances. A transfer fails only when the sender's balance is short.
- Order building, signing and signature splitting (`buildOrder`, `signOrder`, `splitSignature`), and the `fillOrderArgs` ABI call. These libraries' code is not part of this model.
  - The calldata builder is modelled as the settlement data it produces: the amount data, the post-interaction, the interaction and the filling amount.
- `buildTakerTraits` and the `minReturn` threshold. The resolver's arbitrary calls are a list of plain token transfers.
- The limit-order protocol's remaining-amount bookkeeping and fill clamping. The model checks no partial-fill limits.
- The whitelist registry. The resolver's delay is an input to each fill.
- `gatherFees`, and any claim about the withdraw underflow beyond its error code. No shown file exercises them.
- uint256 overflow. Amounts are unbounded naturals; only the encoders' field widths are enforced, through the validity predicates.
- The test's own timing fudge, the "- 3" seconds in the expected-amount formula. It compensates for block times in the test harness.
- Hardhat fixtures and block timestamps. Time is a parameter.
- The older API names in the FeeBank test, `creditAllowance` and `setFeeBank`. They are modelled as the charger's `availableCredit` and as binding the bank at deployment.
- Orders with a zero making or taking amount are modelled as failing with DivisionByZero.
- FusionUtils.BuildAuctionDetails: the builder also returns `delay`, `duration` and `initialRateBump` unchanged. Only the start time and the bytes are modelled.
- The unidirectional, triple and permit-based recursive swaps (test/Settlement.js:56-159 and 219-344) are covered only by the general lemmas, `SettlementEngine.SettleConserves` and `SettlementEngine.SettleCharges`, not as separate scenarios.
- SettlementEngine.ResolverFeeAmount: a minimum charge of 1 for a non-zero rate is not modelled. The fee is the plain proportion rounded down, because no shown test tells the two readings apart: the 1-wei test gets exactly 1 either way.
- The funding steps of the integrator-fee test, which send the resolver its fee tokens before settling, are a precondition of `Scenarios.IntegratorFeeScenario`: the resolver already holds 0.1 DAI.
