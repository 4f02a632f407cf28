# Payments platform: verified model

This project models the hard core of a payments platform built on Soroban (Stellar) contracts,
a Node.js service and a few scripts, and proves what each part is for.
`dafny verify dfyconfig.toml` checks the whole project.

| file | what it models |
|---|---|
| `PaymentRouter.dfy`, `DirectPayments.dfy`, `SwapPayments.dfy`, `RawSwaps.dfy`, `Split.dfy`, `RouterCore.dfy`, `PaymentLaws.dfy`, `PaymentErrors.dfy` | the payment router as a machine that moves tokens: direct, batched and relayed payments; swaps through one exchange, split over several, along a path, and through an adapter that the caller names; refunds; what an accepted payment has passed and what it costs; what each error says |
| `Fees.dfy`, `RefundLedger.dfy`, `TokenLedger.dfy`, `MapSum.dfy` | the fee rules, the refund ledger, token balances, sums over maps |
| `UserRecord.dfy`, `OctetValues.dfy` | the packed per-sender record, its migration, the daily limit |
| `Roles.dfy`, `Multisig.dfy`, `Timelock.dfy`, `TimelockEffects.dfy`, `Governance.dfy`, `BatchWitnesses.dfy` | roles and the admin seat; the M-of-N group, upgrades and rotations; the 24-hour timelock, its batches, and what they write; runs that mix direct and timelocked calls; runs from a new contract to each way in which batches differ |
| `Merkle.dfy`, `ByteOrder.dfy` | the Merkle tree script; byte strings and sorting |
| `Keyset.dfy`, `FraudScorer.dfy`, `FraudScores.dfy` | cursor pagination; the bounded fraud scorer and what its scores are |
| `PausableToken.dfy`, `TokenMoves.dfy`, `Strkey.dfy` | the token's supply accounting, whose tokens move and on whose word; the base32 decoder for account keys |
| `FlashLoan.dfy`, `PaymentProxy.dfy` | the flash loan provider; session budgets and nonces of the payment proxy |
| `Wrappers.dfy` | results of operations that can fail |

How it is built:

- Each contract that updates stored fields is a class whose methods do the same steps and loops,
  and each method is proved equal to a function on a state value. The laws are lemmas about those
  functions, over all inputs, all runs and all answers of other contracts. The router contract
  appears twice: `PaymentRouter.Router` holds what payments touch, `Timelock.Router` what
  administration touches.
- Beside each function stand laws that do not use it: when a call is accepted, what it leaves
  under every key or in every account, what a fee or a score is, and what each error says.
- A call that returns an error, or traps, leaves the state as it was, because the host discards
  its writes. Arithmetic is on unbounded integers with the i128, u64 and u32 ranges written out; an
  overflow traps, saturates or fails as in the code (release builds keep overflow checks on).
- Other contracts are inputs: each operation takes the answers it gets (did the token accept the
  transfer, what did the exchange do to the ledgers, what did it report). An exchange may do
  anything to any balance that needs no authorization by the router, so it cannot debit it, and
  it cannot be the router, because the host refuses re-entry. Authorization, signature checks,
  identity checks and rate limits are Boolean answers. The router authorizes nothing for itself.
- An address is its XDR encoding, so equal encodings mean equal addresses. The hash of a signer
  configuration is taken to be injective: it is the pair of sorted signers and threshold.
  SHA-256 in the Merkle tree is an arbitrary function with 32-byte results, which cannot be
  injective. So soundness speaks of the finitely many inputs that are hashed: a claim that is not
  a leaf yields two of them, one hashed in building the tree and one in folding the proof, that
  differ and have the same hash, and `Merkle.FindCollision` computes them.

What came out different from the documentation, or only under a condition:

- *Batches.* `execute_batch_actions` is documented as applying each action exactly as
  `execute_action` does (payment_router/src/lib.rs:1041-1043), and an approval set as authorizing
  exactly one installation (payment_router/src/lib.rs:4244-4246). The code checks authority once,
  before the first action. `Timelock.BatchAgreesExactly` gives the exact condition for agreement,
  for every batch in every state with a valid group (which every reachable state has, by
  `Governance.QuorumsInEveryRun`): where the entries are ready and their changes apply one after
  the other, all upgrades have their quorum before the batch if and only if authority lasts
  through it. It fails both ways. A batch goes through that should stop after a handover of the
  seat, a used-up quorum or a rotation (`BatchOutlivesHandover`, `BatchReusesQuorum`,
  `BatchIgnoresRotation`); and a batch is refused whose upgrade has the quorum of the group that
  the batch itself brings in (`BatchRefusesNewQuorum`). `BatchWitnesses` reaches each of the four
  from a new contract. Also, an empty batch still needs the admin and an unfrozen contract.
- *One installation per quorum.* Over all runs, direct and timelocked, every installation has a
  quorum of its own exactly if each accepted batch keeps to that
  (`Governance.InstallationsAreBackedExactly`).
- *Claiming the admin seat.* `claim_admin` is documented as transferring admin rights
  (payment_router/src/lib.rs:2409-2424). It moves the admin seat only; whoever held SuperAdmin
  keeps it (`Roles.ClaimKeepsSuperAdmin`), as in the run of `Roles.ClaimWithoutSuperAdmin`.
- *Tolerant batches.* A batch of relayed intents is documented as one result per intent, bad signatures
  included (payment_proxy/src/lib.rs:716-735). With the `testutils` feature that holds; as
  deployed, the host traps on it and the whole batch is undone (payment_proxy/src/lib.rs:803-816).
  `PaymentProxy.DeployedBatchExactly`: the batch completes if and only if every intent that is in
  time and at its account's nonce when its turn comes has a valid signature, and then the two
  builds do and report the same.
- *Daily limit.* The window is fixed once opened, not sliding. In 24 hours up to twice the limit
  can be accepted, never more, and that bound is reached (`UserRecord.TwiceTheLimitIsReached`).
  For a sender that starts with an empty window, every 24 hours stay within the limit itself
  exactly if each accepted payment fits together with what the last day carried over from earlier
  windows (`UserRecord.SlidingDaysExactly`); so they do if each window opens after a day without
  accepted payments (`UserRecord.QuietDaysKeepTheLimit`).
- *Migration.* Migrating before a payment gives the same record as paying directly except for a
  sender that had volume but no window yet, less than a day after the migration
  (`UserRecord.MigrateThenAccrue`).
- *Fee settings.* The setters accept negative values. With those a swap pays out more than it
  received; `RouterCore.OverpaysExactlyIfFeeNegative` says exactly when. Solvency is stated for
  settings that are not negative.
- *Swap pause.* The pause level for swaps (payment_router/src/storage.rs:7-15) stops single,
  batched and split swaps. Swaps along a path and swaps through a named adapter do what they do
  without a pause (`SwapPayments.SwapPauseSparesPaths`, `RawSwaps.SwapPauseSparesRaw`);
  `SwapPayments.PathPassesSwapPause` is one that goes through.
- *Unused input of raw swaps.* `route_payment_with_swap_raw` is documented as crediting unused
  input to the sender's refund (payment_router/src/lib.rs:2852-2855). It pays the amount that the
  adapter reports out of the router's holdings instead, without measuring what came back
  (payment_router/src/lib.rs:2904-2924). So the surplus over refunds is kept exactly if that report
  is backed by what the adapter left with the router (`RawSwaps.RawKeepsSurplusExactly`), and
  solvency is stated for runs in which accepted reports are.
- *Session allowances.* They are documented as counting the input of the router's direct, batch,
  meta and swap payments (payment_proxy/src/lib.rs:51-52). Three routes are not counted: split swaps,
  swaps along a path, and quotes; on these a payment passes whatever the allowance
  (`PaymentProxy.UncountedIgnoresAllowances`, and from a new proxy
  `PaymentProxy.SpentKeyStillPasses`). Over every run on a set of routes a grant bounds what passes
  if and only if all of them are counted (`PaymentProxy.GrantBoundsRoutesExactly`).

## Model

| member | source | states |
|---|---|---|
| PaymentRouter.RouterStaysSolvent | payment_router/src/lib.rs:254-269 | In every state reached from an empty refund ledger by payments of all kinds, withdrawals, changes of settings without negative fees, and outside events, with accepted raw swaps only on backed reports, the router holds of every token at least the sum of all users' refunds in it; so every user can withdraw any part of its refund, and exactly that. |
| PaymentRouter.RunKeepsSurplus | payment_router/src/lib.rs:2690-3932 | Over every run from a state with positive refund entries and no negative fee settings, in which settings stay so and accepted raw swaps are backed, holdings minus refunds owed do not fall in any token, whatever exchanges, recipients and tokens do. |
| PaymentRouter.SignedNonceWorksOnce | payment_router/src/lib.rs:3039-3126 | A relayed payment is accepted only at the sender's current nonce, and nothing signed for that nonce is accepted again after any run. |
| PaymentRouter.StepMovesNonce | payment_router/src/lib.rs:3085-3114 | Among all operations only an accepted relayed payment moves a meta nonce: its own sender's, by one. |
| PaymentLaws.PaymentSettles | payment_router/src/lib.rs:2690-2758 | A payment is accepted exactly if the contract is open, the payment admissible, vouched for, approved, within rate and daily limit, and carried by the token; then the sender pays the amount, of it the largest fee within amount, cap and ten-thousandths of the rate for its volume before, and the rest is delivered or owed. |
| PaymentLaws.MetaSettles | payment_router/src/lib.rs:3063-3126 | The same for relayed payments, with deadline, nonce, signature and allowance; the nonce goes up by one. Where the product overflows, the amount stands in for it. |
| PaymentLaws.BatchChecksExactly | payment_router/src/lib.rs:2974-3010 | The checks of a batch pass exactly if every item does and every sender approves its own first item. |
| PaymentLaws.BatchIsOneByOne | payment_router/src/lib.rs:2954-3036 | A batch whose senders all approve is accepted exactly if its payments one by one are, with the same final state. |
| PaymentLaws.WithdrawalSettles | payment_router/src/lib.rs:3866-3907 | When a withdrawal is accepted; it moves the amount from the router to the user and lowers that refund by it, and nothing else. |
| PaymentLaws.ClaimIsWithdrawal | payment_router/src/lib.rs:3922-3932 | A claim is the withdrawal of the whole refund. |
| PaymentLaws.SwapSettles | payment_router/src/lib.rs:3175-3339 | A swap payment is accepted exactly if it is open, booked, carried, its output on the router's own balance passes and can be delivered; the treasury gets the fee on that output at the rate for the sender's volume, and the rest is delivered or owed. |
| PaymentLaws.SwapBatchIsOneByOne | payment_router/src/lib.rs:3441-3465 | A batch of swaps is accepted exactly if its swaps one by one are and the sum fits, with the same final state and that sum. |
| PaymentLaws.OutputPassesExactly | payment_router/src/lib.rs:3276-3293 | An output passes exactly from the sender's floor on and, with a quote, down to the ceiling of the pair, or else the general one, in exact proportion. |
| PaymentLaws.DeliversExactly | payment_router/src/lib.rs:3305-3325 | When an output is delivered, and that fee and remainder are those of the fee law. |
| PaymentLaws.SplitSettles | payment_router/src/swaps.rs:18-174 | An accepted split passed the checks and the floor of every leg, and delivers the sum of the legs less the fee on it. |
| PaymentLaws.LegsMeetFloors | payment_router/src/swaps.rs:101-151 | Every leg reaches its own floor, and the legs add up to what the router measures from the first to the last. |
| PaymentLaws.LegsAreInRange | payment_router/src/swaps.rs:101-151 | Every leg has a positive share, computed without overflow, and the sum of the outputs is in range. |
| PaymentLaws.PathOpensExactly | payment_router/src/lib.rs:3528-3590 | The checks of a path payment pass exactly for three to five different tokens with positive floors on a registered exchange, admissible, vouched for, approved and within the rate. |
| PaymentLaws.PathSettles | payment_router/src/lib.rs:3543-3667 | An accepted path payment passed the checks and delivers the output of its last hop less the fee on it. |
| PaymentLaws.RawSettles | payment_router/src/lib.rs:2861-2936 | A raw swap is accepted exactly if it is open and carried and its reported output can be paid by the sender; that payment then settles like any other. |
| PaymentErrors.PaymentErrorsAreTrue | payment_router/src/lib.rs:2690-2758 | Every error of a direct payment tells the truth about the call. |
| PaymentErrors.MetaErrorsAreTrue | payment_router/src/lib.rs:3063-3126 | Every error of a relayed payment tells the truth. |
| PaymentErrors.WithdrawalErrorsAreTrue | payment_router/src/lib.rs:3866-3907 | Every error of a withdrawal tells the truth. |
| PaymentErrors.SwapChecksAreTrue | payment_router/src/lib.rs:3175-3235 | Every error of the checks in front of a swap tells the truth. |
| PaymentErrors.PathChecksAreTrue | payment_router/src/lib.rs:3528-3590 | Every error of the checks in front of a path payment tells the truth. |
| PaymentErrors.RawChecksAreTrue | payment_router/src/lib.rs:2872-2902 | Every error of the checks in front of a raw swap tells the truth. |
| PaymentErrors.ShortBalanceIsReported | payment_router/src/swaps.rs:84-94 | A sender without the funds is told so by every swap route. |
| PaymentErrors.BookingErrorsAreTrue | payment_router/src/storage.rs:447-489 | A booking is refused for its size only above the day's limit, and traps only before the window. |
| PaymentRouter.Router.RoutePayment | payment_router/src/lib.rs:2690-2758 | Checks in the order of the contract, then the payment; a failure at any point leaves the state as it was. |
| PaymentRouter.Router.CheckBatch | payment_router/src/lib.rs:2974-3010 | The validation loop: the first failing item decides the error, and a sender authorizes once, at its first item. |
| PaymentRouter.Router.RoutePayments | payment_router/src/lib.rs:2954-3036 | A batch checks everything first and then settles in order; one failing payment undoes all of it. |
| PaymentRouter.Router.ProcessSinglePayment | payment_router/src/lib.rs:468-553 | Books the payment, takes the fee at the rate for the volume before it, and delivers or holds the remainder. |
| PaymentRouter.Router.ProcessSinglePaymentNoAuth | payment_router/src/lib.rs:560-669 | The relayed variant: same checks and settlement, limited by the allowance. |
| PaymentRouter.Router.PayOut | payment_router/src/lib.rs:500-542 | Fee and remainder leave the sender; a remainder the recipient cannot take is held and credited as a refund. |
| PaymentRouter.Router.RoutePaymentMeta | payment_router/src/lib.rs:3063-3126 | Deadline, nonce and signature gate the payment; the nonce is used up only if the payment goes through. |
| PaymentRouter.Router.CreditRefundBalance | payment_router/src/lib.rs:254-258 | Raises one refund balance by the amount and no other; traps on overflow. |
| PaymentRouter.Router.WithdrawRefund | payment_router/src/lib.rs:3866-3907 | Lowers the refund and pays it out, or does neither. |
| PaymentRouter.Router.ClaimAllRefunds | payment_router/src/lib.rs:3922-3932 | Withdraws the whole refund and reports it. |
| PaymentRouter.Router.ProcessSingleSwapPayment | payment_router/src/lib.rs:3175-3339 | Pulls, swaps, measures the output on the router's own balance, applies both slippage guards, and delivers. |
| PaymentRouter.Router.RoutePaymentsWithSwap | payment_router/src/lib.rs:3441-3465 | Swaps in order and adds up what was delivered; one failing swap undoes all of them. |
| PaymentRouter.Router.CheckWeights | payment_router/src/swaps.rs:36-51 | The weight loop agrees with the acceptance rule for splits. |
| PaymentRouter.Router.SwapEachShare | payment_router/src/swaps.rs:101-151 | The loop that hands each exchange its share by running subtraction computes exactly the shares of `Split.Shares`. |
| PaymentRouter.Router.RouteSplitPaymentWithSwap | payment_router/src/swaps.rs:18-174 | A split payment as a whole, undone by any failing part. |
| PaymentRouter.Router.RepeatsToken | payment_router/src/lib.rs:3547-3554 | The nested loops find a repeated token exactly if the path has one. |
| PaymentRouter.Router.SwapHop | payment_router/src/lib.rs:3598-3645 | One hop: the reports must match the measured balances, and unused input goes back to the sender. |
| PaymentRouter.Router.SwapAlong | payment_router/src/lib.rs:3596-3646 | The loop over the hops carries the measured output of each hop into the next. |
| PaymentRouter.Router.RouteMultihopSwap | payment_router/src/lib.rs:3520-3667 | A payment along a path as a whole, undone by any failing part. |
| PaymentRouter.Router.CheckRaw | payment_router/src/lib.rs:2872-2902 | The checks of a raw swap in the order of the contract. |
| PaymentRouter.Router.SwapThroughAdapter | payment_router/src/lib.rs:2903-2924 | Input to the adapter, the call, and the reported unused input out of the router's holdings. |
| PaymentRouter.Router.RoutePaymentWithSwapRaw | payment_router/src/lib.rs:2861-2936 | A raw swap and the payment of its reported output as a whole, undone by any failure. |
| RawSwaps.RawKeepsSurplusExactly | payment_router/src/lib.rs:2903-2936 | Unless the router itself is paid in the input token, an accepted raw swap keeps holdings ahead of refunds in every token exactly if the reported unused input is at most what the adapter left with the router. |
| RawSwaps.BackedRawKeepsSurplus | payment_router/src/lib.rs:2903-2936 | A backed raw swap keeps holdings ahead of refunds in every token, whoever is paid. |
| RawSwaps.SwapPauseSparesRaw | payment_router/src/lib.rs:2872-2877 | At the swaps-only level a raw swap does what it does without a pause. |
| RawSwaps.ProcessSurplus | payment_router/src/lib.rs:488-542 | A direct payment leaves holdings minus refunds exactly as they are, in every token in which the router is not itself paid. |
| SwapPayments.MultihopConserves | payment_router/src/lib.rs:3543-3667 | Whatever the exchange does: each output is positive and at least its floor; the treasury gets the last output less the remainder, which is the fee at the sender's discounted rate; the remainder reaches the recipient or, exactly if refused there, raises the sender's refund by itself; and the router holds no less of any token than at the start plus, of the last token, exactly what it credited. |
| SwapPayments.HopTrades | payment_router/src/lib.rs:3598-3645 | A hop turns the amount in play into at least the floor of the next token without touching what the router held before; what it gives back is in `HopGivesBackUnused`. |
| SwapPayments.HopGivesBackUnused | payment_router/src/lib.rs:3612-3637 | Whatever the exchange did: after an accepted hop the router has exactly the amount handed over less of the input and the reported output more; the sender has what it had when the exchange returned plus the unused input, and no other balance moved since. |
| SwapPayments.HopAcceptedExactly | payment_router/src/lib.rs:3598-3645 | When a hop is accepted: both reports match the router's balances, the unused input is part of the amount, and the output positive and at least the floor. |
| SwapPayments.SwapConserves | payment_router/src/lib.rs:3248-3325 | A swap payment leaves the router with no less of any token, plus what it credited, whatever the exchange does. |
| SwapPayments.HonestSwapSettles | payment_router/src/lib.rs:3175-3339 | A swap that passes the checks, on an exchange that pays what it owes, goes through, and every balance in every token moves exactly as it should: input to the exchange, output to treasury and recipient, nothing kept. |
| SwapPayments.HonestPathSettles | payment_router/src/lib.rs:3543-3667 | The same for a path of any admissible length, on an exchange that may leave a part of each input unused: in sum only the input and the last output change hands, and each unused part is back with the sender. |
| SwapPayments.UnusedReachesSender | payment_router/src/lib.rs:3633-3635 | Of what the hops give back, each part reaches the sender in its own token, and nobody but the exchange is short of it. |
| SwapPayments.HonestLegsSettle | payment_router/src/swaps.rs:101-151 | Over honest exchanges every leg of a split succeeds, each exchange gets exactly its own share and pays exactly its own output. |
| SwapPayments.SwapMeetsQuote | payment_router/src/lib.rs:3276-3293 | An accepted output reaches the sender's floor and is within the slippage ceiling of the sender's quote, in exact proportion. |
| SwapPayments.SwapAllKeepsSurplus | payment_router/src/lib.rs:3441-3465 | A batch of swaps takes nothing from what the router holds for others. |
| SwapPayments.SplitConserves | payment_router/src/swaps.rs:95-174 | A split payment leaves the router with no less of any token, plus what it credited: all of the input and nothing else goes to the exchanges. |
| SwapPayments.SharesTrade | payment_router/src/swaps.rs:101-151 | Between any two legs the router has the shares still to be swapped and the outputs so far on top of what it held. |
| SwapPayments.SwapPauseSparesPaths | payment_router/src/lib.rs:3528-3535 | At the swaps-only level every other swap through a registered exchange is refused, and a swap along a path has the same outcome as without a pause. |
| SwapPayments.PathPassesSwapPause | payment_router/src/lib.rs:3528-3535 | A path payment over two hops that goes through at the swaps-only level. |
| DirectPayments.PaymentReaches | payment_router/src/lib.rs:488-542 | The sender pays exactly the amount; the fee reaches the treasury, and the rest the recipient or, refused there, the sender's refund; no other balance moves. What the fee is, is in `PaymentLaws.PaymentSettles`. |
| DirectPayments.PayConserves | payment_router/src/lib.rs:510-542 | What a payment leaves with the router is what it credits as a refund, for any fee settings. |
| DirectPayments.MetaConserves | payment_router/src/lib.rs:621-659 | The same for relayed payments. |
| DirectPayments.ProcessAllKeepsSurplus | payment_router/src/lib.rs:3018-3029 | A batch of payments takes nothing from what the router holds for others. |
| DirectPayments.RefundsAreWithdrawable | payment_router/src/lib.rs:3866-3907 | In a solvent state a withdrawal succeeds exactly for positive amounts up to the refund, pays exactly that, and lowers the refund by it. |
| DirectPayments.ClaimPaysEverything | payment_router/src/lib.rs:3922-3932 | A claim pays the whole refund and leaves none, so a second one fails. |
| RouterCore.DeliverConserves | payment_router/src/lib.rs:3305-3325 | Delivering an output keeps what the router held before it came in, and credits all of the remainder or nothing. |
| RouterCore.DeliverPays | payment_router/src/lib.rs:3305-3325 | Fee and remainder are those of the fee rule; the fee reaches the treasury and the remainder the recipient or, exactly if refused there, the sender's refund; no other balance moves. |
| RouterCore.DeliverySucceeds | payment_router/src/lib.rs:3305-3325 | An output the router has, accepted by the tokens, is always delivered. |
| RouterCore.OverpaysExactlyIfFeeNegative | payment_router/src/fees.rs:7-16 | A delivery costs the router no more than came in exactly if cap and rate are not negative (for that output). |
| RouterCore.ConservedKeepsSurplus | payment_router/src/lib.rs:254-269 | Holding at least what was credited keeps holdings ahead of the sum of all refunds. |
| RouterCore.SwapLegTrades | payment_router/src/lib.rs:331-357 | A swap costs the router at most the amount handed over and gains it the measured output, whatever the exchange does. |
| RefundLedger.OwedAfterDebit | payment_router/src/lib.rs:3881-3894 | A withdrawal lowers the total owed in its token by exactly the amount, dropped entries included, and leaves other tokens alone. |
| RefundLedger.OwedCoversEach | payment_router/src/lib.rs:249-252 | No single refund exceeds the total owed in its token. |
| Fees.FeeIsPartOfAmount | payment_router/src/fees.rs:7-16 | Fee and remainder always add up, and both lie between zero and the amount exactly if cap and rate are not negative (for that amount). |
| Fees.FeeAndRemainderGrow | payment_router/src/fees.rs:7-16 | A larger amount never pays a smaller fee and, up to a rate of 100%, never delivers less. |
| Fees.DiscountLowersFee | payment_router/src/lib.rs:488-493 | The volume discount never makes a fee larger; who gets it is in `Fees.EffectiveBpsIsRate`. |
| Fees.EffectiveBpsIsRate | payment_router/src/lib.rs:488-493 | The rate is the full one for a volume up to 100,000,000,000 and half of it, rounded down, above. |
| Fees.FeeIsUnique | payment_router/src/fees.rs:7-16 | For settings that are not negative there is exactly one such rate and one largest fee within amount, cap and rate. |
| Fees.DirectFeeIsFee | payment_router/src/lib.rs:500-508 | The fee of a direct payment is that fee, with the product limited to the largest amount. |
| Fees.MetaFeeIsFee | payment_router/src/lib.rs:621-632 | The fee of a relayed payment is that fee, with the amount in place of an overflowing product. |
| Fees.CalculatedFeeIsFee | payment_router/src/fees.rs:7-16 | The fee of a swap output is that fee, and is refused exactly on overflow. |
| Fees.FeesArePartOfAmount | payment_router/src/lib.rs:500-508 | The saturating, the checked and the trapping fee computation all stay between zero and the amount. |
| Split.SplitAcceptedExactly | payment_router/src/swaps.rs:31-51 | A split is accepted exactly if it has routes, each with positive weight and floor on a registered exchange, and the weights make 100%. |
| Split.WeightsMakeWhole | payment_router/src/swaps.rs:31-51 | The weights of an accepted split are positive ten-thousandths that make up the whole. |
| Split.SharesAreExactAndFair | payment_router/src/swaps.rs:101-112 | The shares sum to the input; each but the last is the floor of its exact proportion; the last of n is at least its own and exceeds it by less than n - 1. |
| Split.SharesArePositive | payment_router/src/swaps.rs:110-116 | No share is refused as empty exactly if the amount is positive and gives each route but the last at least one unit. |
| UserRecord.UnpackPack | payment_router/src/storage.rs:275-314 | Packing loses nothing, for every time, negative amount and flag bitmap. |
| UserRecord.PackUnpack | payment_router/src/storage.rs:275-314 | Every 72-byte value packs exactly one record. |
| UserRecord.PackLayout | payment_router/src/storage.rs:275-314 | Where each byte of time, window total, volume and flags stands in a packed record, most significant first. |
| UserRecord.FlagIsMasked | payment_router/src/storage.rs:317-338 | A flag is the bit that the mask for it selects in its byte. |
| UserRecord.ReaderSees | payment_router/src/storage.rs:410-445 | What a reader sees of a sender with a packed record, with older entries, and with neither. |
| UserRecord.FlagSetExact | payment_router/src/storage.rs:317-338 | Setting a flag sets that flag and none of the other 255. |
| UserRecord.SetFlagKeepsCounters | payment_router/src/storage.rs:355-370 | Setting a flag leaves window and volume as a reader sees them. |
| UserRecord.MigrationIsInvisible | payment_router/src/lib.rs:1703-1759 | Migration changes nothing a reader sees, and migrating again does nothing. |
| UserRecord.MigrateThenAccrue | payment_router/src/lib.rs:1672-1759 | Migrating first accepts the same payments at the same discount, and gives the same view exactly unless the sender had no window and less than a day has passed. |
| UserRecord.AnyDayWithinTwiceTheLimit | payment_router/src/storage.rs:447-489 | Across every run of payments, flag updates and migrations, any 24 hours accept at most twice the daily limit. |
| UserRecord.TwiceTheLimitIsReached | payment_router/src/storage.rs:447-489 | That bound is reached within one second, so the limit itself does not hold over sliding days. |
| UserRecord.SlidingDaysExactly | payment_router/src/storage.rs:447-489 | Under a clock that does not go back, for a sender whose window, if any, is empty: every 24 hours stay within the limit exactly if each accepted payment fits, with the stored total and what the last day carried over from earlier windows. |
| UserRecord.QuietDaysKeepTheLimit | payment_router/src/storage.rs:447-489 | Every 24 hours stay within the limit if nothing was accepted in the day before any window opened. |
| UserRecord.StoredTotalWithinLimit | payment_router/src/storage.rs:459-472 | After an accepted payment the stored window total is within the limit. |
| UserRecord.AcceptedExactlyWithinDay | payment_router/src/storage.rs:447-489 | A payment is accepted exactly if the clock is not behind the window and the day's total with it is within the limit. |
| UserRecord.AcceptedIsBooked | payment_router/src/storage.rs:447-489 | An accepted payment reports the volume before it, raises volume and window total, and keeps the flags. |
| UserRecord.VolumeCountsAccepted | payment_router/src/storage.rs:474-480 | Over every run the lifetime volume is what it was plus all that was accepted, up to the largest amount. |
| UserRecord.OlderEntriesAfter | payment_router/src/storage.rs:482-488 | What payments, flag updates and migration do to the older entries. |
| UserRecord.Sender.AccrueUserRecord | payment_router/src/storage.rs:447-489 | Rolls the window, applies the limit, and writes one packed record; a refused payment writes nothing. |
| UserRecord.Sender.LoadUserRecord | payment_router/src/storage.rs:410-445 | Prefers the packed record and falls back to the older entries. |
| UserRecord.Sender.UserSetFlag | payment_router/src/storage.rs:355-370 | Writes the record with one flag changed. |
| UserRecord.Sender.MigrateUserRecord | payment_router/src/lib.rs:1703-1759 | Recombines the older entries into one record and removes them. |
| Roles.ExactlyOneHolder | payment_router/src/access.rs:87-107 | After every run from initialization, each role has exactly one account that can exercise it, by grant, designation or fallback to the admin. |
| Roles.HoldersMoveAsTabled | payment_router/src/lib.rs:759-821 | Which account holds which role after each accepted operation. |
| Roles.DesigneesMoveAsTabled | payment_router/src/access.rs:12-48 | Which account each role designates after each accepted operation. |
| Roles.SeatAndSwitchMoveAsTabled | payment_router/src/lib.rs:1884-1980 | The admin seat, the backup, its timeout and the last sign of life after each accepted operation. |
| Roles.AcceptedExactly | payment_router/src/access.rs:66-115 | Who may do what: each operation is accepted exactly on the word of the accounts it needs. |
| Roles.ErrorsAreTrue | payment_router/src/access.rs:66-115 | Every error of a role operation tells the truth. |
| Roles.ClaimsExactly | payment_router/src/lib.rs:2425-2471 | A claim is accepted exactly if the backup makes it and signs and the timeout has passed since the last sign of life. |
| Roles.NoClaimWithinAWeek | payment_router/src/lib.rs:2425-2471 | For a week after a sign of life no claim is accepted, whatever else happens. |
| Roles.ClaimKeepsSuperAdmin | payment_router/src/lib.rs:2425-2471 | A claim moves the admin seat and leaves SuperAdmin with whoever had it. |
| Roles.ClaimWithoutSuperAdmin | payment_router/src/lib.rs:2425-2471 | A run from a new contract in which the backup claims the seat while the old admin alone keeps SuperAdmin. |
| Roles.Registry.SetRoleInternal | payment_router/src/access.rs:12-33 | Grants a role and withdraws the grant of the account designated before. |
| Roles.Registry.RemoveRoleInternal | payment_router/src/access.rs:35-48 | Withdraws a grant and, if it was the designated one, the designation. |
| Roles.Registry.InitializeContract | payment_router/src/lib.rs:690-731 | Seats the admin once and designates it for the roles. |
| Roles.Registry.Revoke | payment_router/src/lib.rs:786-813 | Revocation by the admin; a failed call changes nothing. |
| Roles.Registry.Transfer | payment_router/src/lib.rs:1884-1894 | Hands over the admin seat together with SuperAdmin. |
| Roles.Registry.Claim | payment_router/src/lib.rs:2425-2471 | The dead man's switch: only the backup admin, only after the timeout. |
| ByteOrder.CompareBytes | payment_router/src/access.rs:270-285 | The byte loop computes the lexicographic order. |
| ByteOrder.CompareIsLexicographic | payment_router/src/access.rs:270-285 | The order is decided where two byte strings first differ, or by which goes on. |
| ByteOrder.SortSorts | payment_router/src/access.rs:287-307 | Insertion sorting yields a sorted permutation. |
| ByteOrder.SortCanonical | payment_router/src/access.rs:287-307 | Every ordering of the same members sorts to the same list. |
| Multisig.SortedMultisigSigners | payment_router/src/access.rs:287-307 | The nested insertion loops sort the signers. |
| Multisig.RotationForgetsOrder | payment_router/src/access.rs:309-346 | The same proposal in another order is the same call on the same tally. |
| Multisig.ValidateMultisigConfig | payment_router/src/access.rs:255-268 | Accepts exactly duplicate-free groups with a quorum within bounds. |
| Multisig.LoadEffectiveApprovals | payment_router/src/access.rs:355-370 | Counts only approvals of current members. |
| Multisig.GroupAcceptedExactly | payment_router/src/access.rs:255-268 | A group is acceptable exactly if it has members, none twice, and a threshold within bounds. |
| Multisig.ApprovalsAcceptedExactly | payment_router/src/lib.rs:4070-4206 | Who may approve, revoke, propose and cancel. |
| Multisig.ErrorsAreTrue | payment_router/src/access.rs:309-436 | Every error of an approval, a rotation or an upgrade tells the truth. |
| Multisig.RunIsTallied | payment_router/src/lib.rs:4070-4206 | After every run of direct calls the stored approvals are exactly the standing ones in the history, each once. (`Governance.RunIsCounted` adds the timelocked calls.) |
| Multisig.UpgradeNeedsQuorum | payment_router/src/lib.rs:4263-4279 | An upgrade goes through exactly when at least the threshold of distinct members in force approved that hash since it was last used or cancelled, and have not revoked. |
| Multisig.RotationNeedsQuorum | payment_router/src/access.rs:394-436 | A configured group is replaced exactly when the new one is valid and its threshold of distinct current members approved that very set and threshold. |
| Multisig.ThresholdInBounds | payment_router/src/access.rs:255-268 | The threshold is at least one, at least two where there are two members, and at most the size of the group. |
| Multisig.InstalledByUpgrades | payment_router/src/access.rs:386-392 | In runs of direct calls, code is installed by accepted upgrades and nothing else. (`Governance.RunIsCounted` adds the timelocked calls.) |
| Multisig.UpgradeConsumesApprovals | payment_router/src/access.rs:386-392 | Right after an upgrade the same hash is refused. |
| Multisig.Registry.ApproveMultisigConfig | payment_router/src/access.rs:314-346 | Records one approval per member for the canonical configuration. |
| Multisig.Registry.StoreMultisigConfig | payment_router/src/access.rs:394-436 | Replaces the group under quorum and drops the approvals used. |
| Multisig.Registry.Approve | payment_router/src/lib.rs:4070-4110 | Records one approval per member and hash. |
| Multisig.Registry.Revoke | payment_router/src/lib.rs:4130-4172 | Takes an approval back. |
| Multisig.Registry.PerformUpgrade | payment_router/src/lib.rs:4263-4279 | Installs under quorum and uses the approvals up. |
| Timelock.BatchIsOneByOne | payment_router/src/timelock.rs:133-200 | A batch of independent entries succeeds exactly when one-by-one execution as one transaction does, with the same final state. |
| Timelock.OneByOneNeedsLastingAuthority | payment_router/src/timelock.rs:133-200 | For any batch that goes through, one-by-one execution does exactly when authority lasts for the whole list, and then with the same state. |
| Timelock.BatchNeedsInitialQuorums | payment_router/src/timelock.rs:86-200 | For any list that goes through one by one, the batch does exactly when every upgrade has a quorum of the group in force before it, and then with the same state. |
| Timelock.BatchAgreesExactly | payment_router/src/timelock.rs:86-200 | A batch and its execution one by one accept or refuse alike and end alike exactly if, for a list that is ready and applies in order, initial quorums and lasting authority come to the same; for the empty batch exactly if the guards pass. |
| Timelock.BatchAcceptedExactly | payment_router/src/timelock.rs:133-200 | When a batch is accepted: guards, readiness of every entry, the initial quorums, and changes that apply in order. |
| Timelock.EachAcceptedExactly | payment_router/src/timelock.rs:86-118 | When one-by-one execution is accepted: guards, readiness of every entry from the start, lasting authority, and changes that apply in order. |
| Timelock.BatchOutlivesHandover | payment_router/src/timelock.rs:133-200 | A batch continues after the admin seat has been handed over inside it. |
| Timelock.BatchReusesQuorum | payment_router/src/timelock.rs:133-200 | One quorum carries the same upgrade twice inside a batch. |
| Timelock.BatchIgnoresRotation | payment_router/src/timelock.rs:133-200 | An upgrade after a rotation inside a batch rides on the old group's quorum. |
| Timelock.BatchRefusesNewQuorum | payment_router/src/timelock.rs:157-176 | A batch is refused for want of the old group's quorum though one-by-one execution rotates first and goes through. |
| BatchWitnesses.HandoverIsReached | payment_router/src/timelock.rs:133-200 | A run from a new contract to a batch that outlives a handover. |
| BatchWitnesses.ReuseIsReached | payment_router/src/timelock.rs:133-200 | A run from a new contract to a batch that installs twice on one quorum. |
| BatchWitnesses.IgnoredRotationIsReached | payment_router/src/timelock.rs:133-200 | A run from a new contract to a batch whose upgrade rides on the replaced group. |
| BatchWitnesses.RefusalIsReached | payment_router/src/timelock.rs:157-176 | A run from a new contract to a batch that is refused while one-by-one execution goes through. |
| Governance.RunIsCounted | payment_router/src/access.rs:348-436 | Over every run of direct and timelocked calls, single or in batches, the stored approvals are exactly those standing in the history, the group stays valid, and code is installed by the listed installations and nothing else. |
| Governance.AdministeredOnWord | payment_router/src/lib.rs:4015-4279 | Members approve and revoke for themselves only, and the admin configures and cancels. |
| Governance.QuorumsInEveryRun | payment_router/src/access.rs:348-436 | In every state reachable that way, an upgrade or a rotation goes through exactly with a quorum of distinct members in force that stand by it in the history. |
| Governance.CallInstalls | payment_router/src/timelock.rs:86-200 | The installations that each accepted call adds, and which of them have a quorum of their own: direct and single timelocked upgrades always, those in a batch exactly if the group in force at their place has a quorum that no earlier upgrade of the batch used. |
| Governance.InstallationsAreBackedExactly | payment_router/src/lib.rs:4241-4247 | Over every run, each installation has a quorum of its own exactly if every accepted batch keeps to that. |
| Timelock.RunIsOrderly | payment_router/src/lib.rs:869-1071 | Over every run no queued action takes effect before 24 hours, more than once, or after its cancellation. |
| TimelockEffects.ExecutesExactly | payment_router/src/timelock.rs:86-118 | An entry is executed exactly if the contract is open, the admin signs, the entry is a day old, and its action is permitted. |
| TimelockEffects.ExecutionWrites | payment_router/src/timelock.rs:15-83 | After an execution each setting, the admin seat, the switch, the group and the newest code hold the queued argument where the action names them, and otherwise what they held; only its own entry leaves the queue. |
| TimelockEffects.BatchWrites | payment_router/src/timelock.rs:133-200 | After an accepted batch each of them holds what the last action in the list that names it says, or else what it held. |
| TimelockEffects.QueuesAndCancelsExactly | payment_router/src/lib.rs:869-908 | Who may queue and cancel, and what that leaves in the queue. |
| TimelockEffects.ExecutionErrorsAreTrue | payment_router/src/timelock.rs:86-118 | Every error of an execution tells the truth. |
| Timelock.Router.ApplyChange | payment_router/src/timelock.rs:15-83 | Writes the change an action describes, or nothing. |
| Timelock.Router.Execute | payment_router/src/timelock.rs:86-118 | One entry under the current admin after its delay. |
| Timelock.Router.CollectReady | payment_router/src/timelock.rs:157-176 | Phase one of a batch: every entry must be present and ready. |
| Timelock.Router.ExecuteBatchActions | payment_router/src/timelock.rs:133-200 | Both phases of a batch, atomically. |
| Timelock.Router.Queue | payment_router/src/lib.rs:869-908 | Queues an action under a fresh nonce. |
| Timelock.Router.Cancel | payment_router/src/lib.rs:1055-1071 | Removes a queued action. |
| Merkle.ProofsAreComplete | scripts/generate_merkle.js:52-71 | Every leaf, duplicates and odd levels included, gets a proof that folds to the root; beyond a single leaf nothing else gets one. |
| Merkle.ProofsAreSound | scripts/generate_merkle.js:25-50 | A proof of tree depth that reaches the root starts from a real leaf, or `FindCollision` finds two different inputs with the same hash, one among those hashed in building this tree and one among those in folding this proof; so if the hash is injective between these two lists, from a real leaf. |
| Merkle.FoldReachingLevelsStartsInside | scripts/generate_merkle.js:36-49 | The same for every level of the tree: a fold that reaches the root from outside a level meets a colliding pair on its way up. |
| Merkle.TreeForgetsOrder | scripts/generate_merkle.js:25-27 | Permuting the leaves changes no level of the tree. |
| Merkle.DepthIsLogarithmic | scripts/generate_merkle.js:36-49 | The tree is as deep as a binary tree over the leaves has to be, and no deeper. |
| Merkle.PairsAreOrdered | scripts/generate_merkle.js:43-44 | A node is hashed from its two children with the one that comes first in byte order in front. |
| Merkle.LeafPayload | scripts/generate_merkle.js:15-23 | A leaf is hashed from the address with the amount behind it. |
| Merkle.ProofFoldsToRoot | scripts/generate_merkle.js:52-71 | From any node of a level the value search succeeds at every level above, though equal nodes may be found at another place. |
| Merkle.BuildTree | scripts/generate_merkle.js:25-50 | The level loop builds the tree over the sorted leaves. |
| Merkle.GetProof | scripts/generate_merkle.js:52-71 | The search loop finds the specified proof, or fails where a level lacks the value. |
| Merkle.GenerateMerkleData | scripts/generate_merkle.js:73-90 | Fails exactly for no users; otherwise each user, in input order, gets a proof that folds from its leaf to the root. |
| Keyset.ParsePagination | stellar-payment-platform/src/pagination.js:5-10 | Page and limit are in range, and only the first page skips nothing. |
| Keyset.ParsesExactly | stellar-payment-platform/src/pagination.js:5-10 | Which page, limit and offset each query gives. |
| Keyset.ListingIsByTime | stellar-payment-platform/src/pagination.js:92-134 | A descending listing goes from the newest row to the oldest, with ties in byte order; an ascending one the other way. |
| Keyset.WhereIsPastCursor | stellar-payment-platform/src/pagination.js:92-134 | The filters select exactly the rows after the cursor in the listing order of their direction. |
| Keyset.SeekIsDrop | stellar-payment-platform/src/pagination.js:92-134 | Seeking past the last row of a page leaves exactly the rest of the sorted list. |
| Keyset.FixedTableWalk | stellar-payment-platform/src/pagination.js:79-148 | On a fixed table the walk ends, its pages together are the sorted table, there are as few as it takes, and page k is the offset page k. |
| Keyset.ChangingTableWalk | stellar-payment-platform/src/pagination.js:79-148 | With rows coming and going between fetches, no row is returned twice, and a completed walk returns every row that was there at each of its fetches. |
| Keyset.PageFacts | stellar-payment-platform/src/pagination.js:141-148 | A page is ordered, past the cursor, and every row it leaves out comes after its next cursor. |
| FraudScorer.BoundedBurstIsExact | stellar-payment-platform/src/fraudDetection.js:29-58 | With a clock that never goes back and no more live senders in any minute than the map holds, each payment's burst count is that of the sender's whole history. |
| FraudScorer.BoundedBurstNeverTooHigh | stellar-payment-platform/src/fraudDetection.js:45-58 | Beyond capacity a burst can be missed but not invented. |
| FraudScorer.MapIsBounded | stellar-payment-platform/src/fraudDetection.js:45-58 | The sender map never exceeds its bound. |
| FraudScorer.WindowIsLastAmounts | stellar-payment-platform/src/fraudDetection.js:60-61 | The amount window is always the last `windowSize` amounts. |
| FraudScorer.ScoreInUnitInterval | stellar-payment-platform/src/fraudDetection.js:63-68 | The score lies between 0 and 1. |
| FraudScorer.ScoreGrowsWithBurst | stellar-payment-platform/src/fraudDetection.js:63-68 | A longer burst never lowers the score. |
| FraudScorer.RoundingIsHarmless | stellar-payment-platform/src/fraudDetection.js:68 | Rounding moves a score by at most half a unit of the fourth decimal, keeps it between 0 and 1, and keeps the order of scores. |
| FraudScores.MiddleIsMedian | stellar-payment-platform/src/fraudDetection.js:63-64 | The middle of the sorted window is its median by rank: at most half of the values below, at most half above, the upper of two. |
| FraudScores.MedianIsUnique | stellar-payment-platform/src/fraudDetection.js:63-64 | There is no other such value. |
| FraudScores.ScoreIs | stellar-payment-platform/src/fraudDetection.js:63-67 | The score is 0.65 for the amount, in proportion up to ten times the median and at least 1, and 0.05 for each payment of the burst from the fourth to the tenth. |
| FraudScores.ScoreAtCorners | stellar-payment-platform/src/fraudDetection.js:63-67 | Exactly 0.65 for a large amount alone, exactly 0.35 for a long burst alone, and exactly 0.05 for one more payment of it. |
| FraudScores.FlaggedExactly | stellar-payment-platform/src/fraudDetection.js:9-9 | A payment reaches the default threshold exactly with a burst of six or more and an amount close enough to the scale, the closer the shorter the burst. |
| FraudScores.HistoryFlagsExactly | stellar-payment-platform/src/fraudDetection.js:29-69 | The same for the last payment of any history under a clock that does not go back and within capacity, with the burst of the whole history and the median of the last amounts. |
| FraudScores.FullBurstIsBurst | stellar-payment-platform/src/fraudDetection.js:33-36 | That burst counts the sender's payments of the last 60 seconds, itself included. |
| FraudScores.ForgetsColdest | stellar-payment-platform/src/fraudDetection.js:38-58 | The scorer forgets nobody within its bound, and beyond it those seen longest ago, never the sender at hand. |
| FraudScores.Reads | stellar-payment-platform/src/fraudDetection.js:30-32 | A missing or negative amount counts as zero, a missing sender as unknown. |
| FraudScorer.Scorer.ScorePayment | stellar-payment-platform/src/fraudDetection.js:29-69 | One payment: updates window and map and scores by them, rounded to four decimals. What the score is, is in the rows of `FraudScores`. |
| FraudScorer.Scorer.EvictSenders | stellar-payment-platform/src/fraudDetection.js:45-58 | Expired senders go first, then the coldest while there are too many. |
| PausableToken.ReachableSupply | pausable_token/src/lib.rs:826-849 | In every reachable state balances are not negative, sum to the supply, which is what was minted less what was burned and never above the cap. |
| PausableToken.RunKeepsSupply | pausable_token/src/lib.rs:383-466 | Every run keeps that accounting and moves the supply by what it minted and burned. |
| PausableToken.StepKeepsSupply | pausable_token/src/lib.rs:955-1011 | Each operation moves the supply by exactly what it says. |
| PausableToken.BatchMintIsRepeatedMint | pausable_token/src/lib.rs:608-654 | A batch within its size limits succeeds exactly when minting item by item does, repeated recipients included, and ends in the same state. |
| TokenMoves.StepMoves | pausable_token/src/lib.rs:383-434 | An accepted operation brings every account exactly what it says: transfers, mints and burns move nothing else. |
| TokenMoves.RunMoves | pausable_token/src/lib.rs:383-434 | The same over every run. |
| TokenMoves.StepAllowance | pausable_token/src/lib.rs:402-434 | A delegated transfer or burn takes its amount from the one allowance it draws on, which must be unexpired and sufficient; no operation changes another pair's. |
| TokenMoves.DrawnWithinApproval | pausable_token/src/lib.rs:402-434 | Between two approvals a spender never moves and burns more than was approved, and until the approval expires that and the rest make it up. |
| TokenMoves.ApprovedIsDrawnOrLeft | pausable_token/src/lib.rs:910-941 | From an accepted approval to the next for the pair: what is moved and burned plus what remains is what was approved, while it has not expired, and never more is drawn. |
| TokenMoves.AcceptedExactly | pausable_token/src/lib.rs:383-434 | Who may do what: each operation is accepted exactly if it is signed for, unfrozen, unpaused, funded, and within cap and allowance. |
| TokenMoves.StepSets | pausable_token/src/lib.rs:205-345 | What the setters leave set, and that nothing else sets it. |
| TokenMoves.LossesAreSigned | pausable_token/src/lib.rs:383-434 | An account loses tokens only on its own signature or that of a spender within its allowance. |
| TokenMoves.FrozenKeepsBalance | pausable_token/src/lib.rs:738-800 | A frozen account keeps its balance over every run in which it is not thawed, and every account does while the token stays paused. |
| TokenMoves.ErrorsAreTrue | pausable_token/src/lib.rs:383-434 | Every error of a token operation tells the truth. |
| PausableToken.Token.CreditBalance | pausable_token/src/lib.rs:833-838 | The unchecked addition: every caller proves that it cannot overflow. |
| PausableToken.Token.CreditAll | pausable_token/src/lib.rs:642-648 | No credit overflows in the middle of a batch either. |
| PausableToken.Token.MintTo | pausable_token/src/lib.rs:588-606 | Mints under the cap and keeps the accounting, or changes nothing. |
| PausableToken.Token.MintBatch | pausable_token/src/lib.rs:608-654 | Mints a batch under the cap and keeps the accounting, or changes nothing. |
| PausableToken.Token.Transfer | pausable_token/src/lib.rs:383-400 | Moves tokens and keeps the accounting, or changes nothing. |
| PausableToken.Token.TransferFrom | pausable_token/src/lib.rs:402-434 | Moves tokens on an allowance and keeps the accounting, or changes nothing. |
| PausableToken.Token.BurnOwn | pausable_token/src/lib.rs:955-972 | Burns and keeps the accounting, or changes nothing. |
| PausableToken.Token.BurnOnAllowance | pausable_token/src/lib.rs:974-1011 | Burns on an allowance and keeps the accounting, or changes nothing. |
| PausableToken.Token.SetSupplyCap | pausable_token/src/lib.rs:450-466 | The cap never falls below the supply. |
| Strkey.DecodeSymbols | pausable_token/src/lib.rs:697-722 | The accumulator loop fails exactly outside the alphabet, always yields 35 bytes, never overflows its buffer, and is inverted by base32 encoding (section 6 of RFC 4648). |
| Strkey.AccountPublicKey | pausable_token/src/lib.rs:687-729 | Finds a key exactly for account strkeys, whatever their checksum, and it is the key the strkey was made from. |
| Strkey.AccountStrkeyIs | pausable_token/src/lib.rs:687-729 | An account strkey encodes the version byte 48, the key, and two more bytes. |
| Strkey.SymbolsAreTheAlphabet | pausable_token/src/lib.rs:697-722 | Symbols and values are those of the alphabet of RFC 4648. |
| Strkey.EncodeInjective | pausable_token/src/lib.rs:697-722 | Different byte strings of the same length have different encodings. |
| Strkey.EncodeKeepsValue | pausable_token/src/lib.rs:697-722 | Encoding writes in base 32 the number the bytes write in base 256. |
| FlashLoan.FeeDefinedExactly | flash_loan/src/lib.rs:121-157 | A loan is priced exactly when it is positive, covered, and small enough for the utilization not to overflow. |
| FlashLoan.FeeBounds | flash_loan/src/lib.rs:121-175 | The fee is between 6 and 50 basis points rounded up, and never below the quoted base fee. |
| FlashLoan.FeeGrowsWithAmount | flash_loan/src/lib.rs:121-157 | Borrowing more never costs less. |
| FlashLoan.FeeFallsWithReserves | flash_loan/src/lib.rs:121-157 | Deeper reserves never make the same loan dearer. |
| FlashLoan.FeeIs | flash_loan/src/lib.rs:121-175 | A loan costs its share at five basis points plus up to five more below a utilization of 80%, and at ten plus up to forty more above, every share rounded up. |
| FlashLoan.FlashFeeIs | flash_loan/src/lib.rs:52-54 | The fee that older clients quote is five basis points rounded up. |
| FlashLoan.LentExactly | flash_loan/src/lib.rs:56-119 | When a loan is made: lock free, signed for, priced, and its callback leaves the fee on top of the reserves. |
| FlashLoan.BorrowerGetsAmount | flash_loan/src/lib.rs:56-119 | The callback runs with the amount at the borrower. |
| FlashLoan.ErrorsAreTrue | flash_loan/src/lib.rs:56-175 | Every error of a loan tells the truth. |
| FlashLoan.LockedCallback | flash_loan/src/lib.rs:56-119 | While the lock is set no callback gets a loan, lowers the reserves or releases the lock. |
| FlashLoan.CompletedLoan | flash_loan/src/lib.rs:56-119 | A completed loan earned its fee, cost nothing in any token, and released the lock. |
| FlashLoan.RunEarnsFees | flash_loan/src/lib.rs:56-119 | Over every run the provider ends with at least its reserves plus the fees of completed loans, in every token. |
| FlashLoan.Provider.FlashLoan | flash_loan/src/lib.rs:56-119 | Lock, lend, call back, insist on repayment; a failure undoes everything. |
| PaymentProxy.BudgetConserved | payment_proxy/src/lib.rs:846-891 | Between two grants, charged plus remaining is the start, and no key is overdrawn. |
| PaymentProxy.GrantBoundsSpending | payment_proxy/src/lib.rs:356-380 | A grant is charged at most its limit until the next one. |
| PaymentProxy.LowersAllowanceExactlyIfCounted | payment_proxy/src/lib.rs:846-891 | An accepted forwarded payment of a session key lowers its allowance by what passes exactly if its route is one of the seven counted ones; otherwise the allowance stays. |
| PaymentProxy.UncountedIgnoresAllowances | payment_proxy/src/lib.rs:846-891 | Whether a payment on an uncounted route passes does not depend on any allowance. |
| PaymentProxy.PassedIsChargedOrUncounted | payment_proxy/src/lib.rs:408-424 | Over every run, what passes for a key is what is charged to it plus what takes uncounted routes. |
| PaymentProxy.GrantBoundsPassedExactly | payment_proxy/src/lib.rs:846-921 | A grant bounds what passes until the next one exactly if the uncounted routes take no more than it has left. |
| PaymentProxy.GrantBoundsRoutesExactly | payment_proxy/src/lib.rs:846-891 | Over every run on a set of routes, a grant bounds what passes exactly if each of the routes is counted. |
| PaymentProxy.SpentKeyStillPasses | payment_proxy/src/lib.rs:408-424 | From a new proxy: a grant, a payment that spends it, and a path payment of any amount that goes through uncharged. |
| PaymentProxy.AcceptedExactlyIfAffordable | payment_proxy/src/lib.rs:846-921 | A call with several charges is accepted exactly when each session key can afford the sum of its own. |
| PaymentProxy.NoncesCountUp | payment_proxy/src/lib.rs:782-826 | Each account's accepted nonces count up by one over every run, batches included. |
| PaymentProxy.GrantsExactly | payment_proxy/src/lib.rs:356-380 | A grant needs the key's signature, a positive limit and an expiry in the future, and stores exactly these. |
| PaymentProxy.IntentAcceptedExactly | payment_proxy/src/lib.rs:540-568 | An intent is accepted exactly in time, at its nonce and with a valid signature, and moves that nonce only. |
| PaymentProxy.ForwardedExactly | payment_proxy/src/lib.rs:408-424 | A call is forwarded exactly if its arguments decode, every session key affords its charges, and the logic contract does not trap. |
| PaymentProxy.ErrorsAreTrue | payment_proxy/src/lib.rs:540-568 | Every error of the proxy tells the truth. |
| PaymentProxy.BatchIsFoldOfAccepted | payment_proxy/src/lib.rs:716-759 | A batch that completes reports once per call and does exactly what its accepted calls alone would do. |
| PaymentProxy.DeployedBatchExactly | payment_proxy/src/lib.rs:736-816 | As deployed, a batch completes exactly if every call whose signature is looked at has a valid one, and then it does and reports what the tolerant batch does. |
| PaymentProxy.Proxy.AuthorizeSessionKey | payment_proxy/src/lib.rs:356-380 | Grants or replaces a session allowance. |
| PaymentProxy.Proxy.ChargeIfSession | payment_proxy/src/lib.rs:907-921 | Charges a sender that has a session; others pass. |
| PaymentProxy.Proxy.ChargeSessionAllowance | payment_proxy/src/lib.rs:846-891 | Charges every item of a call or none. |
| PaymentProxy.Proxy.ForwardCall | payment_proxy/src/lib.rs:408-424 | Charges, then forwards; a trap in the logic contract undoes the charges. |
| PaymentProxy.Proxy.ExecutePaymentIntent | payment_proxy/src/lib.rs:540-568 | Accepts a signed intent at the current nonce and uses the nonce up. |
| PaymentProxy.Proxy.ExecuteBatchTolerant | payment_proxy/src/lib.rs:736-759 | One result per call, and a failed call changes nothing; as deployed, an invalid signature undoes the whole batch. |

## Left out

- PaymentRouter.RouterStaysSolvent: does not extend to raw swaps on an unbacked report, because the code pays the reported unused input unverified (payment_router/src/lib.rs:2904-2924).
- `recover_tokens` and `emergency_withdraw` move router tokens on the word of the TreasuryManager, outside the refund ledger; they are not steps of the solvency theorems.
- `claim_all_refunds` forwarded by the proxy counts as a call of no payment route; its amount is the caller's own refund.
- `prune_archived_entries` only deletes stored entries.
- Quote settlement (`route_payment_with_quote`) moves tokens between maker, sender and recipient without touching the router's holdings.
- The reentrancy guard: within a call other contracts cannot change the router's storage, because the host refuses re-entry; the guard never refuses anything in the model.
- Entry lifetimes, events, logs and the heartbeat bumped by payments feed back into nothing modelled here; the heartbeat matters to `Roles.Registry.Claim` only as a stored time.
- Tokens are taken to move exactly the transferred amount or nothing; clawback by an issuer is not modelled.
- The rate limiter's counters and the identity oracle's internals are Boolean answers; an oracle that traps counts as one that does not confirm.
- PaymentRouter.Router.ProcessSinglePaymentNoAuth: the allowance is an answer of the token and is not counted down across payments; the token does that.
- PaymentRouter.Router.SwapEachShare: requires a non-negative input amount, which the amount check before it has established.
- Fee proposals, governance voting, yield deposits, price oracles and the circuit breaker's own switches; the pause level is part of the settings.
- PausableToken.ReachableSupply: permits (Ed25519) and allowance packing are not modelled, only their effect on allowances; `approve` and the administrative setters are modelled on values, not as methods of the class.
- Roles.HoldersMoveAsTabled: `grant_role`, `assign_role` and `set_admin` are modelled on values, not as methods of the class.
- Strkey.AccountPublicKey: the checksum of a strkey is not verified by the code and not by the model; CRC-16 is not part of this model.
- Merkle.ProofsAreSound: SHA-256 is an arbitrary function with 32-byte results, so that collisions are hard to find is not part of this model; the leaf's XDR encoding is arbitrary bytes.
- Keyset.FixedTableWalk: cursors are key pairs; their base64url and JSON text, date parsing, and the collation of the database are not modelled (one strict total order stands for it). The exporters' own loops over these pages are left out.
- FraudScorer.Scorer.ScorePayment: real arithmetic in place of doubles, so a score within a double's error of a tie may round the other way; amounts are numbers, not NaN or infinity; the reason text is left out.
- FlashLoan.Provider.FlashLoan: the callback is a script of ledger changes and nested loans; it cannot touch the provider's storage otherwise.
- PaymentProxy.Proxy.ExecutePaymentIntent: typed-data hashing and the signature are one Boolean answer; `execute_meta_payment`, the upgrade of the logic contract and the admin transfer are left out.
- The older copy of the router in payment_router/lib_head.rs, payment_router/src/axelar.rs, the escrow, oracle and zero-knowledge contracts, and the Node server, queues, dashboard and deployment scripts are not part of this model.
