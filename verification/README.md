# Verified model of the shop's money, session and configuration logic

This project models the parts of the VPN shop whose correctness is a matter of state and of
interleaving, and proves what they keep.

**Settlement.** Payments, receipts, orders, wallets and referral rewards share rows. A transaction
is a list of statements (`SettlementSteps`): reads, conditional updates that claim a row, effects,
commit or rollback. Any number of them run interleaved, beside the single-statement updates of the
other entry points (`SettlementMachine`). A transaction sees the committed rows under its own
writes; a row it has written is locked until it ends, and a statement that would write a row locked
by another transaction waits and then looks at the row again, as PostgreSQL does at its default
isolation level. `SettlementInvariant` and `SettlementPreservation` hold the invariant and its
proof, `SettlementTheorems`, `SettlementCap`, `SettlementCapRuns` and `SettlementRace` what follows
for every run.
`SettlementService` is the code as it is written, in place over tables. `SettlementAlone` proves that
each entry point is one transaction of the machine; `SettlementPromises` says when each entry point
succeeds and what it leaves, without saying how it computes that, and `SettlementOutcomes` proves
that it does. An order is settled at most once because of the
claim on the order and the key of the ledger, not because a confirmed payment stays confirmed: a
payment whose receipt is approved between the two writes of `submitReceipt` is reopened by the
second.

**Vouchers**, **signup referrals** (`Signup*`) and **sessions** are machines of the same kind: a stale
pre-flight and a row lock; claim, read and write of the trials in separate statements, retry, crash
and resume; rotation with reuse detection after section 10.4 of RFC 6749.

**The panel mirror** compares the local table and the reported counts with the remote list.

**Text and arithmetic**: the CSV printer against a reader after section 2 of RFC 4180, the check
digit of ISO/IEC 7812-1 (Annex B), minor units and discounts, slugs, firewall rules deleted by
number, and the two configuration files and the tunnel file the installer edits. `TunnelConfig` is
the merge itself, `TunnelSections` what it leaves alone, `TunnelMerge`, `TunnelRules` and
`TunnelTwice` what a second merge does, `TunnelRoutes` what is read back, and `LineForms` the texts
that the patterns for lines stand for.

Each class follows the service that updates its rows in place; a method is proved against a
specification function or against a step of the machine, and the theorems are about those.
`dafny verify dfyconfig.toml` checks everything.

## Where the code does less than it seems to promise

- `cancel` reads and then writes without a guard: a late write turns a completed order into a
  cancelled one. The settlement counts still hold; `IntactIffClean` says exactly when the order
  also stays completed, and `AtomicIsClean` that it does under cancellations that write right after
  they read.
- The reward cap is read and credited in separate statements: it holds for transactions run one
  after the other and can be exceeded by two at once. `CommitKeepsCapIff` gives the exact condition.
- A trial without a limit is limited by a referral reward, to that reward, and of two rewards granted
  at the same time to an unlimited trial one is lost; `NoGrantIsLostIff` says exactly when.
- The commission of an order completes the pending signup referral of its user, whichever kind it
  is; that referral is then marked rewarded without a grant.
- A second receipt for the same payment is impossible, because `paymentId` is unique in the
  receipts table; so a payment is moved back by its first receipt only, as in the race above.
- `priceMinor` has no upper guard, so a discount above 100 percent gives a negative price where
  `applyDiscount` gives zero.
- A panel list that repeats an id is counted once for every eligible entry, while the table keeps the
  last entry only; `EligibleCountIff` gives the difference, `DuplicatesAreCountedTwice` an input.
- A deposit amount without a point, or without two digits behind it, is not read as its minor units.
- A `pg_hba.conf` rule that is in the file already is not moved, so it may stand behind a broader
  one; a `postgresql.conf` setting likewise, in front of one that overrides it. `postgresql.conf`
  without a setting needs two passes to settle.
- In the tunnel file only the first marked block is taken out. A second one above the last catch-all
  rule is taken out by the next merge in place of the new one, and an unclosed start marker there
  takes the rules behind it with it.
- Renaming a plan does not search for a free slug.

## Model

| member | source | states |
|---|---|---|
| SettlementTheorems.OrderSettledAtMostOnce | src/modules/orders/orders.service.ts:114-201 | In every reachable state an order is provisioned at most once, exactly once when it is completed and never while it is pending; `settled` is reported exactly as often; commissions and wallet purchases for it never outnumber its provisions |
| SettlementTheorems.HistoryGrows | src/modules/payments/payments.service.ts:487-590 | Ledger rows, provisions and reports are only ever appended, so the counts above hold over the whole run |
| SettlementTheorems.BalanceIsSumOfLedger | src/modules/wallet/wallet.service.ts:101-191 | Every wallet balance is the signed sum of its ledger rows, in every reachable state |
| SettlementTheorems.PaymentKeyIsUnique | src/modules/wallet/wallet.service.ts:124-129 | No two ledger rows carry the same payment |
| SettlementTheorems.TopUpCreditedOnce | src/modules/payments/payments.service.ts:550-567 | A top-up is credited at most once, to its own user and with its own amount, exactly once when it is confirmed and exactly when a report names it, however often its payment is reopened and approved |
| SettlementTheorems.ReportsNamePayments | src/modules/payments/payments.service.ts:575-590 | Every report names an existing payment together with the order of that payment |
| SettlementTheorems.WalletPurchaseIffCompleted | src/modules/payments/payments.service.ts:434-471 | A payment of an order takes money only from the wallet of the order's owner, exactly the order's total and at most once, leaves no negative balance, and does so if and only if a wallet transaction completed the order |
| SettlementTheorems.WalletCommitCompletes | src/modules/payments/payments.service.ts:439-471 | A wallet payment that commits finds its order pending and unprovisioned and leaves it completed, provisioned once and debited once |
| SettlementTheorems.ConfirmedPaymentHasEffect | src/modules/payments/payments.service.ts:496-568 | A confirmed payment of an order has that order provisioned exactly once, and completed if no cancellation overwrote it; a confirmed top-up has its one ledger row: no partial confirmation survives |
| SettlementTheorems.IntactStep | src/modules/orders/orders.service.ts:274-285 | One action keeps every provisioned order completed if and only if it is not a cancellation writing an order that was completed after it was read |
| SettlementTheorems.IntactIffClean | src/modules/orders/orders.service.ts:274-285 | A run keeps every provisioned order completed throughout if and only if it contains no such cancellation |
| SettlementTheorems.AtomicIsClean | src/modules/orders/orders.service.ts:274-285 | A run whose cancellations write right after they read contains no such cancellation |
| SettlementTheorems.ConfirmedMeansCompleted | src/modules/payments/payments.service.ts:496-548 | With atomic cancellations every confirmed payment that names an order has that order completed and provisioned once, in every reachable state |
| SettlementRuns.StaleCancelOverwrites | src/modules/orders/orders.service.ts:274-285 | A run in which a cancellation that read too early leaves a confirmed payment and a provisioned order that is cancelled |
| SettlementPreservation.ApplyKeeps | src/modules/payments/payments.service.ts:487-568 | Every action of the machine keeps the settlement invariant of the tables and of every transaction in flight |
| SettlementCap.CommitKeepsCapIff | src/modules/orders/orders.service.ts:228-247 | Over all interleavings: after a commission is committed its referrer is within the cap it was computed under if and only if the other rewards committed since the earned total was read fit into what the cap had left |
| SettlementCap.SinceIsCommittedSince | src/modules/orders/orders.service.ts:229-236 | The earned total a commission was computed from is that of an earlier ledger, and what counts as earned since is the rest of the ledger, in every reachable state |
| SettlementCapRuns.CapKeptIff | src/modules/orders/orders.service.ts:228-247 | A run keeps every reward within the cap it was computed under, at its place in the ledger, if and only if no commit of the run overshoots |
| SettlementCapRuns.RewardsUnderFixedCapIff | src/modules/orders/orders.service.ts:228-247 | Under a positive cap that no setting changes, no referrer ever exceeds it, if and only if no commit of the run overshoots |
| SettlementCapRuns.ApartNeverOvershoots | src/modules/orders/orders.service.ts:228-247 | No commit overshoots where no two live transactions have read the rewards of the same referrer; those of different referrers overlap freely |
| SettlementCapRuns.RewardsStayUnderCap | src/modules/orders/orders.service.ts:228-247 | Over transactions run one after the other, no step raises the rewards of a referrer above the positive cap in force at that step, however the settings changed between |
| SettlementCapRuns.RewardsStayUnderFixedCap | src/modules/orders/orders.service.ts:228-247 | So with a positive cap that stays, the rewards never exceed it, or what they were at the start |
| SettlementRace.RacingCommissionsExceedCap | src/modules/orders/orders.service.ts:229-247 | A run of two interleaved confirmations in which both read the earned total before either credits, and the rewards exceed the cap |
| SettlementCapRuns.CommissionIsShareOfOrder | src/modules/orders/orders.service.ts:223-247 | Every reward in the ledger belongs to an order and is positive and at most the floor of its percentage of the order total |
| SettlementRuns.RequestIsARun | src/modules/payments/payments.service.ts:426-471 | Each entry point, with the tables to itself, is a run of the interleaved machine |
| SettlementOutcomes.ConfirmOutcome | src/modules/payments/payments.service.ts:426-568 | A confirmation succeeds if and only if the payment is initiated, pending, awaiting verification or confirmed, and its order, if it has one, is completed, or pending with a subscription returned. Then the payment is confirmed; a pending order is completed with that subscription, provisioned once more, rewarded and reported; a top-up adds exactly its amount to its user's balance and is reported, unless the payment has moved money before; and nothing else changes |
| SettlementOutcomes.ApproveOutcome | src/modules/payments/payments.service.ts:290-331 | An approval succeeds if and only if the receipt is pending or approved and the payment can be confirmed; it leaves the receipt approved and otherwise what the confirmation leaves |
| SettlementOutcomes.RejectOutcome | src/modules/payments/payments.service.ts:290-331 | A rejection succeeds if and only if the receipt was rejected, when nothing changes, or is pending and its payment is initiated, pending or awaiting verification, when exactly these two become rejected |
| SettlementOutcomes.WalletOutcome | src/modules/payments/payments.service.ts:434-473 | A wallet payment succeeds if and only if the order exists, is the caller's and pending, gets a subscription, and its total does not exceed the balance (or the key was charged before); it takes exactly the total with one purchase row under the new payment and completes, rewards and reports the order |
| SettlementRuns.WalletPaysIffCovered | src/modules/payments/payments.service.ts:434-473 | In every reachable state a new payment's key is unused, so the wallet pays if and only if the total does not exceed the balance, besides owner, status and subscription; the balance falls by the total, but for a commission the owner earns as their own referrer |
| SettlementOutcomes.MutateOutcome | src/modules/wallet/wallet.service.ts:101-191 | A wallet change is refused if and only if it is a debit with a new key that exceeds the balance; otherwise it moves the balance by exactly the amount with one row, or nothing if the key was used |
| SettlementOutcomes.OrderOutcome | src/modules/orders/orders.service.ts:114-201 | Completing succeeds if and only if the order is completed, or pending with a subscription returned, and then leaves the completed order, one more provision and the commission |
| SettlementOutcomes.RewardOutcome | src/modules/orders/orders.service.ts:203-263 | What is credited is the greatest amount within the percentage of the total and within what the cap leaves, with one row for it; where not even one unit may be earned, and without a referrer, total or valid percentage, nothing changes |
| SettlementOutcomes.CommissionIsGreatest | src/modules/orders/orders.service.ts:228-238 | The commission computed is within both bounds, and one unit more is not |
| SettlementOutcomes.GreatestIsUnique | src/modules/orders/orders.service.ts:228-238 | There is only one such amount, and it is positive exactly if one unit may be earned |
| SettlementAlone.LateClaimRereads | src/modules/payments/payments.service.ts:496-531 | A transaction whose claim finds the payment changed since it was read, by a confirmation that committed meanwhile or otherwise, ends as one that reads it only then |
| SettlementAlone.LateOrderClaimRereads | src/modules/orders/orders.service.ts:136-163 | So does one whose claim finds the order changed since it was read |
| SettlementRuns.AdjustOutcome | src/modules/wallet/wallet.service.ts:101-191 | A bonus or refund moves the balance by its amount with one row without a payment, unless it is a debit the balance does not cover |
| SettlementAlone.AloneHandles | src/modules/payments/payments.service.ts:283-568 | The statement-by-statement transaction of a request, run alone, ends exactly as the code of the entry point does, for every request and every table |
| SettlementService.PaymentsService.MutateBalance | src/modules/wallet/wallet.service.ts:101-191 | Refuses exactly a debit with a new key that exceeds the balance; otherwise moves the balance by the amount with one keyed row, or nothing for a key already used |
| SettlementService.PaymentsService.CreditReferralCommission | src/modules/orders/orders.service.ts:203-263 | Credits the greatest commission that percentage and cap allow, with its ledger row, or changes nothing where none is allowed |
| SettlementService.PaymentsService.CompleteOrder | src/modules/orders/orders.service.ts:114-201 | Completes a pending order with its subscription, provisions it and credits the commission; reports nothing to do for a completed one; throws for any other, and when provisioning throws |
| SettlementService.PaymentsService.SettlePayment | src/modules/payments/payments.service.ts:487-568 | Throws exactly for a payment that is none of initiated, pending, awaiting verification and confirmed, or whose order cannot be completed; otherwise leaves it confirmed with its order completed or its amount credited, and reports whether it moved something |
| SettlementRuns.SettledAgain | src/modules/payments/payments.service.ts:487-568 | In every reachable state, settling a confirmed payment again changes no row and no balance and reports nothing to do, or throws, exactly when a cancellation has overwritten its completed order; without such a cancellation it never throws |
| SettlementService.PaymentsService.ConfirmPayment | src/modules/payments/payments.service.ts:426-431 | Succeeds and leaves the rows as `ConfirmOutcome` says, ends as the machine's confirmation run alone ends, and restores every row when it throws |
| SettlementService.PaymentsService.VerifyReceipt | src/modules/payments/payments.service.ts:284-340 | Approves or rejects as `ApproveOutcome` and `RejectOutcome` say, ends as the machine's transaction run alone ends, and restores every row when it throws |
| SettlementService.PaymentsService.PayOrderWithWallet | src/modules/payments/payments.service.ts:434-473 | Pays exactly if the wallet covers the caller's pending order, to the last unit, and leaves the rows as `WalletOutcome` says; ends as the machine's wallet payment run alone ends, and restores every row when it throws |
| SettlementService.PaymentsService.Initiate | src/modules/payments/payments.service.ts:122-175 | Refuses an order that is not the caller's or not pending; otherwise inserts a pending payment whose amount, parsed from the printed total, is the total without its sign: the initiation step of the machine |
| SettlementService.PaymentsService.InitiateWalletDeposit | src/modules/payments/payments.service.ts:103-119 | Inserts a pending top-up of the amount the digits spell: the deposit step of the machine |
| SettlementService.PaymentsService.CreateOrder | src/modules/orders/orders.service.ts:88-111 | Inserts a pending order over the discounted total: the order step of the machine |
| SettlementService.PaymentsService.SubmitReceipt | src/modules/payments/payments.service.ts:236-272 | Refuses a second receipt and foreign or other payments; otherwise is the two upload steps of the machine with nothing between |
| SettlementService.PaymentsService.HandleOnlineCallback | src/modules/payments/payments.service.ts:379-423 | On a refusal closes a payment that is initiated, pending or awaiting verification and no other; when verified confirms it as `ConfirmOutcome` says; otherwise changes nothing |
| SettlementService.PaymentsService.Cancel | src/modules/orders/orders.service.ts:274-285 | Refuses a completed or foreign order; otherwise is the two cancellation steps of the machine with nothing between |
| Vouchers.RedemptionsAreCounted | src/modules/payments/vouchers.service.ts:222-329 | Under stale pre-flight reads: the redemption count of a voucher is its number of redemption rows, these have distinct users, and the k-th was written while k was below the limit then in force and the voucher had not expired |
| Vouchers.InactiveForever | src/modules/payments/vouchers.service.ts:252-264 | From an inactive voucher on, no run redeems it again, whatever its limit is raised to and whichever calls had passed the pre-flight |
| Vouchers.LastRedemption | src/modules/payments/vouchers.service.ts:312-326 | The redemption that reaches the limit is the last one |
| Vouchers.RedeemIsARun | src/modules/payments/vouchers.service.ts:216-329 | One call alone is the run pre-flight, lock, commit |
| Vouchers.RedeemOutcome | src/modules/payments/vouchers.service.ts:216-329 | The same of the specification: when one call alone redeems, and the rows it leaves |
| Vouchers.LateRedeemOutcome | src/modules/payments/vouchers.service.ts:250-326 | A call that passed the pre-flight, however long ago, redeems if and only if the voucher is active, unexpired, below its limit and unused by its user when it takes the lock, whatever became of the plan |
| Vouchers.FirstComersRedeem | src/modules/payments/vouchers.service.ts:216-329 | Of different users who come for a new voucher exactly as many redeem it as its limit says, the first ones, and it stays active while fewer came |
| Vouchers.VouchersService.Redeem | src/modules/payments/vouchers.service.ts:216-329 | Succeeds if and only if the voucher exists, is active, not past its expiry, used less often than its limit, bound to an enabled plan and not used by this user; then appends one row of that voucher and user, counts it, leaves the voucher active exactly while below its limit, and changes nothing else; otherwise changes nothing |
| Vouchers.VouchersService.SetLimit | src/modules/payments/vouchers.service.ts:440-451 | Changes the limit and leaves the voucher as inactive as it was |
| Vouchers.VouchersService.Disable | src/modules/payments/vouchers.service.ts:419-425 | Makes the voucher inactive and changes nothing else |
| SignupTheorems.RewardedOnce | src/modules/affiliate/affiliate.service.ts:67-185 | Across calls, conflict retries and crashes a referral grants each of its two users at most once and nobody else; once it is no longer pending it has granted both exactly once if and only if no order commission completed it first, and has raised both quotas if and only if, besides, neither trial was read as unlimited; it is REWARDED only after both provisioning calls succeeded |
| SignupTheorems.QuotaIsOpeningPlusGrantsIff | src/modules/affiliate/affiliate.service.ts:106-152 | In every reachable state a user's quota is what the trial was opened with plus the bytes granted, unlimited staying unlimited, if and only if no grant to that user read the trial as unlimited |
| SignupTheorems.NoGrantIsLostIff | src/modules/affiliate/affiliate.service.ts:106-118 | A trial opened without a limit stays so until a grant; its quota is then positive and at most the bytes granted, and equal to them if and only if only one grant read it as unlimited |
| SignupService.RewardLimitsUnlimited | src/modules/affiliate/affiliate.service.ts:115-118 | A run in which the reward turns an unlimited trial into one limited to the reward |
| SignupService.BlindGrantIsLost | src/modules/affiliate/affiliate.service.ts:106-118 | A run in which two referrals of one referrer both read the trial as unlimited and one of the two rewards is lost |
| SignupService.GrantIsARun | src/modules/affiliate/affiliate.service.ts:94-154 | With nothing between its statements a call of the machine claims the referral and grants both users what the transaction as written does |
| SignupService.SignupIsRewarded | src/modules/affiliate/affiliate.service.ts:67-185 | From any state without calls a new referral with a positive reward has a run that raises both quotas by the reward, provisions both users and marks it REWARDED |
| SignupService.ReadRefusesIff | src/modules/affiliate/affiliate.service.ts:75-83 | A call gives up if and only if the referral is rewarded or cancelled or its rewards are not positive and equal |
| SignupService.RewardedWithoutGrant | src/modules/orders/orders.service.ts:264-271 | A run in which an order commission completes a signup referral first, and it is marked REWARDED although nothing was granted |
| SignupService.AffiliateService.ClaimAndGrant | src/modules/affiliate/affiliate.service.ts:94-154 | Claims a pending referral and in one transaction raises each set quota of its two users by the reward, and sets an unset or missing one to it; other trials stay; or finds it claimed and changes nothing |
| Sessions.RotationIsLinear | src/modules/auth/auth.service.ts:138-180 | Each refresh token yields at most one new session, and of all sessions descending from one login at most one is live |
| Sessions.RevokedForever | src/modules/auth/auth.service.ts:165-169 | A revoked session stays revoked and its token never yields another session |
| Sessions.ReuseEndsEverySession | src/modules/auth/auth.service.ts:149-160 | Presenting a genuine unexpired token whose session is spent leaves its user without a live session, and no token issued to that user before ever refreshes again |
| Sessions.RefreshYieldsIff | src/modules/auth/auth.service.ts:138-180 | A refresh yields a session exactly for a genuine unexpired token with a live unexpired session of an active user; the new session is live and the old one is not |
| Sessions.SessionsAfter | src/modules/auth/auth.service.ts:130-194 | In every reachable state: what each call leaves of all sessions, those of other users included |
| Sessions.LoginTokenRefreshes | src/modules/auth/auth.service.ts:138-180 | The token of a login yields a session at a later time if and only if it and its session have not expired by then and the user is active; the session and the token it yields carry the new lifetimes |
| Sessions.AuthService.Refresh | src/modules/auth/auth.service.ts:138-180 | Updates the table as the refresh step of the machine does and keeps its invariant; a token that yields adds one session expiring at now plus its lifetime and revokes only its own; a spent one revokes exactly the sessions of its user; users and expiries of other sessions stay; a token is returned exactly with a new session |
| Sessions.AuthService.IssueSession | src/modules/auth/auth.service.ts:372-403 | Creates one session under the hash its token carries |
| Sessions.AuthService.Logout | src/modules/auth/auth.service.ts:183-194 | Afterwards the same sessions exist with the same users and expiries, and each is revoked if and only if it was before or belongs to the user |
| PanelMirror.MirrorAgrees | src/modules/panels/panel-inbounds.service.ts:98-166 | After a synchronization the remote-present rows are exactly the remote list and show its entries, with the known protocol of that name in any case or ANY, and the remark or else the tag; rows that went are inactive, every old row keeps the operator's flags and notes, new rows belong to the server and are provisionable, and other panels are untouched |
| PanelMirror.SyncIsIdempotent | src/modules/panels/panel-inbounds.service.ts:98-156 | A second synchronization with the same list changes no row, creates nothing and finds nothing newly unavailable |
| PanelMirror.CreatedOrUpdated | src/modules/panels/panel-inbounds.service.ts:148-151 | Created and updated add up to the entries discovered |
| PanelMirror.CountsAre | src/modules/panels/panel-inbounds.service.ts:138-155 | For every list: what each reported count counts, entry by entry or row by row |
| PanelMirror.EligibleCountIff | src/modules/panels/panel-inbounds.service.ts:139-155 | For every list, the reported eligible count is the number of inbounds a later query finds eligible plus the eligible entries whose id comes again later; so the two agree if and only if every eligible entry is the last of its id. A diagnosis of the active panel predicts the reported count before and after, of an inactive one none |
| PanelMirror.PanelInboundsService.PerformSync | src/modules/panels/panel-inbounds.service.ts:69-158 | The loop of upserts and the update behind it leave the synchronized rows, with the counts reported, and only the panel state for each failure |
| PanelMirror.PanelInboundsService.EligibleInbounds | src/modules/panels/panel-inbounds.service.ts:61-67 | Returns exactly the rows of an active XUI panel that are remote-present, active, provisionable, usable by the clients, not excluded and under a positive safe integer; as many as the synchronization that left them reported, if and only if every eligible entry was the last of its id |
| Csv.BuildCsv | src/modules/reports/reports.service.ts:187-199 | The loop prints the header and the rows |
| Csv.EscapesIff | src/modules/reports/reports.service.ts:187-193 | A field is printed as it is if and only if it holds no quote, comma, CR or LF, and in quotes otherwise |
| Csv.RoundTripIff | src/modules/reports/reports.service.ts:187-199 | Reading by section 2 of RFC 4180 undoes printing for exactly the tables in which every row has a field, whatever commas, quotes, CR or LF the fields hold |
| Csv.PrintIsInjective | src/modules/reports/reports.service.ts:187-199 | Two tables whose rows all have fields print differently |
| Csv.TerminatedRoundTripIff | src/modules/reports/reports.service.ts:187-199 | A reader that takes a line break at the end as the end of the last record reads back every table except those of several rows ending in one empty field |
| BankCards.IsValidCardNumber | src/modules/payments/bank-cards.service.ts:33-43 | The loop accepts exactly sixteen digits, not all zero, whose sum is a multiple of ten |
| BankCards.DetectsChange | src/modules/payments/bank-cards.service.ts:36-42 | For numbers of any length, changing one digit changes the sum modulo ten, and nothing else leaves it |
| BankCards.DetectsSwap | src/modules/payments/bank-cards.service.ts:36-42 | For numbers of any length, swapping adjacent digits goes unnoticed exactly when they are equal or are 0 and 9 |
| BankCards.CheckDigitIsUnique | src/modules/payments/bank-cards.service.ts:36-42 | For prefixes of any length exactly one check digit completes the sum |
| BankCards.CardDetectsChange | src/modules/payments/bank-cards.service.ts:33-43 | An accepted card with one digit changed is rejected |
| BankCards.CardDetectsSwap | src/modules/payments/bank-cards.service.ts:33-43 | An accepted card with two adjacent digits swapped is accepted exactly when they are equal or are 0 and 9 |
| BankCards.CardHasOneCheckDigit | src/modules/payments/bank-cards.service.ts:33-43 | Each prefix of fifteen digits is completed by exactly one digit, or by none when it is all zeros |
| BankCards.SeparatorsDoNotMatter | src/modules/payments/bank-cards.service.ts:29-35 | White space or a hyphen anywhere in the text makes no difference |
| Money.PrintedIsParsed | src/common/utils/money.util.ts:11-30 | Parsing undoes printing for every integer amount and every number of places |
| Money.ParsedIsPrintedIff | src/common/utils/money.util.ts:11-30 | Printing undoes parsing for exactly the canonical texts |
| Money.AmountOfPrinted | src/modules/payments/payments.service.ts:163 | Keeping the digits of a printed amount gives its absolute value, ten times it without decimal places |
| Money.AmountIsMinorIff | src/modules/payments/payments.service.ts:114 | For digits with a point or without: keeping the digits gives the minor units exactly when there are two digits behind a point or all digits are zero |
| Plans.DiscountsAgreeIff | src/common/utils/money.util.ts:45-51 | The two discount functions agree exactly on the discounts that do not exceed the price by a whole minor unit |
| Plans.PriceIsRoundedShare | src/modules/plans/plans.service.ts:288-293 | The price is the exact share rounded down, and rounded towards zero beyond 100 percent |
| Plans.PriceIsBoundedIff | src/modules/plans/plans.service.ts:288-293 | The price lies between zero and the list price for exactly the same discounts; the other function always stays there |
| Plans.PriceIsMonotone | src/modules/plans/plans.service.ts:288-293 | A dearer plan costs no less, and a larger discount never costs more |
| Plans.OrderAddsUp | src/modules/orders/orders.service.ts:88-105 | Unit price and discount make the list price, total and discounts make the undiscounted sum, and an order of quantity q loses less than q minor units against discounting the whole sum |
| Plans.PaymentIsOrderTotalIff | src/modules/payments/payments.service.ts:163 | The payment initiated for an order has the order's total exactly when the discount does not exceed the price or nothing is ordered |
| Slugs.SlugJoinsWords | src/modules/plans/plans.service.ts:299-305 | A slug is the words of the lower-cased name joined by single hyphens |
| Slugs.SlugHasLetters | src/modules/plans/plans.service.ts:299-305 | A slug has exactly the letters and digits of the name in order, capitals made small, and is empty only if there are none |
| Slugs.SlugifyFixedIff | src/modules/plans/plans.service.ts:299-305 | Slugs are exactly the texts slugify leaves alone, and its result always is one |
| Slugs.FreeSlug | src/modules/plans/plans.service.ts:160-170 | The search ends for every finite table, with a slug no plan has, of the least free number |
| Slugs.LeastFreeIsUnique | src/modules/plans/plans.service.ts:160-170 | Only one slug can be the result, and its number is at most the number of slugs in use |
| Slugs.PlansService.Create | src/modules/plans/plans.service.ts:157-200 | Refuses a price that is not all digits; otherwise inserts the plan under the least free numbered slug over the letters and digits of its name, or over the drawn identifier if it has none; slugs stay distinct |
| Slugs.PlansService.Rename | src/modules/plans/plans.service.ts:234-240 | A new name brings the slug of its letters and digits, if it has any, without a search, so the update is refused where another plan has it; price and other plans stay, and slugs stay distinct |
| NumberedRules.DescendingDeletesStale | cli/installer/postgres-provisioner.js:224-235 | Deleting the stale rules by number, largest first, while numbers shift, leaves exactly the other rules in order |
| NumberedRules.RerunAfterFailure | cli/installer/postgres-provisioner.js:206-245 | A run that fails at any command, followed by one that finishes, leaves what one run without the failure leaves |
| NumberedRules.SecondRunChangesNothingIff | cli/installer/postgres-provisioner.js:222-244 | After a finished run there is a current rule, and the next run changes nothing, exactly when there was one before or the added rule is listed in the recognised form |
| NumberedRules.FinishesIff | cli/installer/postgres-provisioner.js:222-244 | A run finishes if and only if as many commands succeed as there are stale rules and a rule to add, and reports the number removed and whether anything changed |
| Firewall.RouteOutcome | cli/installer/postgres-provisioner.js:206-245 | With an active firewall, a run that finishes leaves the rules without either comment of the installer and the wanted ones, in order, and adds the rule if none was there; it finishes exactly if enough commands succeed; a failed run has deleted nothing but old rules of the installer |
| Firewall.Provisioner.EnsureScopedFirewallRule | cli/installer/postgres-provisioner.js:206-245 | The method does that for every listing and every point of failure, and changes nothing where the firewall is inactive |
| PgConfig.HbaKeepsLines | cli/installer/postgres-provisioner.js:50-62 | Every existing line is kept in order next to at most the marker, the rule and an empty line; the rule is in the file afterwards, and planning again changes nothing |
| PgConfig.HbaConsultedFirstIff | cli/installer/postgres-provisioner.js:50-62 | The rule is the first `host` or `local` rule of the file exactly when it was added or was the first already |
| PgConfig.PlanConfContent | cli/installer/postgres-provisioner.js:68-88 | The loop comments every setting out and writes the wanted one behind the first, or at the end |
| PgConfig.ConfKeepsLines | cli/installer/postgres-provisioner.js:68-88 | A changed file is the old one, settings turned into comments, with one new line |
| PgConfig.ConfLeavesOneSetting | cli/installer/postgres-provisioner.js:68-88 | In a changed file the new setting is the only one |
| PgConfig.ConfSettles | cli/installer/postgres-provisioner.js:68-88 | Two applications reach a fixed point for every file; one does exactly when the file had a setting |
| PgConfig.ConfInForceIff | cli/installer/postgres-provisioner.js:68-88 | After planning, the last setting of the file, the one obeyed, is the wanted one exactly when it was written now or was the last one already |
| PgConfig.ReadBackIff | cli/installer/postgres-provisioner.js:68-176 | The value that the next run reads from the planned file is the planned one exactly if it was written now or was the one read before |
| LineForms.SettingIff | cli/installer/postgres-provisioner.js:77 | A setting line is the key and an equals sign with white space before either and anything behind |
| LineForms.HbaRuleIff | cli/installer/postgres-provisioner.js:58 | A rule line is `host` or `local` with white space or nothing before it and white space behind it |
| TunnelConfig.MergeConfig | cli/installer/cloudflare-tunnel.js:95-117 | The loops remove the old rules, find the last catch-all rule and place the block, or name the missing part |
| LineForms.RuleForIff | cli/installer/cloudflare-tunnel.js:101-106 | A rule for a host is the key at its place, white space, exactly the host, and white space |
| LineForms.CatchAllIff | cli/installer/cloudflare-tunnel.js:111 | A catch-all line is two white-space characters, `- service:` and anything |
| LineForms.IngressIff | cli/installer/cloudflare-tunnel.js:108 | The section line is `ingress:` and white space |
| TunnelRoutes.ReadRoutes | cli/installer/cloudflare-tunnel.js:52-74 | The pass over the lines reads the routes of the file |
| TunnelRoutes.ManagedRulesAreRead | cli/installer/cloudflare-tunnel.js:52-93 | The managed rules are read back as the two rules they are, each host with its own service, whatever host was left open before |
| TunnelRoutes.MergedRoutes | cli/installer/cloudflare-tunnel.js:52-117 | A merged file has the routes of what is kept above the rules, the two managed ones, and those of what is kept below |
| TunnelRoutes.DiscoversWritten | cli/installer/cloudflare-tunnel.js:45-117 | For each of the two ports, discovery in a merged file finds a rule kept above the managed ones if there is one for that port, and otherwise the managed one, host and service as written |
| TunnelTwice.MergeManagedTwiceIff | cli/installer/cloudflare-tunnel.js:86-117 | For the rules of the installer and every file: merging them twice is merging them once if and only if, above the last catch-all rule, what is kept from its first start marker on is nothing but start and end markers in turn |
| TunnelTwice.MergeTwiceIff | cli/installer/cloudflare-tunnel.js:95-117 | The same for any marked block whose rules go with the hosts it names |
| TunnelMerge.MergeOneBlockTwice | cli/installer/cloudflare-tunnel.js:95-117 | Merging twice is merging once for every file in which only the first block has a start marker |
| TunnelMerge.OpenMarkerLosesLines | cli/installer/cloudflare-tunnel.js:96 | A start marker left above the last catch-all rule without its end there: the second merge keeps what was above that marker and what is below the rules, and loses the lines between, with the marker |
| TunnelTwice.ClosedBlockIsTakenOut | cli/installer/cloudflare-tunnel.js:96-106 | A complete block left above the last catch-all rule: the second merge takes that block out instead of the one put in, of which the two markers stay |
| TunnelMerge.MergePlaces | cli/installer/cloudflare-tunnel.js:107-117 | The block stands right before the last catch-all rule behind the ingress section, and without it the file is what was kept |
| TunnelSections.SectionStays | cli/installer/cloudflare-tunnel.js:95-117 | Through the whole merge, a section outside the first block that holds no managed rule and no marker stays together, its indented lines included, with what is kept of the lines before it before it and of those behind it behind it |
| TunnelSections.TwoSectionsStay | cli/installer/cloudflare-tunnel.js:95-117 | Two such sections stay in their order |
| TunnelRules.ManagedRulesAreManaged | cli/installer/cloudflare-tunnel.js:86-93 | For all hosts and services the managed rules are one marked block without a catch-all or ingress line |
| TunnelRules.ManagedRulesGoWithHosts | cli/installer/cloudflare-tunnel.js:86-106 | For all hosts without white space and all services, taking out the rules of the hosts that the managed rules name takes out every line of these between the markers |

## Left out

- Settlement columns that no branch depends on: gateway references, currency, dates, metadata, gift balance, lifetime totals, audit text, notifications; the update of gateway columns on a payment that is already confirmed.
- Subscriptions: provisioning is a choice that returns a subscription or throws; an event per provisioned order stands for what it writes, and renewal and extension orders are not told apart from new ones.
- Wallet changes without a payment are limited to bonuses and refunds; payout, reversal and gift balances are not modelled. The wallet's lock, its second look at the key and its two writes are one statement.
- The machine lets a confirmation start for any payment and a payment be initiated for any order, which is more than the controllers allow, so the theorems cover stale reads too; the amount of a payment is the digits of the printed total.
- Settings are read together; the percentage is the integer that the code truncates it to. Division of an order total is modelled on positive totals, the only ones that reach it.
- SettlementService.PaymentsService.CreateOrder: takes the plan's price and discount; the checks on the plan, its status and the renewal target are not modelled.
- SettlementService.PaymentsService.Initiate: the configuration of gateways, cards and crypto wallets is not modelled.
- SettlementService.PaymentsService.CreditReferralCommission: does not complete the referral log, which is modelled in SignupReferral as the action of an order.
- Database liveness, deadlocks and the fallback without transactions.
- Vouchers: code generation, balance and discount vouchers, and the subscription that a redemption provisions; a redemption that fails there rolls back.
- Vouchers.VouchersService.Redeem: is one call alone; interleaved calls are the machine's.
- SignupReferral: a user has one trial, as the unique index on referral trials demands (prisma/migrations/20260815180000_referral_traffic_rewards); its expiry and status, its renewal by an order and its transfer are not modelled; a missing trial plan is a crash; a referral names two different users. The claim and both grants become visible together at commit.
- Vouchers.FirstComersRedeem: is about calls one after the other; interleaved ones are limited by Vouchers.RedemptionsAreCounted.
- Sessions: each call is one step, so two refreshes at the same instant are not modelled; hashing and signing are opaque, and distinct refresh secrets have distinct hashes.
- Sessions.AuthService.Refresh: takes the outcome of checking the signature as a parameter.
- PanelMirror: the choice among several servers, and the coalescing of simultaneous synchronizations in one process; a remote id is an integer in decimal form. Protocol names are upper-cased as ASCII.
- Money.ToMinor: gives no result for a fraction holding anything but decimal digits, where the original refuses some texts and reads others (a sign or a hexadecimal prefix) as numbers.
- Discounts take the percentage as its rounded thousandths; rounding a floating-point percentage is not modelled.
- Slugs: a concurrent insert between the search and the write, which the unique key refuses.
- Firewall and NumberedRules: the checks of the arguments before the listing; a rule is searched without its printed number, and the added rule is listed last.
- TunnelRoutes: parsing a URL and checking a host name are functions given from outside; addresses are read in lines of their own.
- PgConfig and TunnelConfig work on lines without their endings; the tunnel file is taken to end with a line ending, and a host name in it to stand on the line of its key.
- TunnelSections.SectionStays: is about sections that start at a line neither blank nor indented and end without white space; white space at the end of the file goes. Only the first line of a section may be a catch-all rule, because the rules are put before the last one.
- Bank-card storage, masking, reports other than their CSV, affiliate payout, controllers, bot, dashboard, storage, encryption and the detectors of the installer.
