# Verification of the money and panel protocols

This project models, in Dafny, the parts of the VPN shop where a mistake costs a customer money or
service, and proves what they promise over every run:

- **Payment settlement** (`Wallets`, `Discounts`, `Settlement`, `SettlementLaws`, `SettlementRuns`,
  `PaymentService`). The same paid invoice may be delivered any number of times, each time with any
  mix of raising calls, savepoint rollbacks and abandoned transactions, between foreign postings on
  the same wallet.
- **Renewal, panel outbox and lease** (`Renewals`, `Outbox`, `OutboxLaws`, `OutboxRuns`, `PanelWorker`,
  `Lease`). One committed subscription row, its X-UI client, and any number of renewals, outbox
  workers, bans and usage syncs, with a Redis lease that may run out at any moment.
- **Shared client pool** (`PoolModel`, `PoolRuns`, `PoolService`). Any number of tasks interleaving at
  their awaits.
- **SQL dump tokenizer** (`SqlDump`, `SqlLaws`, `SqlRoundTrip`, `MysqlDumps`, `SqlSplitting`), **Jalali
  conversion** (`Jalali`), **fallback limiter** (`RateLimit`), **crypto claims and invoices**
  (`Texts`, `Base64`, `CryptoClaims`, `ClaimTable`, `Invoices`, `InvoiceRuns`), **exact money
  arithmetic** (`Decimals`, `Formatting`, `Money`, `TomanAgreement`).

Code that updates rows, entries or buffers is a class or a method with loops, proved equal to a
function of its inputs; the run theorems are about those functions. Outside calls (gateways, panels,
Redis replies, random draws, the clock) are parameters, so every theorem holds for whatever they
answer. Money columns are integers in units of 10^-8 dollars, times are microseconds (milliseconds in
`Lease`).

## What does not hold as documented

Where the code and the promise part, the code is modelled as it is, a lemma shows the input, and the
exact condition is proved:

- A renewal whose notification session fails to close is not marked as applied
  (`services/payment.py:818-820`): `DeliveryKeepsIff`, `UnmarkedRenewsTwice`,
  `UnmarkedAfterRefundLosesMoney`.
- A client factory that raises while an entry is being replaced leaves a retired entry in the pool:
  `StepKeepsIff`, `RetiredEntryHandsOutClosedClient`.
- The usage sync writes to the panel from the row it read, before its version is checked and its
  transaction commits. So it can undo a renewal that was just delivered or is being delivered, cut off
  a service it does not expire, and leave a service it finds alive again cut off: `StepAgreesIff`,
  `RunAgreesIff`, `StaleCutOffUndoesRenewal`, `CutOffDuringDelivery`, `AbortedCutOffStays`,
  `RevivalIff`, `RevivedServiceStaysCutOff`.
- `ttl` of a refused request is usually too short: `TtlIsEnoughIff`, `TtlAloneIsTooShort`.
- U+001A in a MySQL dump is read as the letter Z: `DumpReadsBackIff`.
- `fixed` can print a number `decimal` refuses to read: `FixedReadsBack`, `ThirtyNinesAndAHalf`.
- Chains outside the list keep the case of their hashes, and names outside the list, such as
  "USDT (BEP20)", are chains of their own. So one transaction can have several keys and fund several
  payments: `CreditedTwiceIff`, `UnlistedKeepsCase`, `UnlistedFundsTwice`,
  `UnlistedNameIsAnotherChain`, `UnlistedNameFundsTwice`.

## Model

| member | source | states |
|---|---|---|
| Wallets.PostEffect | services/wallet/manager.py:38-110 | A posting that goes through adds one row that continues from the balance before it, never takes a debited wallet below its credit line, and leaves the sums of every other cause alone |
| Wallets.PostIff | services/wallet/manager.py:38-110 | Exactly which postings go through: a positive debit within balance and credit line, a positive credit that is not the second deposit of one payment, when the database agrees |
| Wallets.PostedRow | services/wallet/manager.py:86-110 | The row that is written, with the balances before and after |
| Wallets.ChainedTotal | services/wallet/manager.py:62-110 | The balance is at all times the opening balance plus the signed sum of the ledger |
| Wallets.Wallet.ProcessTransaction | services/wallet/manager.py:38-110 | A debit goes through exactly when it is positive and balance and credit line cover it; an error leaves wallet and ledger as they were, otherwise there is exactly one more ledger row and the matching balance |
| Discounts.SlotsAreBounded | repositories/discount.py:56-91 | Over any run of attempts `used_count` moves by exactly the slots given and never passes `max_uses`; a live code gives one slot per attempt that its date and plan allow until it runs out, then none |
| Discounts.DeadCodeGivesNothing | repositories/discount.py:78-85 | A code switched off, used up, past its date or meant for another plan gives nothing over any run of attempts |
| Discounts.DiscountCode.UseCode | repositories/discount.py:56-91 | The locked row after one attempt, and whether a slot was given, for each refusal |
| SettlementRuns.SettleKeeps | services/payment.py:83-126 | The credit step books the deposit at most once, also after a claim or a credit that raised |
| SettlementRuns.ChargeBooks | services/payment.py:357-391 | Debit and fulfilment stand or fall together: one charge on the books and one effect, or neither |
| SettlementRuns.CompensateBooks | services/payment.py:464-509 | The handler gives back exactly one un-refunded charge, or leaves it on the books when the refund raises |
| SettlementRuns.PurchaseKeeps | services/payment.py:204-534 | A purchase delivery keeps conservation, one provisioning, one custom plan and one code use |
| SettlementRuns.RenewalKeeps | services/payment.py:537-764 | A renewal delivery keeps conservation and a single renewal, when it ends in a marked success or in any failure |
| SettlementRuns.DeliveryKeepsIff | services/payment.py:68-178 | Conservation and exactly-once fulfilment survive a delivery if and only if it is not one whose session close raises after a renewal went through |
| SettlementRuns.DeliveryServesIff | services/payment.py:68-178 | "Debited exactly when delivered" survives a delivery under the same condition, every failure included |
| SettlementRuns.RunKeepsIff | services/payment.py:68-178 | Over every run of deliveries, failures, rollbacks and foreign postings the invariant holds in all states if and only if no renewal was left unmarked |
| SettlementRuns.RunServesIff | services/payment.py:68-178 | Over every run "debited exactly when delivered" holds in all states if and only if no renewal was left unmarked |
| SettlementRuns.FreshRunsConserve | services/payment.py:87-126 | From an unpaid invoice: ledger change equals deposit minus the sum of the invoice (`total_renew_cost` for a partial renewal, otherwise the price) exactly when debited, nobody debited without being served nor served without being debited, one debit and one effect when delivered, at most one code use, the code within its slots |
| SettlementRuns.GuardIsExact | services/payment.py:879-887 | `already_processed` holds exactly when one more delivery can change no wallet, order, plan or subscription, payments that can never be fulfilled set aside: no plan, no subscription, nothing to charge; stored orders are found |
| SettlementRuns.UnmarkedRenewsTwice | services/payment.py:766-821 | Counterexample: when closing the bot session raises after a renewal, the retry renews again for the one charge |
| SettlementRuns.UnmarkedAfterRefundLosesMoney | services/payment.py:696-725 | Counterexample: the sticky `refund_completed` of an earlier attempt then stands in for a refund that never happens |
| SettlementRuns.OwedRefundIsRepaired | services/payment.py:691-731 | "Debited, not delivered, refund failed" keeps the invariant, for purchases and renewals, and the next delivery that gets as far as the savepoint either fulfils for that debit or gives the money back. (From an unpaid invoice with every close succeeding this state is not reached, see FreshRunsConserve.) |
| PaymentService.CreditWallet | services/payment.py:83-126 | The credit step on the stored rows has exactly the effect the run theorems are about |
| PaymentService.DebitAndFulfil | services/payment.py:649-688 | The savepoint: the rows afterwards, and the rows restored when an exception leaves it |
| PaymentService.RefundAndMark | services/payment.py:464-509 | Refund and marks on the stored rows, in every combination of flags |
| PaymentService.HandleDirectPurchase | services/payment.py:204-534 | The purchase handler on mutable rows, step by step, equals the purchase function |
| PaymentService.HandleDirectRenewal | services/payment.py:537-628 | The renewal handler on mutable rows equals the renewal function |
| PaymentService.ApplyDirectRenewalLocked | services/payment.py:631-821 | Debit, renewal and compensation under the renewal lock, and the close that may raise |
| PaymentService.ProcessSuccessfulPayment | services/payment.py:68-201 | One delivery on mutable rows, with its answer, equals `Settlement.Deliver` |
| PaymentService.ReviewPaid | services/payment.py:868-895 | A gateway review changes nothing but the status when the follow-up is done and otherwise is exactly one delivery; the books are kept exactly when that leaves no renewal unmarked |
| SettlementLaws.CreditIff | services/payment.py:83-126 | Exactly when the credit step goes through, once per payment, for what was paid, and what it leaves when the claim or the credit raises |
| SettlementLaws.SavepointIff | services/payment.py:635-688 | Exactly when the savepoint stands, and the sum it takes read off the invoice: `total_renew_cost` if it is there and not zero, otherwise the price; nothing for a payment already debited |
| SettlementLaws.RefundIff | services/payment.py:471-494 | Exactly when the handler counts the customer as refunded, and the one ledger row it adds when a refund was owed |
| SettlementLaws.RefundMarks | services/payment.py:497-509 | The status and the flags after it, for both verdicts |
| SettlementLaws.CodeSlotIff | services/payment.py:286-305 | A payment asks for its code once and gets the slot exactly when the locked code is live; the plan is not named |
| SettlementLaws.PlanIff | services/payment.py:225-271 | Exactly when a plan is there, and that a custom one is created once |
| SettlementLaws.OrderIff | services/payment.py:307-333 | The stored order if it is found, otherwise a new one in processing |
| SettlementLaws.PurchaseAnswers | services/payment.py:204-355 | What a purchase leaves when it has no user or no plan, when the preflight check puts it off, and that it otherwise ends with the verdict of the savepoint |
| SettlementLaws.PurchaseVerdict | services/payment.py:357-534 | Its own order provisioned and one subscription, or the order given up, no subscription, and the money where the refund leaves it |
| SettlementLaws.LockedVerdict | services/payment.py:631-821 | Renewed, or given up with the money where the refund leaves it, and the answer when the last close raises |
| SettlementLaws.RenewalAnswers | services/payment.py:537-628 | When a renewal is put off with nothing changed, when it is refused for good, and when it is tried |
| SettlementLaws.DeliveryAnswers | services/payment.py:68-201 | What the whole delivery answers; only a raised credit raises, and what was decided before is not tried again |
| PoolRuns.StepKeepsIff | services/panels/pool.py:13-46 | A step of any task keeps the pool invariant if and only if it is not a factory that raises while replacing an entry |
| PoolRuns.InvIsSafe | services/panels/pool.py:6-46 | No task uses a closed client or one built from another config, the pool holds no retired entry, and every client is pooled, held, or closed once |
| PoolRuns.PoolIsSafe | services/panels/pool.py:20-46 | The same for every number of tasks and every interleaving of borrowing, failing, cancellation and eviction in which no raising factory replaces an entry |
| PoolRuns.ClosedWhenLastLeaves | services/panels/pool.py:16-18 | A client is closed in exactly the step in which its retired entry has no borrower left, once |
| PoolRuns.FailedClientLeaves | services/panels/pool.py:36-42 | After a failure the entry is retired and under no key, whoever else still uses it |
| PoolRuns.RetiredIsNotHandedOut | services/panels/pool.py:20-46 | Over every run a retired entry stays retired and under no key, and whoever holds it at the end held it at the start |
| PoolRuns.EvictedKeyLeaves | services/panels/pool.py:13-18 | After an eviction exactly that key is gone, and its entry is retired, closed at once exactly when idle |
| PoolRuns.BorrowersShare | services/panels/pool.py:21-31 | A second borrower of a key gets the same entry if and only if it asks for the same configuration |
| PoolRuns.RaisingFactoryLeavesRetiredEntry | services/panels/pool.py:25-30 | Counterexample: a factory that raises leaves the retired entry in the pool |
| PoolRuns.RetiredEntryHandsOutClosedClient | services/panels/pool.py:43-46 | Counterexample: that entry is closed by its next borrower and handed to the one after |
| PoolService.ClientPool.Evict | services/panels/pool.py:13-18 | The pool, its entries and the closing of an idle client after an eviction |
| PoolService.ClientPool.BorrowEnter | services/panels/pool.py:21-31 | `borrow` up to its first await, with and without a raising factory, on mutable entries |
| PoolService.ClientPool.ExceptClause | services/panels/pool.py:36-42 | The entry that failed leaves the pool only if it is still the one under its key, and is retired |
| PoolService.ClientPool.FinallyClause | services/panels/pool.py:43-46 | The borrower is counted out, and the last one of a retired entry closes it |
| Renewals.Subscription.ApplyRenewal | services/renewal.py:171-282 | A renewal of the refreshed row: refused and unchanged, or the new limits, status and outbox columns |
| Renewals.Subscription.UpdateLimits | services/renewal.py:221-272 | The new limits for each kind of renewal, uncapped volume and duration left alone |
| Renewals.Subscription.RequestPanelSync | services/panel_sync.py:13-17 | The four outbox columns are reset, nothing else |
| Renewals.TimeRenewalIff | services/renewal.py:243-256 | A time renewal adds its days to the remaining time, however long the service has been over, exactly when it takes away no more than remains |
| Renewals.DaysAreConserved | services/renewal.py:243-256 | Over any run, time covered plus time remaining is what there was plus all days granted |
| Renewals.BytesAreConserved | services/renewal.py:224-242 | Over any run of top-ups, volume minus usage moves by exactly the bytes bought and used |
| Renewals.PlanQuotaIsExact | services/renewal.py:258-270 | After a finite plan renewal the bytes left are the quota plus later top-ups minus later usage, whatever was used before |
| Renewals.RunningIff | services/renewal.py:224-275 | Exactly when a served renewal leaves the time running; no served renewal leaves the service expired |
| Renewals.ServedIff | services/renewal.py:165-219 | Exactly which requests are served |
| Renewals.ServedStatus | services/renewal.py:274-282 | A served renewal makes an expired service active and changes no other status; it is queued for the panel anew |
| Renewals.PlanStartsAfresh | services/renewal.py:257-270 | The exact start, end and quota after a plan renewal; no quota and no duration mean no cap, no plan means no change |
| Renewals.TopUpLimits | services/renewal.py:224-256 | The exact new quota or end, in whole bytes or days toward zero; each kind touches its own limit only |
| Renewals.RefusedUntilDelivered | services/renewal.py:180-181 | After a renewal every other one is refused until the panel has taken it |
| Renewals.UncappedStaysUncapped | services/renewal.py:224-256 | No run of volume and time renewals ever caps what has no cap |
| OutboxRuns.NextKeeps | services/renewal.py:171-282 | Every step of every task (renewal, worker, ban, usage sync, crash, clock) keeps the outbox invariant |
| OutboxRuns.RunKeeps | services/panel_sync.py:3-6 | The outbox invariant over every run and any number of tasks |
| OutboxRuns.RunIsSafe | services/panel_sync.py:3-6 | A row with nothing pending has its quota and expiry on the panel until a usage sync writes there; a repeated write changes nothing; the panel never has limits of an uncommitted row; the row is its committed transactions one after another |
| OutboxRuns.NothingIsLost | services/renewal.py:171-181 | No committed renewal is lost: whatever happens later, the row is the row it left with the later committed transactions on top |
| OutboxRuns.DeliveredBetweenRenewals | services/renewal.py:180-181 | Between any two committed renewals the panel has taken the first: at most one is outstanding |
| OutboxRuns.SecondRenewalIsRefused | services/renewal.py:171-181 | Two renewals at work at once because the lease ran out: the first commits, the second is refused on the refreshed row, and the late release spares the second lease |
| OutboxRuns.BackoffDoubles | apps/worker/jobs/panel_sync.py:26-32 | The wait doubles with every attempt up to an hour; capping the exponent never changes it |
| OutboxRuns.FailuresBackOff | apps/worker/jobs/panel_sync.py:24-66 | After the k-th failure in a row the worker waits `min(30 * 2**k, 3600)` seconds, and the row is still pending with its limits |
| OutboxRuns.DeliveryRepairs | apps/worker/jobs/panel_sync.py:24-66 | An hour after the last attempt one delivery gives the panel the limits of the row, whatever was written there before |
| OutboxRuns.StepAgreesIff | apps/worker/jobs/subscriptions.py:683-735 | A step keeps active services with nothing pending in agreement with their panel if and only if it is not a cut-off with other limits than the row has, a revival of a service that was cut off, or a worker's commit after a cut-off landed on its own write |
| OutboxRuns.RunAgreesIff | services/panel_sync.py:3-6 | The same over every run: agreement in all states if and only if none of those steps was taken |
| OutboxRuns.WithoutCutOffsAgrees | services/panel_sync.py:3-6 | In particular for every run of renewals, workers, crashes, bans and usage readings without cut-offs |
| OutboxRuns.OwnCommitSettles | apps/worker/jobs/subscriptions.py:731-735 | A cut-off whose own transaction commits leaves the service expired or disabled |
| OutboxRuns.AbortedCutOffStays | apps/worker/jobs/subscriptions.py:346-355 | Counterexample family: a cut-off whose transaction is rolled back leaves an active service cut off on the panel, although nobody committed |
| OutboxRuns.CutOffDuringDelivery | apps/worker/jobs/panel_sync.py:24-66 | Counterexample family: a stale cut-off between the worker's write and its commit leaves the renewed service cut off with nothing pending |
| OutboxRuns.StaleCutOffUndoesRenewal | apps/worker/jobs/subscriptions.py:317-333 | Counterexample family: a renewal delivered during the sync is cut off on the panel, and nothing is pending that would repair it |
| OutboxRuns.RevivalIff | apps/worker/jobs/subscriptions.py:917-932 | Finding an expired service alive leaves row and panel agreeing exactly when no usage sync wrote to the panel since the last delivery, or the cut-off fell in the millisecond in which the service ends, with the same quota |
| OutboxRuns.RevivedServiceStaysCutOff | apps/worker/jobs/subscriptions.py:917-932 | Counterexample family: cut off by the sweep, which does not read the row again, and found alive in the detail view, a service is active in the row and over on the panel |
| OutboxLaws.StartIff | services/renewal.py:47-72 | A renewal starts exactly when no living lease is in its way and the row as read allows it |
| OutboxLaws.LeaseMoves | core/redis.py:94-124 | Over all steps, the three ways in which a lease changes; a crash leaves it to expire |
| OutboxLaws.RevokeIff | services/provisioning/manager.py:2170-2184 | A ban disables and queues exactly the services that are running or waiting for their first use, once the row lock is free |
| OutboxLaws.PickUpIff | apps/worker/jobs/panel_sync.py:24-32 | The worker takes up exactly the unlocked pending rows whose wait is over |
| OutboxLaws.PanelTakesIff | services/renewal.py:361-385 | What the panel is given: the quota of the row the worker read and its expiry in milliseconds, left alone before the first use; nothing else changes |
| OutboxLaws.RaisedCallIsRetried | apps/worker/jobs/panel_sync.py:33-62 | A call that raises, before the panel took the limits or after, ends as a failure on record with the row still pending |
| OutboxLaws.DeliveryMarks | apps/worker/jobs/panel_sync.py:33-66 | The columns after a delivery: one more attempt on record either way, the error cleared on success and kept on failure |
| OutboxLaws.ReadIff | apps/worker/jobs/subscriptions.py:507-545 | Exactly which rows the sweep and the detail view read |
| OutboxLaws.CutOffIff | apps/worker/jobs/subscriptions.py:645-735 | Exactly when a usage sync cuts a service off on the panel, with which limits |
| OutboxLaws.EndUsageIff | apps/worker/jobs/subscriptions.py:562-601 | What a usage sync may commit, and that it commits nothing when another commit came between |
| PanelWorker.DeliverPanelState | apps/worker/jobs/panel_sync.py:24-66 | One attempt of the worker: back-off, attempt columns, absolute limits, and the marker that stays on every failure |
| PanelWorker.PanelClient.PatchClient | services/renewal.py:361-385 | A write replaces quota and expiry; for a service that has not started the expiry is left alone |
| Lease.AtMostOneHolder | core/redis.py:94-124 | Over every run of entering, expiry, crash, lost replies and late release, no two processes hold a key while their leases last |
| Lease.OnlyTimeTakesALease | core/redis.py:21-27 | No step of another process, a late release included, takes or changes an unexpired lease |
| Lease.EnterIff | core/redis.py:114-118 | A process gets the key exactly when no lease on it lasts and the lifetime is positive, with the store it leaves; and then nobody else holds it |
| Lease.NextGetsTheKey | core/redis.py:119-124 | A holder that leaves frees the key at once: the next process gets it, whatever was left of the lease |
| Lease.CrashFreesByTime | core/redis.py:109-112 | After a crash the key is free exactly when the lease has run out |
| Lease.LostReplies | core/redis.py:114-124 | A lost reply changes what the process knows, not what the store does |
| Lease.KeysAreDistinct | core/redis.py:69-91 | One key per subscription and per user, and never a common one |
| Lease.Redis.SetNxEx | core/redis.py:116-116 | Set exactly when the key is free and the lifetime positive |
| Lease.Redis.EvalRelease | core/redis.py:21-27 | Deleted exactly when the key still holds the owner, every other living key untouched |
| Lease.DistributedLock.constructor | core/redis.py:114-118 | Entering the block: acquired exactly when the key was free, with this owner in the store |
| Lease.DistributedLock.Exit | core/redis.py:119-124 | Leaving the block: the own lease is gone, everybody else's is not |
| SqlDump.ReadText | scripts/import_legacy.py:150-180 | The string loop equals the scanning function, on every input, with its two errors |
| SqlDump.ReadValue | scripts/import_legacy.py:148-191 | One value: string, NULL or bare word |
| SqlDump.ReadTuple | scripts/import_legacy.py:132-191 | One tuple, or the error that ends the body |
| SqlDump.ParseValueTuples | scripts/import_legacy.py:117-192 | The nested loops terminate on every text and yield exactly the rows of the scanning function |
| SqlDump.FindStatementTerminator | scripts/import_legacy.py:241-268 | The splitter's loop equals its scanning function |
| SqlRoundTrip.RoundTrip | scripts/import_legacy.py:117-192 | For every list of rows of strings, NULLs and bare words, whatever the escapes, blanks and separators: parsing the printed body gives exactly the rows |
| SqlRoundTrip.ParsePrintParse | scripts/import_legacy.py:117-192 | On every text at all: printing what was parsed and parsing it again gives it back |
| MysqlDumps.DumpIsHeard | scripts/import_legacy.py:155-172 | Rows of texts with the escapes MySQL writes parse, each U+001A read as the letter Z |
| MysqlDumps.DumpReadsBackIff | scripts/import_legacy.py:155-172 | They come back as they were if and only if no text holds U+001A, which MySQL writes as backslash and Z |
| SqlRoundTrip.BareWordIff | scripts/import_legacy.py:181-191 | Exactly which words come back as themselves |
| SqlLaws.EscapesAre | scripts/import_legacy.py:160-166 | What a backslash makes of every character after it, as a parsed string |
| SqlLaws.NullIsFourLetters | scripts/import_legacy.py:181-183 | NULL in any case ends after its fourth letter: what follows is the next value |
| SqlLaws.SeparatorIff | scripts/import_legacy.py:125-131 | Exactly which characters may stand before a row |
| SqlLaws.ValueSeparatorIff | scripts/import_legacy.py:136-187 | Exactly which characters part two values |
| SqlRoundTrip.RowsScanned | scripts/import_legacy.py:117-192 | What kinds of values the tokenizer can yield from any text |
| SqlSplitting.StringStatesAgree | scripts/import_legacy.py:153-179 | On any text the splitter leaves each string where the tokenizer does, and runs on to the end where it fails |
| SqlSplitting.TerminatorFound | scripts/import_legacy.py:241-268 | The splitter stops exactly at the semicolon after a printed body, whatever the strings hold and whatever follows |
| SqlSplitting.JoinedBodiesComeApart | scripts/import_legacy.py:216-227 | Bodies joined with semicolons are cut where they were joined, each with its own rows |
| Jalali.GregorianToJalali | core/jalali.py:24-65 | The conversion, with its loops and floor divisions, is the Jalali date of the Gregorian day number |
| Jalali.GregorianDayNo | core/jalali.py:31-46 | The day number of a valid date |
| Jalali.MonthAndDay | core/jalali.py:57-65 | Month and day of a day of the year |
| Jalali.JalaliOfDayNo | core/jalali.py:48-65 | Year, month and day of a day number |
| Jalali.ConvertKeepsDay | core/jalali.py:24-65 | Valid dates become valid dates of the same day |
| Jalali.ConvertSuccessor | core/jalali.py:24-65 | The next day becomes the next day under the 33-year leap rule |
| Jalali.ConvertOrder | core/jalali.py:24-65 | Earlier dates become earlier dates, and only they; no two dates become one |
| Jalali.ConvertBijective | core/jalali.py:24-65 | The conversion has a two-sided inverse |
| Jalali.KnownDates | core/jalali.py:24-65 | Nowruz 1404 and the leap day before it |
| RateLimit.SlidingWindow | core/rate_limit.py:37-56 | No closed window holds more than `max(1, max_req // 2)` admissions of a key, over any run with any keys and evictions, and the table keeps to 10000 keys |
| RateLimit.AdmittedIff | core/rate_limit.py:37-56 | Over every run a request is admitted exactly when its key has fewer than `max(1, max_req // 2)` admissions in the window that ends now, and the table has room for the key |
| RateLimit.DecisionIs | core/rate_limit.py:46-56 | What a decision leaves and answers: exactly the hits from within the window, with this one if admitted, and otherwise the whole seconds until the oldest of them leaves |
| RateLimit.WaitingFreesASlot | core/rate_limit.py:52-54 | A refused key gets a slot `ttl + 1` seconds later |
| RateLimit.TtlIsEnoughIff | core/rate_limit.py:47-54 | Waiting exactly `ttl` seconds is enough if and only if the oldest hit leaves the window within a second |
| RateLimit.TtlAloneIsTooShort | core/rate_limit.py:53-54 | Counterexample: `ttl` seconds are not enough |
| RateLimit.Limiter.FallbackAllow | core/rate_limit.py:37-56 | One call: sweep, prune, decide, append, with the whole new table |
| RateLimit.Limiter.CheckBucket | core/rate_limit.py:46-56 | The part on the key's own bucket |
| RateLimit.Limiter.Sweep | core/rate_limit.py:39-43 | Only stale buckets are dropped, and only when a new key meets a full table |
| RateLimit.Limiter.PopOld | core/rate_limit.py:47-49 | The loop drops exactly the hits before the cutoff |
| CryptoClaims.KeyIff | services/crypto_claims.py:9-49 | Exactly when two references are one transaction: up to case and outer space on the listed chains, as the same 32 bytes on TON, up to outer space elsewhere |
| CryptoClaims.CurrencyKeyIff | services/crypto_claims.py:9-15 | Exactly when two names are one currency |
| Texts.SpacesAre | services/crypto_claims.py:10-10 | Exactly which characters count as outer space |
| CryptoClaims.VariantsAgree | services/crypto_claims.py:9-35 | Case and outer space never change a currency, nor a transaction of a listed chain |
| CryptoClaims.TonSpellingsAgree | services/crypto_claims.py:36-48 | Hexadecimal in any case, base64 and base64url, padded or not, with blanks around: one key |
| CryptoClaims.SharedChains | services/crypto_claims.py:9-35 | A transaction has one key under all the names the source lists for its chain |
| CryptoClaims.UnlistedKeepsCase | services/crypto_claims.py:33-35 | Counterexample: off the list, two spellings of one hash are two transactions |
| CryptoClaims.UnlistedNameIsAnotherChain | services/crypto_claims.py:25-26 | Counterexample: "USDT (BEP20)" is not joined to the chain of "USDT BEP20", whatever the hash |
| CryptoClaims.KeyOfKey | services/crypto_claims.py:18-49 | A key is its own key |
| CryptoClaims.TonHashIff | services/crypto_claims.py:36-48 | Two TON hashes are normalised alike exactly when they spell the same bytes, or are the same text that spells none |
| Base64.DecodeEncode | services/crypto_claims.py:43-45 | Strict decoding gives back what was encoded, in either alphabet of RFC 4648, once padded to a multiple of four |
| Base64.HexRoundTrip | services/crypto_claims.py:45-46 | Hexadecimal and back |
| Base64.DecodeIff | services/crypto_claims.py:43-44 | Exactly what decodes: symbols of either alphabet in whole groups of four, the last with at most two pads |
| ClaimTable.EachTransactionFundsOnce | services/crypto_claims.py:52-70 | Over every run of deliveries, retries and deletions a chain transaction is credited at most once |
| ClaimTable.ClaimStays | models/crypto_claim.py:13-17 | A claim stays with its owner until the owner is deleted, and is then nobody's for ever |
| ClaimTable.OwnerRetriesOthersDoNot | services/crypto_claims.py:64-70 | After a claim whose credit failed, exactly its undeleted owner may claim again |
| ClaimTable.QuotedIs | services/crypto_claims.py:52-59 | Which transaction a payment quotes: the hash of the payload wins over the provider id, a value of another type is refused, and the exact refusals |
| ClaimTable.CreditedTwiceIff | services/crypto_claims.py:52-70 | Two payments are both credited exactly when their quotations differ in the chain, or in more than case and outer space on a listed chain, in the bytes on TON, in more than outer space elsewhere |
| ClaimTable.UnlistedNameFundsTwice | services/crypto_claims.py:25-26 | Counterexample: one BSC hash under "USDT BEP20" and under "USDT (BEP20)", which the list omits, funds two payments |
| ClaimTable.UnlistedFundsTwice | services/crypto_claims.py:52-70 | Counterexample: one MATIC hash in two spellings funds two payments |
| ClaimTable.ClaimStore.Claim | services/crypto_claims.py:52-70 | The claim on the table, with every refusal |
| ClaimTable.ClaimStore.DeletePayment | models/crypto_claim.py:15-17 | Deleting a payment orphans its claims and removes none |
| Invoices.GenerateUniquePayAmount | services/crypto_autoconfirm.py:96-137 | The loop of fifty draws gives the first free amount, or the error |
| Invoices.QuantizedSet | services/crypto_autoconfirm.py:108-108 | The set of quantized amounts already asked for |
| Invoices.UniqueAmountIs | services/crypto_autoconfirm.py:96-137 | What comes out differs in units from all amounts asked for, lies above the base by less than 10000 units and is its own quantized value; none comes out exactly when every draw is taken |
| Invoices.FirstFreeDraw | services/crypto_autoconfirm.py:126-132 | What comes out is the base plus the first draw that hits no taken amount, in the smallest unit |
| Invoices.FitsColumn | services/crypto_autoconfirm.py:80-93 | Storing a quantized amount with eight decimals changes nothing |
| Invoices.ScaleIs | services/crypto_autoconfirm.py:86-93 | Six decimals for USDT on TRON, TRX and TON under all their names, eight for every other currency |
| Invoices.MatchesIff | services/crypto_autoconfirm.py:370-373 | Amounts match exactly when they are the same number of units; quantizing twice is quantizing once |
| InvoiceRuns.PendingAmountsFor | services/crypto_autoconfirm.py:140-173 | The loop over the rows collects the amounts of the pending invoices of the target |
| InvoiceRuns.SeenIff | services/crypto_autoconfirm.py:153-161 | A stored currency passes the query exactly when it is the same currency with no space around it |
| InvoiceRuns.SeenRowIff | services/crypto_autoconfirm.py:153-166 | Exactly which rows are seen when amounts are chosen: provider, the three statuses, currency and address |
| InvoiceRuns.CollectedIff | services/crypto_autoconfirm.py:161-173 | Exactly which amounts are avoided: the column's, or without one the payload's, of the rows seen |
| InvoiceRuns.CreateAdds | apps/bot/handlers/user/topup.py:778-784 | What a new invoice holds, when none is written, and exactly when it will be polled |
| InvoiceRuns.CreateKeeps | apps/bot/handlers/user/topup.py:780-784 | A new invoice that will be polled differs in units from every pending one that is polled for its currency and address |
| InvoiceRuns.RunKeeps | services/crypto_autoconfirm.py:140-173 | The invoices the worker polls for one currency and address stay pairwise distinct over every run, whatever currencies are configured |
| InvoiceRuns.TransferMatchesOne | apps/worker/jobs/crypto_autoconfirm.py:159-176 | Over every run an incoming transfer matches at most one of the invoices the worker polls |
| InvoiceRuns.SeenIffPolled | apps/worker/jobs/crypto_autoconfirm.py:72-80 | A row is seen when amounts are chosen exactly when the worker polls it for that currency |
| Money.FixedReadsBack | miniapp/js/money.js:13-29 | What `fixed` prints, without its commas, is read back as the nearest value in units of the last place, ties away from zero, sign kept; it is read back exactly for up to eighteen places and when all nines do not carry over |
| Money.ShortIsUnchanged | miniapp/js/money.js:21-29 | Values with no more decimals than are printed come back exactly |
| Money.ThirtyNinesAndAHalf | miniapp/js/money.js:17-18 | Counterexample: a value that can be read is printed with 31 digits, which cannot |
| Money.GroupIs | miniapp/js/money.js:20-20 | A comma before every third digit from the end |
| Money.UngroupFrom | miniapp/js/money.js:20-20 | Removing the commas gives the digits back |
| Money.ScaledIsNearest | miniapp/js/money.js:22-27 | The integer rounding is to nearest, ties away from zero |
| Decimals.HalfEvenOfQuotient | services/crypto_autoconfirm.py:77-93 | The rounding of amounts and the rounding of quotients are one |
| TomanAgreement.TomanAgreesIff | core/formatting.py:85-88 | For every amount and rate the mini-app and the bot give the same Toman exactly when the digits beyond the 28th cannot carry into a whole Toman |
| TomanAgreement.TomanAgrees | miniapp/js/money.js:30-33 | In particular whenever the product has at most 28 digits |
| Formatting.RoundTripIff | core/formatting.py:85-99 | Dollars to Toman and back is the identity exactly when the cut-off part is worth less than half a cent, or half a cent with an even number of cents |
| Formatting.RoundTrip | core/formatting.py:85-99 | At every rate of at least 200 nothing is lost, for debts too |
| Formatting.OtherWayIsClose | core/formatting.py:85-99 | Toman to dollars and back is off by at most half a cent's worth and one Toman |
| Formatting.TwoRoundingsAreOne | core/formatting.py:97-99 | Below 10^25 Toman, at every rate, taking the quotient to 28 digits and then to cents is rounding once |
| Formatting.QuotientDigitsAreHarmless | core/formatting.py:97-99 | Rounding a quotient to a fine enough scale before rounding to cents changes nothing |

## Left out

- Telegram messages, QR codes, sales notifications, dashboards, keyboards and text templates: they change none of the state modelled here.
- Referral bonuses (`services/payment.py:995-1103`): they credit wallets under their own reference; on the customer's wallet they are foreign postings of the runs.
- The admin's on/off switch of a subscription (`apps/bot/handlers/admin/subs.py:262-300`): it writes an unlocked, uncommitted row to the panel and queues nothing on failure, outside what `RunIsSafe` covers.
- HTTP clients, gateways, panel and explorer APIs, SQLAlchemy: nondeterministic success or failure; a failed flush is a rollback of the whole transaction.
- The Marzban-family sync (`services/renewal.py:394-436`): a switch to "unlimited" is not sent there, so outbox agreement is claimed for X-UI only.
- First-use activation, and the usage sync's status changes of a service that was never used; a client deleted on the panel, which counts as disabled.
- The `enable` flag and the IP limit of the panel client; outbox agreement is about quota and expiry.
- `iter_inserts` (comment stripping rewrites text inside strings), `parse_money_input` (its separators do not follow its documentation): no whole-file and no format/parse round trip is claimed.
- Pricing, stock, settings, admin transfers, recovery scripts and migrations: easy members.
- Cryptography: the advisory lock on invoice creation is modelled as serialization, `uuid4` owner ids as distinct.
- Case mapping of letters outside A-Z and a-z; JavaScript numbers in exponent notation.
- OutboxRuns.RunIsSafe: no panel write is assumed to land after its call has timed out; expiry in milliseconds is exact division; the floating-point `timestamp() * 1000` is not modelled.
- SettlementRuns.FreshRunsConserve: a delivery that is not committed, or whose provisioning raised, is assumed to leave no client on the panel.
- Renewals.Subscription.ApplyRenewal: one clock reading stands for the guard's and the update's, and the amount is a real number, not a floating-point one.
- Lease.DistributedLock.constructor: a lifetime that is not positive counts as not acquired; Redis answers it with an error.
- Invoices.GenerateUniquePayAmount: the 28-digit limit of `quantize` and the column's ten integer digits are not modelled; amounts that large raise in the original.
- CryptoClaims.TonSpellingsAgree: strict decoding is modelled as the standard describes it; padding after a complete last group is refused, which never concerns 32 bytes.
- Formatting.RoundTrip: amounts whose product with the rate exceeds 28 digits are excluded; the quotient's own 28 digits are dealt with by `TwoRoundingsAreOne`.
- Formatting.TwoRoundingsAreOne: amounts of 10^25 Toman and more are excluded; for quotients of 10^26 and more `quantize` raises.
- SqlRoundTrip.RoundTrip: bare words stand for numbers, as the tokenizer yields them, as text.
