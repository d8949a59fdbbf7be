# Payment and payout verification

A Dafny model of the money lifecycle of this repository, with proofs of what it keeps: how transfers are confirmed,
how confirmed payments are paid out once, how prepaid subscriptions are debited, how events and e-mails leave the
system, and the arithmetic and codecs underneath.

The tables that services share are one value (`Tables.Db`). Every committed transaction, and every step of the payout
worker between transactions, is an action of a state machine (`Protocol.Step`); a run is any sequence of actions in any
interleaving (`Protocol.Run`). The main results are about all runs. The operations that change rows are classes whose
methods carry out the statements of the source on mutable tables. Whether a statement or a commit succeeds is a
parameter of the method, so each contract says exactly what happens in either case; a pass of the payout worker and the
handling of one e-mail event take all their circumstances as one value (`Fate`). Only the order of rows, and what other
services or handlers do in between, are left open. The class `Database` records the run that its tables went through, so
the results about runs hold of whatever the methods do, including transactions of other services between their
statements. The subscription, outbox and e-mail parts have a machine of their own in the same style. Code that only
computes is modelled by functions, and loops over buffers, rows and blocks by methods with invariants.

| file | part of the system |
|---|---|
| Sums, Words, Products, Text, Decimal | sums over tables, machine words, products, ASCII and decimal text |
| Pricing | tolerance band and status of a payment |
| Tables, Protocol, Invariants | the shared rows, the state machine and its invariant |
| PayoutSafety, PayoutProgress, PayoutPass, PassTrace | results about payouts over all runs, and what one pass achieves |
| Confirmation, UnconfirmedPayout | results about confirmations over all runs |
| Database, CheckoutService, ChainObserver, PayoutScheduler | the services, statement by statement |
| Calendar, Subscriptions, SubscriptionScheduler | billing dates, vaults and cycles |
| Outbox, Email, EmailDispatch, EmailDispatcher | the relay, recipients and at-most-once e-mail |
| Base32, Ulid | identifiers |
| LogScan, DepositReport, DepositLedger | the backward scan for transfers, the report made of it, and when report and ledger are complete |
| Amounts, TokenFormat | parsing and printing token amounts |

`dafny verify dfyconfig.toml` checks the whole project.

Where a natural expectation is false of the code, the exact condition is proved:

- An exact payment with a tolerance below half a unit of 1e-8 can be classified as overpaid (`ExactPaymentConfirmedIff`).
- A payment without any confirmation can be paid out, when it exceeds the band (`PayableIff`, `PaidStatusIff`,
  `UnconfirmedPaymentIsPaidOut`).
- The branch that writes a session as "failed" on confirmation is never taken (`SessionFollowsConfirmedSum`).
- No subscription becomes past due, and a failed debit is never retried (`FailedDebitIsFinal`).
- Day and week intervals beyond 292 years wrap around and can go back in time (`NextDateIsLaterIff`).
- A ULID carries its time only below 2^50 ms, and Parse accepts ids whose time does not fit 48 bits (`EncodeDecodes`,
  `FirstDigitIffTimeFits48Bits`).
- A scan misses transfers unless all matching blocks fall in one chunk counted from the head (`ScanIsCompleteIff`,
  `ReportIsCompleteIff`, `TransferIsMissed`), and what the first accepted report misses, or what arrives after it, never
  reaches the ledger (`LedgerIsWholeIff`).
- Amounts of a token without decimals lose trailing zeros when printed (`PrintThenParse`). No caller has such a token
  today: those of internal/shared/chain/tokens.go have 6, 8 or 18 decimals, native ones 18.
- The two amount parsers accept different texts, in exactly three ways, but never disagree on a value
  (`BothAcceptExactly`, `WorkerAcceptsThenGateway`, `GatewayAcceptsThenWorker`, `ParsersAgree`).
- An e-mail is lost exactly when its one send fails or its handler stops between reserving and sending it
  (`DeliverableIff`, `LostIff`, `StoppedAfterReserving`, `FailedSendIsFinal`).

## Model

| member | source | states |
|---|---|---|
| PayoutSafety.PaidOnce | internal/platform/workers/payout_scheduler.go:184-322 | In every run of confirmations, expiry, cancellation, balance shortcuts and one payout worker (crashes included), an intent has at most one payout item, and the successful executor calls for an item number exactly: one if it is completed, plus one if its result is being persisted, plus the successes whose result was lost |
| PayoutSafety.CompletedItemIsFinal | internal/platform/workers/payout_scheduler.go:184-291 | Whatever follows, a completed item stays as it is and the executor is never called for it again |
| PayoutSafety.TotalIsConserved | internal/platform/workers/payout_scheduler.go:119-135 | From the scheduling commit on, a payout keeps its items and their amounts, its total is their sum, and once completed its row never changes |
| PayoutSafety.CompletedPayoutIsPaid | internal/platform/workers/payout_scheduler.go:324-363 | When a payout is completed every item was executed successfully for its own frozen amount and its address is swept; exactly one payout.completed event names it, carrying the sum |
| PayoutSafety.TablesAgree | internal/platform/workers/payout_scheduler.go:293-379 | Item completed iff its deposit address is swept; a settled intent has a completed item; one payout.completed event per completed payout and none for any other |
| PayoutSafety.SchedulingPartitions | internal/platform/workers/payout_scheduler.go:76-137 | After an undisturbed pass every confirmed or overpaid intent has exactly one item, in a payout of its own merchant, chain and token; new payouts are not empty; earlier ones are unchanged |
| PayoutProgress.SmoothPassSweepsAll | internal/platform/workers/payout_scheduler.go:207-291 | Progress: if nothing fails from the load until the worker is free again, every loaded item was executed exactly once more and is completed, whatever the other services do meanwhile |
| PayoutSafety.RunPreserves | internal/platform/workers/payout_scheduler.go:184-379 | No run of any actions undoes a completed item or payout, moves an item, or changes an amount or a total |
| Invariants.RunKeepsInv | internal/platform/workers/payout_scheduler.go:71-379 | The cross-table, worker-snapshot and accounting invariant is inductive over every action and interleaving |
| Invariants.ScheduleKeepsDbInv | internal/platform/workers/payout_scheduler.go:94-135 | Scheduling one group keeps the cross-table invariant: links, one item per intent, conserved totals, announcements |
| Invariants.PersistKeepsDbInv | internal/platform/workers/payout_scheduler.go:293-322 | Persisting a result keeps the cross-table invariant and completes that item and no other |
| Invariants.FinishKeepsDbInv | internal/platform/workers/payout_scheduler.go:324-363 | Finishing keeps the cross-table invariant, whether or not the payout turns out complete |
| PayoutScheduler.PayoutScheduler.SchedulePayouts | internal/platform/workers/payout_scheduler.go:76-137 | Every group that had something to pay and whose transaction goes through gets a payout with every intent of it that is eligible at that moment and not locked; with nothing locked, failing or interfering, the pass is an undisturbed one in the sense of SchedulingPartitions |
| PayoutScheduler.PayoutScheduler.ScheduleGroup | internal/platform/workers/payout_scheduler.go:94-135 | One group: if the transaction commits, exactly the confirmed or overpaid intents of the group without an item that are not locked get one pending item each for what they received, under a new payout, due at once, over the sum; otherwise everything stays as it was |
| PayoutScheduler.InsertItems | internal/platform/workers/payout_scheduler.go:98-133 | The item loop inserts one item per selected intent with the received amount frozen and accumulates exactly the payout total |
| PayoutScheduler.PayoutScheduler.CompleteDuePayouts | internal/platform/workers/payout_scheduler.go:139-182 | When the claims commit, each due, unlocked payout is loaded at some moment after; if its own cursor reaches the end, all of its rows executable then whose own circumstances are good are executed once more and completed |
| PayoutScheduler.PayoutScheduler.ClaimDue | internal/platform/workers/payout_scheduler.go:139-177 | Exactly the unlocked payouts that are not completed and whose time has come are marked processing with one more attempt, together, before any execution, and their group and total are remembered |
| PayoutScheduler.PayoutScheduler.LoadItems | internal/platform/workers/payout_scheduler.go:184-205 | The rows are exactly the items of the payout that are not completed, whose intent is confirmed or overpaid and has a deposit address, with intent and frozen amount |
| PayoutScheduler.PayoutScheduler.ProcessPayout | internal/platform/workers/payout_scheduler.go:184-291 | For all circumstances, the item table and the executor calls after one payout; its row ends completed iff finishing commits and none of its items is unfinished, otherwise rescheduled iff anything failed and that statement goes through, otherwise as it was; no other payout changes |
| PayoutScheduler.PayoutScheduler.ProcessRows | internal/platform/workers/payout_scheduler.go:206-281 | The row loop with its failing cursor: which items end in which status, which calls are made, and a failure is noted iff some row was not read or did not succeed |
| PayoutScheduler.PayoutScheduler.ProcessItem | internal/platform/workers/payout_scheduler.go:207-277 | A row succeeds iff it is readable, configured, executed and persisted; for each combination, the status of its item, the call made and the result lost |
| PayoutScheduler.PayoutScheduler.ExecutePayout | internal/platform/workers/payout_scheduler.go:251-271 | The executor is called once, for the row and its frozen amount; its answer decides between persisting and failing |
| PayoutScheduler.PayoutScheduler.CompletePayoutItem | internal/platform/workers/payout_scheduler.go:293-322 | Together: the item is completed, the address swept, and the intent, if it was confirmed or overpaid, settled, with all other rows and columns kept; or nothing changes and the result is lost |
| PayoutScheduler.PayoutScheduler.FinishPayoutIfComplete | internal/platform/workers/payout_scheduler.go:324-363 | Completes and announces the payout iff no unfinished item is left and it is not completed yet; otherwise the tables stay as they are |
| PayoutScheduler.PayoutScheduler.MarkItemFailed | internal/platform/workers/payout_scheduler.go:365-371 | Marks the row failed (nothing if the statement fails, whose error is dropped) and notes the failure |
| PayoutScheduler.PayoutScheduler.MarkPayoutRetry | internal/platform/workers/payout_scheduler.go:373-379 | Reschedules the payout unless it is completed |
| PayoutScheduler.PayoutScheduler.Process | internal/platform/workers/payout_scheduler.go:71-74 | A whole pass, whatever interferes or fails, keeps the invariant and undoes nothing finished, schedules every group and handles every due payout as far as circumstances let it; when nothing fails or interferes, every confirmed or overpaid intent without an item is paid exactly what it had received, its address swept and the intent settled |
| PassTrace.LuckyPassPays | internal/platform/workers/payout_scheduler.go:71-291 | Progress of the whole machine: an undisturbed scheduling pass and a pass over the due payouts without failures execute every eligible intent for what it had received, sweep its address and settle it |
| Confirmation.PaidOutIsSettled | internal/platform/workers/payout_scheduler.go:293-322 | Over runs: persisting the result of an execution settles an intent that was confirmed or overpaid, keeps its other columns, and it stays so until something is reported about it again |
| PayoutPass.ItemsAfterAt | internal/platform/workers/payout_scheduler.go:207-281 | A row that is read ends as its own circumstances say, whatever happens to the other rows |
| PayoutPass.CallsMadeFor | internal/platform/workers/payout_scheduler.go:251-271 | A row is executed at most once per pass, exactly when it is read, readable and configured |
| PayoutPass.ReadUntilBreak | internal/platform/workers/payout_scheduler.go:206-281 | A row is read iff the cursor fails neither at it nor before it |
| CheckoutService.CheckoutService.CreateCheckoutSession | internal/services/checkoutsvc/service.go:310-365 | Inserts session, intent, deposit address and event under new ids, or nothing |
| CheckoutService.CheckoutService.ConfirmCheckoutSession | internal/services/checkoutsvc/service.go:578-757 | The reply is determined by ids, hash, payload, lookup and commit as in the source; after an accepted report, ledger, intent, session and events are given in sums and bounds alone: confirmed, overpaid, partial and awaiting funds each iff the confirmed-only sum and the full sum lie where they must; the reply reports what was written; every rejected or failed call leaves the tables unchanged |
| CheckoutService.Decide | internal/services/checkoutsvc/service.go:664-708 | The statements compute the aggregates over all rows and over the sufficiently confirmed ones; each of the four statuses is given by the two sums and the bounds, for every ledger |
| CheckoutService.SelectMinConfirmations | internal/services/checkoutsvc/service.go:664-676 | The loop returns the least confirmation count of the rows, zero when there are none |
| Confirmation.TwoStageStatus | internal/services/checkoutsvc/service.go:677-684 | Status "confirmed" iff the confirmed-only sum is positive and inside the band; the fallback stage never yields "confirmed" |
| Confirmation.StatusIsBySums | internal/services/checkoutsvc/service.go:664-684 | For every ledger: confirmed iff the confirmed-only sum pays within the band; overpaid iff it exceeds the band or, when it does not pay, everything seen does; partial iff it does not pay and everything seen is positive but below the minimum; awaiting funds iff it does not pay and everything seen is nothing or inside the band |
| Confirmation.OneMoreTransfer | internal/services/checkoutsvc/service.go:664-668 | A further transfer adds its amount to the full sum, and to the confirmed-only sum iff it has the required confirmations |
| Confirmation.SessionFollowsConfirmedSum | internal/services/checkoutsvc/service.go:702-708 | The session is written paid iff the confirmed-only sum is positive and at least the minimum, awaiting funds otherwise: "failed" is never written |
| Confirmation.PayableIff | internal/services/checkoutsvc/service.go:677-684 | A Confirm leaves an intent payable iff its confirmed sum pays for it or the sum of everything seen, confirmed or not, exceeds the band |
| Confirmation.PaidStatusIff | internal/services/checkoutsvc/service.go:677-708 | In every state reached without the balance shortcut the status is the one that the two sums give, unless the intent was settled from confirmed or overpaid, or expired from awaiting funds or partial; so it is confirmed, overpaid or settled iff its confirmed sum pays for it or the sum of everything seen exceeds the band |
| UnconfirmedPayout.UnconfirmedPaymentIsPaidOut | internal/platform/workers/payout_scheduler.go:78-82 | A run from the start in which a payment without any confirmation is scheduled and executed in full |
| Confirmation.ViewDependsOnLastReports | internal/services/checkoutsvc/service.go:641-709 | From any reachable state on, with expiry, cancellation, payouts and other payments anywhere in between: right after a Confirm, received amount, confirmations, intent status and session status depend only on the last report per hash |
| Confirmation.OrderDoesNotMatter | internal/services/checkoutsvc/service.go:641-709 | Two such runs that confirm the same reports with distinct hashes in different orders end with the same view |
| Confirmation.ReplayDoesNotMatter | internal/services/checkoutsvc/service.go:641-709 | Repeating the last report about a transaction, whatever happened since the last Confirm, brings back the view that Confirm left |
| Confirmation.ConfirmedPaymentIsSticky | internal/services/checkoutsvc/service.go:641-709 | Over every run with faithful reports and no balance shortcut for the intent: the confirmed sum never falls, confirmed_at never changes, and once set the intent stays confirmed, overpaid or settled and its session paid |
| Confirmation.ConfirmedSumGrows | internal/services/checkoutsvc/service.go:641-668 | A report that keeps its amount and does not lower its confirmations cannot lower the confirmed-only sum |
| ChainObserver.ChainObserver.ExpireOldIntents | internal/platform/workers/chain_observer.go:517-550 | In one transaction or not at all: exactly the unlocked intents in created, awaiting funds or partial whose expiry has passed become expired, their sessions too, with one event each; nothing else changes |
| ChainObserver.ExpireRows | internal/platform/workers/chain_observer.go:537-545 | The row loop computes the simultaneous update of all selected rows |
| ChainObserver.ChainObserver.ConfirmObservedBalance | internal/platform/workers/chain_observer.go:412-466 | Overwrites intent and session from the observed balance, bypassing the ledger: awaiting funds, partial, confirmed or overpaid iff the balance is not positive, below the minimum, inside the band or above it; it answers true iff a paid status was committed |
| ChainObserver.ChainObserver.CancelCheckout | internal/gateway/conversion_handlers.go:79-91 | Cancels the session iff it is not paid and none of its intents is confirmed, overpaid or settled |
| Pricing.ComputeBounds | internal/domain/payment/pricing.go:8-22 | Both bounds are non-negative and the minimum never exceeds the maximum |
| Pricing.BoundsNearUnrounded | internal/domain/payment/pricing.go:8-22 | Negative arguments count as zero; each bound is the multiple of 1e-8 nearest to the expected amount less or plus its percentage, the upper of two equally near; the minimum is zero from 100 percent on |
| Pricing.BoundsMonotoneInExpected | internal/domain/payment/pricing.go:8-22 | Both bounds grow with the expected amount |
| Pricing.BandWidensWithTolerance | internal/domain/payment/pricing.go:8-22 | A larger tolerance lowers the minimum and raises the maximum |
| Pricing.StatusMonotoneInReceived | internal/domain/payment/pricing.go:24-45 | At full confirmations a larger payment never has a lower status |
| Pricing.ExactPaymentConfirmedIff | internal/domain/payment/pricing.go:8-58 | Paying exactly the expected amount is "confirmed" iff the tolerance, in units of 1e-8, covers the distance to where the amount rounds the other way |
| Pricing.ExactPaymentConfirmed | internal/domain/payment/pricing.go:8-58 | In particular when expected*tolerance/100 >= 5e-9 or the amount is a multiple of 1e-8 |
| Pricing.ExactPaymentCanBeOverpaid | internal/domain/payment/pricing.go:24-58 | Otherwise not always: exactly 1.000000001 with no tolerance is "overpaid" |
| Subscriptions.StaleSnapshotIsSafe | internal/platform/workers/subscription_scheduler.go:48-109 | Charging all rows from one snapshot equals charging them one at a time with fresh reads, in any order |
| Subscriptions.ChargedWhenDue | internal/platform/workers/subscription_scheduler.go:48-104 | Over runs: every paid or failed cycle became so in a pass made at or after its due date, which found it due and its subscription active, and changed nothing else of it |
| Subscriptions.EffectCharges | internal/platform/workers/subscription_scheduler.go:48-104 | A pass over the selected rows debits or fails every waiting cycle, that is due, dated not after now and of an active subscription, and changes no other account |
| Subscriptions.OneDueCycle | migrations/000007_init.up.sql:286-302 | A subscription has at most one due cycle, and it is its last one |
| Subscriptions.VaultLedger | internal/platform/workers/subscription_scheduler.go:74-102 | Remaining balance plus paid cycles equals the initial balance; it never goes negative; at most floor(initial / amount) cycles are ever paid |
| Subscriptions.CycleTimeline | internal/platform/workers/subscription_scheduler.go:77-96 | Indices are 1..n, all but the last are paid, the last is due or failed, periods join, next_billing_at is the last due date, and due dates strictly increase iff the interval advances |
| Subscriptions.InsertNeverConflicts | internal/platform/workers/subscription_scheduler.go:84-88 | The next index is always free, so ON CONFLICT never fires |
| Subscriptions.FailedDebitIsFinal | internal/platform/workers/subscription_scheduler.go:55-102 | A failed cycle is never charged again, nothing is debited after it, and past_due is unreachable |
| Subscriptions.PaidCharge | internal/platform/workers/subscription_scheduler.go:77-88 | A covered debit keeps the account invariant and appends exactly one cycle |
| Subscriptions.FailedCharge | internal/platform/workers/subscription_scheduler.go:98-102 | A refused debit keeps the account invariant |
| SubscriptionScheduler.SubscriptionTables.Process | internal/platform/workers/subscription_scheduler.go:40-114 | One pass from a stale snapshot commits the state that fresh reads would have given, or nothing: every active account with an unlocked due cycle dated not after now is debited its amount, the cycle paid and the next one appended, starting where it ends, if an active vault covers it, and otherwise only that cycle fails; no other account changes |
| SubscriptionScheduler.ChargeRow | internal/platform/workers/subscription_scheduler.go:74-102 | The statements for one row, column by column: debit the balance read, pay the cycle and append the next one unless its index is taken; or fail the cycle with one more retry, past due from the third on |
| SubscriptionScheduler.SubscriptionTables.CreateSubscription | internal/services/checkoutsvc/service.go:885-1025 | Rejects exactly the malformed requests, condition by condition; otherwise, if the transaction commits, a new active account with one due cycle, on the date asked for or one interval from now, and the balance given or else the maximum |
| SubscriptionScheduler.ReadTerms | internal/services/checkoutsvc/service.go:886-950 | The sequence of checks accepts exactly the well-formed requests and reads their terms |
| SubscriptionScheduler.SubscriptionTables.PauseSubscription | internal/services/checkoutsvc/service.go:1027-1048 | Invalid ids, a failed statement, no active subscription of that merchant, or done; only its status changes |
| SubscriptionScheduler.SubscriptionTables.ResumeSubscription | internal/services/checkoutsvc/service.go:1050-1071 | The same for a paused or past due subscription |
| Calendar.NextDateIsLaterIff | internal/platform/workers/common.go:27-39 | The next date is later iff the interval, wrapped to 64-bit nanoseconds, is positive; months always are |
| Calendar.OrdinaryIntervalsAdvance | internal/platform/workers/common.go:27-39 | Up to 106751 days or 15250 weeks it is, by exactly that many times 24 or 168 hours |
| Calendar.MonthsKeepTheDay | internal/platform/workers/common.go:27-39 | Months keep the time of day and the distance from the first of the month, overflowing into the next one |
| Calendar.Gregorian | internal/platform/workers/common.go:27-39 | Months have their Gregorian lengths, leap years included, and the count of days starts at 1 January 1970 |
| Calendar.ShortMonthOverflows | internal/platform/workers/common.go:27-39 | For instance one month after 31 January 2023 is 3 March |
| Calendar.LongIntervalGoesBack | internal/platform/workers/common.go:27-39 | 106752 days wraps around: the next date lies in the past |
| Outbox.RelayGuarantees | internal/platform/workers/outbox_relay.go:57-111 | With rollback after any prefix of any batch: a published row was put on the bus; every message of a row has the subject "events." and its trimmed type, and its payload; copies are at most one plus the rolled-back batches containing it; retry_count is the number of committed failures |
| Outbox.ConfirmedEventIsRelayed | internal/platform/workers/outbox_relay.go:86-107 | For instance a payment.confirmed event is put on events.payment.confirmed with its payload |
| Outbox.PublishedIsFinal | internal/platform/workers/outbox_relay.go:57-111 | Rows are never lost or altered, and a row committed as published is never put on the bus again |
| Outbox.PublishAllOutcome | internal/platform/workers/outbox_relay.go:86-107 | Within a batch, an event is sent at most once and, unless the transaction aborted, ends published and sent or failed with one more retry |
| Outbox.Select | internal/platform/workers/outbox_relay.go:57-64 | The batch is the oldest hundred of the relayable, unlocked rows, oldest first, or all of them |
| Outbox.OutboxRelay.PublishBatch | internal/platform/workers/outbox_relay.go:86-107 | The loop with its early exit computes the batch specification for any pattern of publish and update failures |
| Outbox.OutboxRelay.Process | internal/platform/workers/outbox_relay.go:45-112 | The batch is the oldest hundred of the unlocked, available rows that are pending or failed; new messages are those the bus accepted, by subject and payload; if all updates and the commit succeed each accepted event is published and sent once and each refused one failed with one more retry and a delay of two seconds per retry; otherwise the rows stay as they were; the guarantees are kept |
| EmailDispatch.SentAtMostOnce | internal/platform/workers/email_dispatcher.go:327-391 | For every interleaving of duplicated deliveries and polls, the sender is called at most once per event, template and recipient; a row marked sent or failed was attempted exactly once, with that answer |
| EmailDispatch.DeliverableIff | internal/platform/workers/email_dispatcher.go:327-373 | In every reachable state the sender has accepted the e-mail or still can, iff it has accepted it, the key has no row, or a live handler has just reserved it |
| EmailDispatch.LostIff | internal/platform/workers/email_dispatcher.go:327-391 | An e-mail can never be accepted any more iff its only send was answered with an error, or its handler stopped between reserving and sending |
| EmailDispatch.StoppedAfterReserving | internal/platform/workers/email_dispatcher.go:327-373 | The one happens for any e-mail: its handler stops right after reserving it |
| EmailDispatch.FailedSendIsFinal | internal/platform/workers/email_dispatcher.go:337-350 | So does the other: after one failed send the row is marked failed and nothing brings the e-mail back, although no handler stopped |
| EmailDispatcher.EmailDispatcher.DispatchOne | internal/platform/workers/email_dispatcher.go:328-353 | One recipient, with other handlers in between unless it is quiet: a row that this handler inserts is sent to, and the call carries what the sender answered; when quiet, exactly when there was no row, and the row ends sent or failed with one attempt, or pending when that could not be recorded |
| EmailDispatcher.EmailDispatcher.Dispatch | internal/platform/workers/email_dispatcher.go:327-355 | The recipient loop: no key is sent to twice; it succeeds iff every insert does, and then every recipient has a row; every row that this handler inserted has been sent to; when nothing interferes, every recipient without a row is called for once and gets the row its answers give, and existing rows stay |
| EmailDispatcher.EmailDispatcher.ReserveNotification | internal/platform/workers/email_dispatcher.go:357-373 | Reserved iff the statement succeeded and the key was free |
| EmailDispatcher.EmailDispatcher.MarkNotification | internal/platform/workers/email_dispatcher.go:375-391 | Counts the attempt and records its result, or (the error being only logged) nothing |
| EmailDispatcher.EmailDispatcher.NotifyParties | internal/platform/workers/email_dispatcher.go:287-325 | Customer and merchant, once if they are the same after normalisation: each has a row, and one that had none has been sent to, unless another handler inserted the row meanwhile |
| Email.UniqueRecipients | internal/platform/workers/email_dispatcher.go:472-487 | The recipients are distinct and exactly the normalised non-empty values |
| Email.NormalizeMeaning | internal/platform/workers/email_dispatcher.go:472-487 | Normalising takes away the outer blanks and replaces each capital by its small letter, nothing else |
| Email.RecipientsInFirstOccurrenceOrder | internal/platform/workers/email_dispatcher.go:472-487 | An earlier recipient was named before every mention of a later one |
| Email.UniqueEmails | internal/platform/workers/email_dispatcher.go:472-487 | The loop computes that list |
| Ulid.EncodeDecodes | internal/shared/ids/ids.go:56-70 | Base-32 decoding recovers the entropy always and the time iff it is below 2^50 |
| Ulid.DecodeEncodes | internal/shared/ids/ids.go:56-70 | Conversely every string of 26 digits is the encoding of the time and entropy read from it |
| Ulid.EncodeInjective | internal/shared/ids/ids.go:20-30 | Two ids are equal iff their times and entropies are |
| Ulid.IdsSortByTime | internal/shared/ids/ids.go:20-30 | ASCII order of ids is the order of (time, entropy) |
| Ulid.EncodedIsCanonical | internal/shared/ids/ids.go:32-54 | Every encoded id is valid and a fixed point of Parse |
| Ulid.ParseIsIdempotent | internal/shared/ids/ids.go:32-38 | Parse accepts iff the trimmed text is 26 digits of the alphabet in either case; its result is the same digits in capitals and parses to itself |
| Ulid.FirstDigitIffTimeFits48Bits | internal/shared/ids/ids.go:32-54 | The first digit is at most 7 iff the time is below 2^48; Parse accepts either way |
| Ulid.New | internal/shared/ids/ids.go:20-30 | The two buffer loops produce the encoding |
| Ulid.EncodeTime | internal/shared/ids/ids.go:56-61 | The digit loop writes the ten digits of the time and nothing else |
| Ulid.EncodeRandom | internal/shared/ids/ids.go:63-70 | The digit loop over the two-word integer writes the sixteen digits of the entropy and nothing else |
| Ulid.BigInt80.SetBytes | internal/shared/ids/ids.go:86-91 | hi and lo together hold the big-endian value of the ten bytes |
| Ulid.BigInt80.Mod32 | internal/shared/ids/ids.go:93-95 | The low five bits are the remainder of the 80-bit value |
| Ulid.BigInt80.Div32 | internal/shared/ids/ids.go:97-100 | Shifting across the words is exact division of the 80-bit value by 32 |
| Ulid.IsValid | internal/shared/ids/ids.go:40-54 | The loop accepts 26 characters that are digits of the alphabet in either case |
| Base32.AlphabetExactly | internal/shared/ids/ids.go:72-79 | The character ranges are exactly the alphabet |
| Base32.DecodeDigits | internal/shared/ids/ids.go:56-61 | Digits decode to the number modulo the power of 32 |
| Base32.OrderAgrees | internal/shared/ids/ids.go:56-70 | Lexicographic order of equally long digit strings is numeric order |
| LogScan.FilterTransferLogs | internal/platform/workers/chain_observer.go:362-396 | Terminates without unsigned wrap-around; windows tile downwards from the head without gap or overlap and reach at most 50000 blocks down; each window above that depth spans 10000 blocks, or 1000 when the name contains "hyper", the last one at most that (one block more only for [0, chunk]); at most 50000/chunk + 1 queries; the windows above the last were empty, and the scan stops at the first one with logs, at the floor or at a failed query |
| LogScan.WindowsPartition | internal/platform/workers/chain_observer.go:372-395 | Each block from the lowest window up to the head is in exactly one window |
| DepositReport.ScanReturnsNewest | internal/platform/workers/chain_observer.go:372-395 | A successful scan returns all matches from its last window up, and is empty iff the whole range is |
| DepositReport.ChunkOfBlock | internal/platform/workers/chain_observer.go:372-395 | A block is below, in or above the last window as its chunk number, counted from the head, is larger, equal or smaller than the number of windows above |
| DepositReport.StopsAtNewest | internal/platform/workers/chain_observer.go:392-394 | A successful scan stops in the chunk of the newest matching block |
| DepositReport.ScanIsCompleteIff | internal/platform/workers/chain_observer.go:372-395 | A successful scan returns all matches of the range iff all matching blocks fall in one chunk counted from the head |
| DepositReport.Fold | internal/platform/workers/chain_observer.go:323-340 | A report iff the amounts sum to more than zero: it carries that sum, the last hash, and the least head - block + 1 of the logs with data |
| DepositReport.Observe | internal/platform/workers/chain_observer.go:311-340 | The windows are those of the scan, and the report is what the fold makes of the last one, or nothing when its query failed; its confirmations count the blocks from the highest one of that window with a transfer of data up to the head, and lie in 1..50001, so neither conversion truncates |
| DepositReport.ReportIsCompleteIff | internal/platform/workers/chain_observer.go:311-340 | The report carries the whole amount of the range iff no block with an amount is in an older chunk than a later matching block |
| DepositReport.ReportedShare | internal/platform/workers/chain_observer.go:311-340 | The amount of the range is that of the report plus what lies below the last window |
| DepositReport.OlderBlockIsMissed | internal/platform/workers/chain_observer.go:311-340 | With logs in two blocks of different chunks, the report carries the newer amount only |
| DepositLedger.OneTransaction | internal/platform/workers/chain_observer.go:249-284 | When an intent is confirmed only by scans made while nothing was received and by repeats of the recorded transaction, its ledger never holds more than one transaction |
| DepositLedger.FirstReportIsFinal | internal/platform/workers/chain_observer.go:249-284 | Then the amount of the first report accepted is all that the ledger ever holds, whatever arrives later |
| DepositLedger.LedgerIsWholeIff | internal/platform/workers/chain_observer.go:249-355 | So the ledger holds what has arrived by a later block iff the scan missed no older chunk and nothing arrived after its head |
| DepositReport.TransferIsMissed | internal/platform/workers/chain_observer.go:311-340 | For instance 7 of 12 units, with one confirmation, when 5 arrived in block 1 and 7 in block 20000, the head, of a chain with chunks of 10000 |
| Amounts.WorkerAcceptsExactly | internal/platform/workers/payout_executor.go:373-413 | The worker returns n for precisely the texts whose number times 10^decimals is the positive integer n |
| Amounts.WorkerRejectsExactly | internal/platform/workers/payout_executor.go:373-413 | Each of its errors is given in exactly one situation: negative decimals, blank, not a plain numeral, zero, or no such integer |
| Amounts.WorkerReads | internal/platform/workers/payout_executor.go:373-413 | Told from the text: it accepts iff the trimmed text is digits with at most one point, not all zero, and its fraction without trailing zeros fits the decimals |
| Amounts.GatewayAcceptsExactly | internal/gateway/checkout_handlers.go:274-309 | On all texts the gateway accepts iff the text has at most one point, spaces around the parts, at most two plus signs before the whole part, otherwise digits, and no more of them after the point than decimals (and some digit, if only by padding); it then returns the number that the digits write |
| Amounts.GatewayOnPlainText | internal/gateway/checkout_handlers.go:274-309 | On texts of digits and points it returns n iff the text denotes n and has no more fraction digits than decimals, zero included |
| Amounts.GatewayIsExact | internal/gateway/checkout_handlers.go:274-309 | On any text it accepts, signs and spaces included, the result is non-negative and exactly the number its digits write |
| Amounts.ParsersAgree | internal/gateway/checkout_handlers.go:274-309 | On every text both parsers accept they return the same amount |
| Amounts.GatewayAmountIsPayable | internal/platform/workers/payout_executor.go:373-413 | On digits and points, a non-zero amount the gateway accepts is accepted by the worker with the same value |
| Amounts.BothAcceptExactly | internal/gateway/checkout_handlers.go:274-309 | Both parsers accept a text iff, trimmed, it is digits with at most one point, not all zero, and its fraction is no longer than the decimals |
| Amounts.WorkerAcceptsThenGateway | internal/gateway/checkout_handlers.go:297-299 | A text the worker accepts is accepted by the gateway iff its fraction, trailing zeros included, is no longer than the decimals |
| Amounts.GatewayAcceptsThenWorker | internal/platform/workers/payout_executor.go:381-408 | A text the gateway accepts is accepted by the worker iff, trimmed, it is digits and a point and not all zero |
| Amounts.ParsersDiffer | internal/gateway/checkout_handlers.go:285-306 | Witnesses of the three differences: a second plus sign, a zero amount, zeros beyond the decimals |
| TokenFormat.PrintThenParse | internal/gateway/checkout_handlers.go:215-223 | Printing n base units and parsing back gives n, in both parsers, iff there are decimals or n does not end in a zero (or, in the gateway, is zero) |
| TokenFormat.FormatDenotes | internal/gateway/checkout_handlers.go:215-223 | With decimals the printed text denotes exactly n |
| TokenFormat.FormatIsShortest | internal/gateway/checkout_handlers.go:215-223 | With decimals nothing can be left out of the text: no zeros or point at its end, and no leading zero but a single one |
| Decimal.DenotesOne | internal/platform/workers/payout_executor.go:373-413 | A text denotes at most one number of base units |
| Decimal.NumeralsAreDecimal | internal/platform/workers/payout_executor.go:373-413 | Numerals are read in base ten |

## Left out

- Amounts are exact reals (exact integers for base units); float64 rounding in sums and conversions and the 18-digit rounding of NUMERIC columns are not modelled. strconv.FormatFloat is an exact fixed-point printer.
- Each database transaction is one atomic step that commits or leaves the state as it was; a failed commit is a rollback. This is an assumption: at the default isolation level two concurrent Confirms of one intent can each aggregate without the other's uncommitted row, and the later UPDATE then overwrites the sum of the earlier (internal/services/checkoutsvc/service.go:641-709).
- Statements whose errors are dropped inside a transaction, several of them under an open row cursor (`_, _ = tx.Exec`, in expiry, claiming, scheduling and the subscription pass), are taken to have their intended effect. So is the cancel statement, which runs on its own.
- One payout worker. Claims are committed before execution, so with several workers two of them can execute the same item and the once-only results do not hold.
- Columns without influence on these results: tx_hash, block numbers and addresses of transfers, the latest hash of an intent, settled_at, last_error, provider ids, invoices, raw payloads.
- Primary keys are integers that are not taken yet; ids in requests are given as what they parse to, if anything.
- The order of payout items within a payout (created_at) is arbitrary; SKIP LOCKED leaves out an arbitrary set of rows, and a row that cannot be scanned counts as locked.
- The executor, the chain RPC, the bus, the mail sender and the clock are oracles; their calls are recorded where a result speaks of them.
- Database.Database.Interference: the transactions of the other services between two statements of the worker are known to it only through this contract.
- EmailDispatcher.EmailDispatcher.Interference: the same for concurrent handlers.
- DepositLedger.LedgerIsWholeIff: the guard on the received amount, read when the addresses are selected, is taken to hold still when the report is confirmed; confirmations that customers or merchants submit are not among those it considers.
- Outbox rows written by the subscription pass and by subscription creation are not part of the subscription model.
- Outbox.PublishedIsFinal: a row that is relayed twice at the same time cannot occur, because the batch is locked; several relays are not modelled beyond that lock.
- Envelope JSON, templates, attachments and the queries that find the recipients of an event are not modelled; a poll of the outbox is one more delivery.
- Text is ASCII: Unicode spaces and case mappings in TrimSpace, ToUpper and ToLower are not modelled.
- Shifts, masks and disjoint ors on the ULID words are written as arithmetic; the random source and the clock are parameters.
- Ulid.BigInt80.SetBytes: is stated for a fresh integer, the only way it is called.
- AddDate is modelled in UTC on the proleptic Gregorian calendar; the range of time.Time is unbounded.
- DepositReport.Observe: the node's logs and the head do not change during one scan, and log data is one big-endian number.
- Pausing, past due and cancelled subscriptions: there is no operation that revokes a vault authorization, so it stays active.
- That only confirmed funds are paid out, that "settled" is final, and that three failed debits make a subscription past due are not stated: Confirmation.PayableIff and Subscriptions.FailedDebitIsFinal say what holds instead.
- Link validation, token allow-lists, quotes, deposit wallets, HTTP and gRPC plumbing, webhooks, statistics and the earlier monolith under internal/api.
