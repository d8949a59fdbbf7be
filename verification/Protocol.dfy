/** Every committed transaction on the shared tables, as one step of a state machine, and the payout worker's own
    position between its statements. `Step` is total: an action whose guard fails leaves the state as it is, which is
    also what a failed or rolled-back transaction does. */
module Protocol {
  import opened Sums
  import opened Pricing
  import opened Tables

  /** One report to ConfirmCheckoutSession. */
  datatype Report = Report(tx: TxHash, amount: real, confirmations: int)

  // ---- ConfirmCheckoutSession ----

  ghost function LedgerOf(db: Db, intent: Id): Ledger {
    if intent in db.ledger then db.ledger[intent] else map[]
  }

  function Upsert(ledger: Ledger, report: Report): Ledger {
    ledger[report.tx := Transfer(report.amount, report.confirmations)]
  }

  /** First stage: what the sufficiently confirmed transfers alone amount to. */
  ghost function ConfirmedStatus(intent: Intent, ledger: Ledger): IntentStatus {
    ResolveIntentStatus(intent.expected, ConfirmedReceived(ledger, intent.required), intent.tolerance,
                        intent.required, intent.required)
  }

  /** Second stage, used only when the first is not a paid status: everything seen so far. */
  ghost function FallbackStatus(intent: Intent, ledger: Ledger): IntentStatus {
    ResolveIntentStatus(intent.expected, TotalReceived(ledger), intent.tolerance,
                        MinConfirmations(ledger), intent.required)
  }

  ghost function NewStatus(intent: Intent, ledger: Ledger): IntentStatus {
    if IsPaid(ConfirmedStatus(intent, ledger)) then ConfirmedStatus(intent, ledger) else FallbackStatus(intent, ledger)
  }

  function SessionStatusFor(paid: bool, status: IntentStatus): SessionStatus {
    if paid then SessionPaid
    else if status == Expired || status == Failed then SessionFailed
    else SessionAwaiting
  }

  function FirstTime(confirmedAt: Option<int>, paid: bool, now: int): Option<int> {
    if confirmedAt == None && paid then Some(now) else confirmedAt
  }

  ghost function ConfirmedIntent(intent: Intent, ledger: Ledger, now: int): Intent {
    intent.(status := NewStatus(intent, ledger),
            received := TotalReceived(ledger),
            confirmations := MinConfirmations(ledger),
            confirmedAt := FirstTime(intent.confirmedAt, IsPaid(ConfirmedStatus(intent, ledger)), now))
  }

  ghost function ConfirmTx(db: Db, id: Id, report: Report): Db
    requires id in db.intents
  {
    var intent := db.intents[id];
    var ledger := Upsert(LedgerOf(db, id), report);
    var paid := IsPaid(ConfirmedStatus(intent, ledger));
    var status := NewStatus(intent, ledger);
    db.(ledger := db.ledger[id := ledger],
        intents := db.intents[id := ConfirmedIntent(intent, ledger, db.now)],
        sessions := db.sessions[intent.session := SessionStatusFor(paid, status)],
        outbox := db.outbox + [PaymentDetected(id, status)] + (if paid then [PaymentConfirmed(id)] else []))
  }

  // ---- The other services ----

  function CreateTx(db: Db, session: Id, id: Id, intent: Intent): Db {
    db.(sessions := db.sessions[session := SessionAwaiting],
        intents := db.intents[id := intent],
        ledger := db.ledger[id := map[]],
        addresses := db.addresses[id := AddressActive],
        outbox := db.outbox + [IntentCreated(id)])
  }

  predicate NewIntent(intent: Intent, session: Id) {
    intent.session == session && intent.status == AwaitingFunds && intent.received == 0.0
    && intent.confirmations == 0 && intent.confirmedAt == None
  }

  /** The balance shortcut: the on-chain balance is taken as fully confirmed, bypassing the ledger. */
  function BalanceTx(db: Db, id: Id, observed: real): Db
    requires id in db.intents
  {
    var intent := db.intents[id];
    var status := ResolveIntentStatus(intent.expected, observed, intent.tolerance, intent.required, intent.required);
    var paid := IsPaid(status);
    db.(intents := db.intents[id := intent.(status := status, received := observed, confirmations := intent.required,
                                            confirmedAt := FirstTime(intent.confirmedAt, paid, db.now))],
        sessions := db.sessions[intent.session := SessionStatusFor(paid, status)],
        outbox := db.outbox + [PaymentDetected(id, status)] + (if paid then [PaymentConfirmed(id)] else []))
  }

  predicate Overdue(db: Db, id: Id) {
    id in db.intents && db.intents[id].status in {Created, AwaitingFunds, Partial} && db.intents[id].expiresAt < db.now
  }

  /** The rows are those the locking query returned: some of the overdue intents, in any order. */
  function ExpireTx(db: Db, rows: seq<Id>): Db
    requires forall id | id in rows :: id in db.intents
  {
    db.(intents := map id | id in db.intents ::
                     if id in rows then db.intents[id].(status := Expired) else db.intents[id],
        sessions := map s | s in db.sessions ::
                      if exists id | id in rows :: db.intents[id].session == s then SessionExpired else db.sessions[s],
        outbox := db.outbox + seq(|rows|, i requires 0 <= i < |rows| => PaymentExpired(rows[i])))
  }

  predicate Cancelable(db: Db, session: Id) {
    && session in db.sessions
    && db.sessions[session] != SessionPaid
    && forall id | id in db.intents && db.intents[id].session == session :: !IsPaid(db.intents[id].status)
  }

  // ---- Scheduling ----

  predicate Payable(status: IntentStatus) {
    status == Confirmed || status == Overpaid
  }

  predicate Unscheduled(db: Db, intent: Id) {
    forall k | k in db.items :: db.items[k].intent != intent
  }

  predicate Eligible(db: Db, intent: Id) {
    intent in db.intents && Payable(db.intents[intent].status) && Unscheduled(db, intent)
  }

  /** A new payout item and the intent it pays. */
  datatype Pick = Pick(item: Id, intent: Id)

  predicate Schedulable(db: Db, payout: Id, group: Group, picks: seq<Pick>) {
    && payout !in db.payouts
    && (forall i | 0 <= i < |picks| ::
          && picks[i].item !in db.items
          && Eligible(db, picks[i].intent)
          && db.intents[picks[i].intent].group == group)
    && (forall i, j | 0 <= i < j < |picks| :: picks[i].item != picks[j].item && picks[i].intent != picks[j].intent)
  }

  function AddItems(items: map<Id, Item>, intents: map<Id, Intent>, payout: Id, picks: seq<Pick>): map<Id, Item>
    requires forall p | p in picks :: p.intent in intents
  {
    if picks == [] then items else
      var n := |picks| - 1;
      AddItems(items, intents, payout, picks[..n])
        [picks[n].item := Item(payout, picks[n].intent, intents[picks[n].intent].received, ItemPending)]
  }

  function PickedTotal(intents: map<Id, Intent>, picks: seq<Pick>): real
    requires forall p | p in picks :: p.intent in intents
  {
    if picks == [] then 0.0 else
      PickedTotal(intents, picks[..|picks| - 1]) + intents[picks[|picks| - 1].intent].received
  }

  function ScheduleTx(db: Db, payout: Id, group: Group, picks: seq<Pick>): Db
    requires forall p | p in picks :: p.intent in db.intents
  {
    db.(payouts := db.payouts[payout := Payout(group, Scheduled, db.now, PickedTotal(db.intents, picks), 0)],
        items := AddItems(db.items, db.intents, payout, picks))
  }

  // ---- Claiming, executing and finishing ----

  /** What the worker remembers of a claimed payout. */
  datatype Work = Work(payout: Id, group: Group, total: real)

  /** What the worker remembers of one item to execute. */
  datatype Row = Row(item: Id, intent: Id, amount: real)

  predicate Due(db: Db, payout: Id) {
    payout in db.payouts && db.payouts[payout].status != Completed && db.payouts[payout].scheduleAt <= db.now
  }

  predicate Claimable(db: Db, batch: seq<Id>) {
    NoDuplicates(batch) && forall p | p in batch :: p in db.payouts && Due(db, p)
  }

  function ClaimTx(db: Db, batch: seq<Id>): Db {
    db.(payouts := map p | p in db.payouts ::
          if p in batch then db.payouts[p].(status := Processing, attempts := db.payouts[p].attempts + 1)
          else db.payouts[p])
  }

  function WorkFor(db: Db, p: Id): Work
    requires p in db.payouts
  {
    Work(p, db.payouts[p].group, db.payouts[p].total)
  }

  function ClaimedWork(db: Db, batch: seq<Id>): seq<Work>
    requires forall p | p in batch :: p in db.payouts
  {
    seq(|batch|, i requires 0 <= i < |batch| => WorkFor(db, batch[i]))
  }

  /** The join that selects what is left to execute of a payout. */
  predicate Executable(db: Db, payout: Id, item: Id) {
    && item in db.items
    && db.items[item].payout == payout
    && db.items[item].status != ItemCompleted
    && db.items[item].intent in db.intents
    && Payable(db.intents[db.items[item].intent].status)
    && db.items[item].intent in db.addresses
  }

  predicate Loadable(db: Db, payout: Id, rows: seq<Id>) {
    && NoDuplicates(rows)
    && (forall k | k in rows :: Executable(db, payout, k))
    && (forall k | k in db.items && Executable(db, payout, k) :: k in rows)
  }

  function RowFor(db: Db, item: Id): Row
    requires item in db.items
  {
    Row(item, db.items[item].intent, db.items[item].amount)
  }

  function LoadedRows(db: Db, rows: seq<Id>): seq<Row>
    requires forall k | k in rows :: k in db.items
  {
    seq(|rows|, i requires 0 <= i < |rows| => RowFor(db, rows[i]))
  }

  function WithStatus(items: map<Id, Item>, item: Id, status: ItemStatus): map<Id, Item> {
    if item in items then items[item := items[item].(status := status)] else items
  }

  function SetItem(db: Db, item: Id, status: ItemStatus): Db {
    db.(items := WithStatus(db.items, item, status))
  }

  function BeginTx(db: Db, item: Id): Db {
    if item in db.items && db.items[item].status != ItemCompleted then SetItem(db, item, ItemProcessing) else db
  }

  function SettleIntent(intents: map<Id, Intent>, id: Id): map<Id, Intent> {
    if id in intents && Payable(intents[id].status) then intents[id := intents[id].(status := Settled)] else intents
  }

  function SweepAddress(addresses: map<Id, AddressStatus>, id: Id): map<Id, AddressStatus> {
    if id in addresses then addresses[id := AddressSwept] else addresses
  }

  function PersistTx(db: Db, row: Row): Db {
    db.(items := WithStatus(db.items, row.item, ItemCompleted),
        intents := SettleIntent(db.intents, row.intent),
        addresses := SweepAddress(db.addresses, row.intent))
  }

  predicate AllItemsCompleted(db: Db, payout: Id) {
    forall k | k in db.items && db.items[k].payout == payout :: db.items[k].status == ItemCompleted
  }

  function FinishTx(db: Db, work: Work): Db {
    if AllItemsCompleted(db, work.payout)
       && work.payout in db.payouts && db.payouts[work.payout].status != Completed then
      db.(payouts := db.payouts[work.payout := db.payouts[work.payout].(status := Completed)],
          outbox := db.outbox + [PayoutCompleted(work.payout, work.group, work.total)])
    else db
  }

  function RetryTx(db: Db, payout: Id): Db {
    if payout in db.payouts && db.payouts[payout].status != Completed
    then db.(payouts := db.payouts[payout := db.payouts[payout].(status := Scheduled)])
    else db
  }

  // ---- The machine ----

  /** One call of the executor and whether it reported success. */
  datatype Call = Call(item: Id, amount: real, ok: bool)

  /** Where the worker is: `queue` is what completeDuePayouts still has to process. */
  datatype Job =
    | Between
    | Items(work: Work, rows: seq<Row>, failed: bool)
    | Executing(work: Work, rows: seq<Row>, failed: bool, row: Row)
    | Persisting(work: Work, rows: seq<Row>, failed: bool, row: Row)
    | Failing(work: Work, rows: seq<Row>, row: Row)
    | Retrying(work: Work)

  datatype Worker = Worker(queue: seq<Work>, job: Job)

  /** The tables, the worker, and the history of executor calls. `lost` counts, per item, the successful calls whose
      result was never persisted. */
  datatype Sys = Sys(db: Db, worker: Worker, calls: seq<Call>, lost: multiset<Id>)

  datatype Action =
    | Create(session: Id, id: Id, intent: Intent)
    | Confirm(session: Id, merchant: Id, id: Id, report: Report)
    | ObserveBalance(id: Id, observed: real)
    | Expire(overdue: seq<Id>)
    | Cancel(session: Id)
    | Tick(to: int)
    | Schedule(payout: Id, group: Group, picks: seq<Pick>)
    | Claim(batch: seq<Id>)
    | Load(ok: bool, selected: seq<Id>)
    | SkipRow
    | StopRows
    | RejectRow
    | Begin(ok: bool)
    | Execute(ok: bool)
    | Persist(ok: bool)
    | MarkFailed(ok: bool)
    | Finish(ok: bool)
    | Retry(ok: bool)
    | Crash

  const Idle := Worker([], Between)

  const EmptyDb := Db(0, map[], map[], map[], map[], map[], map[], [])

  const Start := Sys(EmptyDb, Idle, [], multiset{})

  /** The session, merchant and intent that the request names belong together. */
  predicate Found(db: Db, session: Id, merchant: Id, id: Id) {
    id in db.intents && db.intents[id].session == session && db.intents[id].group.merchant == merchant
    && session in db.sessions
  }

  ghost function ServiceStep(db: Db, a: Action): Db {
    match a
    case Create(session, id, intent) =>
      if session !in db.sessions && id !in db.intents && NewIntent(intent, session)
      then CreateTx(db, session, id, intent) else db
    case Confirm(session, merchant, id, report) =>
      if Found(db, session, merchant, id) then ConfirmTx(db, id, report) else db
    case ObserveBalance(id, observed) =>
      if id in db.intents then BalanceTx(db, id, observed) else db
    case Expire(rows) =>
      if NoDuplicates(rows) && forall id | id in rows :: Overdue(db, id) then ExpireTx(db, rows) else db
    case Cancel(session) =>
      if Cancelable(db, session) then db.(sessions := db.sessions[session := SessionCanceled]) else db
    case Tick(to) =>
      if db.now <= to then db.(now := to) else db
    case _ => db
  }

  // The worker's actions. Each leaves the state as it is when the worker is not where the action starts.

  ghost function ScheduleStep(s: Sys, payout: Id, group: Group, picks: seq<Pick>): Sys {
    if s.worker == Idle && Schedulable(s.db, payout, group, picks)
    then s.(db := ScheduleTx(s.db, payout, group, picks)) else s
  }

  ghost function ClaimStep(s: Sys, batch: seq<Id>): Sys {
    if s.worker == Idle && Claimable(s.db, batch)
    then s.(db := ClaimTx(s.db, batch), worker := Worker(ClaimedWork(s.db, batch), Between)) else s
  }

  ghost function LoadStep(s: Sys, ok: bool, selected: seq<Id>): Sys {
    var w := s.worker;
    if w.job != Between || w.queue == [] then s
    else if !ok then s.(worker := Worker(w.queue[1..], Retrying(w.queue[0])))
    else if Loadable(s.db, w.queue[0].payout, selected)
    then s.(worker := Worker(w.queue[1..], Items(w.queue[0], LoadedRows(s.db, selected), false)))
    else s
  }

  function At(s: Sys, job: Job): Sys {
    s.(worker := s.worker.(job := job))
  }

  function SkipRowStep(s: Sys): Sys {
    match s.worker.job
    case Items(work, rows, failed) => if rows == [] then s else At(s, Items(work, rows[1..], true))
    case _ => s
  }

  function StopRowsStep(s: Sys): Sys {
    match s.worker.job
    case Items(work, rows, failed) => At(s, Items(work, [], true))
    case _ => s
  }

  function RejectRowStep(s: Sys): Sys {
    match s.worker.job
    case Items(work, rows, failed) => if rows == [] then s else At(s, Failing(work, rows[1..], rows[0]))
    case _ => s
  }

  function BeginStep(s: Sys, ok: bool): Sys {
    match s.worker.job
    case Items(work, rows, failed) =>
      if rows == [] then s
      else At(s, Executing(work, rows[1..], failed, rows[0])).(db := if ok then BeginTx(s.db, rows[0].item) else s.db)
    case _ => s
  }

  function ExecuteStep(s: Sys, ok: bool): Sys {
    match s.worker.job
    case Executing(work, rows, failed, row) =>
      At(s, if ok then Persisting(work, rows, failed, row) else Failing(work, rows, row))
        .(calls := s.calls + [Call(row.item, row.amount, ok)])
    case _ => s
  }

  function PersistStep(s: Sys, ok: bool): Sys {
    match s.worker.job
    case Persisting(work, rows, failed, row) =>
      if ok then At(s, Items(work, rows, failed)).(db := PersistTx(s.db, row))
      else At(s, Failing(work, rows, row)).(lost := s.lost + multiset{row.item})
    case _ => s
  }

  function MarkFailedStep(s: Sys, ok: bool): Sys {
    match s.worker.job
    case Failing(work, rows, row) =>
      At(s, Items(work, rows, true)).(db := if ok then SetItem(s.db, row.item, ItemFailed) else s.db)
    case _ => s
  }

  function FinishStep(s: Sys, ok: bool): Sys {
    match s.worker.job
    case Items(work, rows, failed) =>
      if rows != [] then s
      else At(s, if ok && !failed then Between else Retrying(work)).(db := if ok then FinishTx(s.db, work) else s.db)
    case _ => s
  }

  function RetryStep(s: Sys, ok: bool): Sys {
    match s.worker.job
    case Retrying(work) => At(s, Between).(db := if ok then RetryTx(s.db, work.payout) else s.db)
    case _ => s
  }

  /** The process dies; a result that was not yet persisted is lost. */
  function CrashStep(s: Sys): Sys {
    match s.worker.job
    case Persisting(_, _, _, row) => s.(lost := s.lost + multiset{row.item}, worker := Idle)
    case _ => s.(worker := Idle)
  }

  ghost function WorkerStep(s: Sys, a: Action): Sys {
    match a
    case Schedule(payout, group, picks) => ScheduleStep(s, payout, group, picks)
    case Claim(batch) => ClaimStep(s, batch)
    case Load(ok, selected) => LoadStep(s, ok, selected)
    case SkipRow => SkipRowStep(s)
    case StopRows => StopRowsStep(s)
    case RejectRow => RejectRowStep(s)
    case Begin(ok) => BeginStep(s, ok)
    case Execute(ok) => ExecuteStep(s, ok)
    case Persist(ok) => PersistStep(s, ok)
    case MarkFailed(ok) => MarkFailedStep(s, ok)
    case Finish(ok) => FinishStep(s, ok)
    case Retry(ok) => RetryStep(s, ok)
    case Crash => CrashStep(s)
    case _ => s
  }

  predicate IsService(a: Action) {
    a.Create? || a.Confirm? || a.ObserveBalance? || a.Expire? || a.Cancel? || a.Tick?
  }

  ghost function Step(s: Sys, a: Action): Sys {
    if IsService(a) then s.(db := ServiceStep(s.db, a)) else WorkerStep(s, a)
  }

  ghost function Run(s: Sys, actions: seq<Action>): Sys {
    if actions == [] then s else Step(Run(s, actions[..|actions| - 1]), actions[|actions| - 1])
  }

  /** `s` is the outcome of the run `trace`. The run is named through a bound variable, so that knowing the fact does
      not make the solver replay the run; ReachedIs gives the plain equation. */
  ghost predicate Reached(s: Sys, trace: seq<Action>) {
    forall t | t == trace :: s == Run(Start, t)
  }

  lemma ReachedIs(s: Sys, trace: seq<Action>)
    ensures Reached(s, trace) <==> s == Run(Start, trace)
  {}

  lemma ReachedStep(s: Sys, trace: seq<Action>, a: Action)
    requires Reached(s, trace)
    ensures Reached(Step(s, a), trace + [a])
  {
    ReachedIs(s, trace);
    RunAppend(Start, trace, a);
    ReachedIs(Step(s, a), trace + [a]);
  }

  /** How many actions of a trace are not the worker's. */
  function Services(trace: seq<Action>): nat {
    if trace == [] then 0 else
      Services(trace[..|trace| - 1]) + if IsService(trace[|trace| - 1]) then 1 else 0
  }

  /** `n` of its actions; bound like the run in Reached, and for the same reason. */
  ghost predicate Counted(trace: seq<Action>, n: nat) {
    forall t | t == trace :: n == Services(t)
  }

  lemma CountedStep(trace: seq<Action>, n: nat, a: Action)
    requires Counted(trace, n)
    ensures Counted(trace + [a], n + if IsService(a) then 1 else 0)
  {
    assert (trace + [a])[..|trace|] == trace;
    assert n == Services(trace);
  }

  predicate WorkerOnly(steps: seq<Action>) {
    forall a | a in steps :: !IsService(a)
  }

  /** When the count has not changed, only the worker acted. */
  lemma {:induction false} SameCount(before: seq<Action>, after: seq<Action>)
    requires before <= after
    ensures Services(before) <= Services(after)
    ensures Services(before) == Services(after) ==> WorkerOnly(after[|before|..])
  {
    if |after| > |before| {
      var n := |after| - 1;
      SameCount(before, after[..n]);
      assert after[|before|..] == after[..n][|before|..] + [after[n]];
    } else {
      assert after == before;
    }
  }

  lemma CountedSame(before: seq<Action>, after: seq<Action>, n: nat)
    requires before <= after && Counted(before, n) && Counted(after, n)
    ensures WorkerOnly(after[|before|..])
  {
    SameCount(before, after);
    assert n == Services(before) && n == Services(after);
  }

  lemma RunAppend(s: Sys, actions: seq<Action>, a: Action)
    ensures Run(s, actions + [a]) == Step(Run(s, actions), a)
  {
    assert (actions + [a])[..|actions|] == actions;
  }

  lemma {:induction false} RunConcat(s: Sys, first: seq<Action>, second: seq<Action>)
    ensures Run(s, first + second) == Run(Run(s, first), second)
  {
    if second == [] {
      assert first + second == first;
    } else {
      var n := |second| - 1;
      RunConcat(s, first, second[..n]);
      assert (first + second)[..|first + second| - 1] == first + second[..n];
    }
  }
}
