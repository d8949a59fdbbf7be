/** What every reachable state of the protocol satisfies, whatever the interleaving. */
module Invariants {
  import opened Sums
  import opened Pricing
  import opened Tables
  import opened Protocol

  // ---- The invariant ----

  ghost predicate Linked(db: Db) {
    && (forall i | i in db.intents :: db.intents[i].session in db.sessions && i in db.ledger && i in db.addresses)
    && (forall i | i in db.addresses :: i in db.intents)
    && (forall i, j | i in db.intents && j in db.intents && i != j :: db.intents[i].session != db.intents[j].session)
  }

  /** Items belong to an existing payout and intent of one group, and no intent has two. */
  ghost predicate ItemsLinked(db: Db) {
    && (forall k | k in db.items ::
          && db.items[k].payout in db.payouts
          && db.items[k].intent in db.intents
          && db.intents[db.items[k].intent].group == db.payouts[db.items[k].payout].group)
    && (forall k, l | k in db.items && l in db.items && k != l :: db.items[k].intent != db.items[l].intent)
  }

  ghost predicate HasCompletedItem(db: Db, intent: Id) {
    exists k :: k in db.items && db.items[k].intent == intent && db.items[k].status == ItemCompleted
  }

  /** An address is swept exactly when its intent's item is completed, and only such an intent can be settled. */
  ghost predicate Coherent(db: Db) {
    && (forall i | i in db.addresses :: db.addresses[i] == AddressSwept <==> HasCompletedItem(db, i))
    && (forall i | i in db.intents && db.intents[i].status == Settled :: HasCompletedItem(db, i))
  }

  ghost predicate Conserved(db: Db) {
    forall p | p in db.payouts :: db.payouts[p].total == Sum(ItemsOf(db.items, p))
  }

  /** How many payout.completed events name a payout. */
  function Completions(outbox: seq<Event>, payout: Id): nat {
    if outbox == [] then 0 else
      var e := outbox[|outbox| - 1];
      Completions(outbox[..|outbox| - 1], payout) + if e.PayoutCompleted? && e.payout == payout then 1 else 0
  }

  ghost predicate IsCompleted(db: Db, payout: Id) {
    payout in db.payouts && db.payouts[payout].status == Completed
  }

  ghost predicate Announced(db: Db) {
    && (forall p :: Completions(db.outbox, p) == if IsCompleted(db, p) then 1 else 0)
    && (forall p | IsCompleted(db, p) :: AllItemsCompleted(db, p))
    && (forall e | e in db.outbox && e.PayoutCompleted? ::
          e.payout in db.payouts && e.total == db.payouts[e.payout].total && e.group == db.payouts[e.payout].group)
  }

  ghost predicate DbInv(db: Db) {
    Linked(db) && ItemsLinked(db) && Coherent(db) && Conserved(db) && Announced(db)
  }

  predicate ItemDone(db: Db, item: Id) {
    item in db.items && db.items[item].status == ItemCompleted
  }

  ghost predicate WorkValid(db: Db, work: Work) {
    && work.payout in db.payouts
    && work.total == db.payouts[work.payout].total && work.group == db.payouts[work.payout].group
  }

  ghost predicate RowValid(db: Db, work: Work, row: Row) {
    && row.item in db.items
    && db.items[row.item].payout == work.payout
    && db.items[row.item].intent == row.intent
    && db.items[row.item].amount == row.amount
    && !ItemDone(db, row.item)
  }

  ghost predicate RowsValid(db: Db, work: Work, rows: seq<Row>) {
    && (forall r | r in rows :: RowValid(db, work, r))
    && (forall i, j | 0 <= i < j < |rows| :: rows[i].item != rows[j].item)
  }

  ghost predicate CurrentValid(db: Db, work: Work, rows: seq<Row>, row: Row) {
    RowValid(db, work, row) && forall r | r in rows :: r.item != row.item
  }

  ghost predicate JobValid(db: Db, job: Job) {
    match job
    case Between => true
    case Retrying(work) => WorkValid(db, work)
    case Items(work, rows, _) => WorkValid(db, work) && RowsValid(db, work, rows)
    case Executing(work, rows, _, row) =>
      WorkValid(db, work) && RowsValid(db, work, rows) && CurrentValid(db, work, rows, row)
    case Persisting(work, rows, _, row) =>
      WorkValid(db, work) && RowsValid(db, work, rows) && CurrentValid(db, work, rows, row)
    case Failing(work, rows, row) =>
      WorkValid(db, work) && RowsValid(db, work, rows) && CurrentValid(db, work, rows, row)
  }

  /** The worker's snapshot agrees with the tables, and nothing it is about to execute is completed. */
  ghost predicate WorkerInv(s: Sys) {
    (forall w | w in s.worker.queue :: WorkValid(s.db, w)) && JobValid(s.db, s.worker.job)
  }

  function Successes(calls: seq<Call>, item: Id): nat {
    if calls == [] then 0 else
      var c := calls[|calls| - 1];
      Successes(calls[..|calls| - 1], item) + if c.item == item && c.ok then 1 else 0
  }

  predicate InFlight(worker: Worker, item: Id) {
    worker.job.Persisting? && worker.job.row.item == item
  }

  /** Every successful call is accounted for: it completed the item, is being persisted, or its result was lost. */
  ghost predicate Accounted(s: Sys) {
    && (forall k :: Successes(s.calls, k) ==
          (if ItemDone(s.db, k) then 1 else 0) + (if InFlight(s.worker, k) then 1 else 0) + s.lost[k])
    && (forall c | c in s.calls :: c.item in s.db.items && c.amount == s.db.items[c.item].amount)
  }

  ghost predicate Inv(s: Sys) {
    DbInv(s.db) && WorkerInv(s) && Accounted(s)
  }

  // ---- Outbox bookkeeping ----

  lemma CompletionsAppend(outbox: seq<Event>, e: Event, p: Id)
    ensures Completions(outbox + [e], p)
            == Completions(outbox, p) + if e.PayoutCompleted? && e.payout == p then 1 else 0
  {
    assert (outbox + [e])[..|outbox|] == outbox;
  }

  lemma {:induction false} CompletionsOthers(outbox: seq<Event>, events: seq<Event>, p: Id)
    requires forall e | e in events :: !e.PayoutCompleted?
    ensures Completions(outbox + events, p) == Completions(outbox, p)
  {
    if events == [] {
      assert outbox + events == outbox;
    } else {
      var n := |events| - 1;
      CompletionsOthers(outbox, events[..n], p);
      CompletionsAppend(outbox + events[..n], events[n], p);
      assert outbox + events == outbox + events[..n] + [events[n]];
    }
  }

  /** A step that leaves payouts and items alone and sends no payout event keeps the payout side of the invariant. */
  lemma PayoutSideFrame(db: Db, db': Db, events: seq<Event>)
    requires Conserved(db) && Announced(db)
    requires db'.payouts == db.payouts && db'.items == db.items
    requires db'.outbox == db.outbox + events && forall e | e in events :: !e.PayoutCompleted?
    ensures Conserved(db') && Announced(db')
  {
    forall p
      ensures Completions(db'.outbox, p) == if IsCompleted(db', p) then 1 else 0
    {
      CompletionsOthers(db.outbox, events, p);
    }
    assert forall p | IsCompleted(db', p) :: IsCompleted(db, p) && AllItemsCompleted(db, p);
  }

  // ---- The other services keep it ----

  /** What the other services may do to the tables: add unpaid intents and rewrite statuses, but never settle one. */
  ghost predicate ServiceChange(db: Db, db': Db, events: seq<Event>) {
    && db'.payouts == db.payouts && db'.items == db.items
    && db'.outbox == db.outbox + events
    && (forall e | e in events :: !e.PayoutCompleted?)
    && (forall i | i in db.intents ::
          && i in db'.intents
          && db'.intents[i].group == db.intents[i].group
          && (db'.intents[i].status == Settled ==> db.intents[i].status == Settled))
    && (forall i | i in db.addresses :: i in db'.addresses && db'.addresses[i] == db.addresses[i])
    && (forall i | i in db'.intents && i !in db.intents :: db'.intents[i].status != Settled)
    && (forall i | i in db'.addresses && i !in db.addresses :: db'.addresses[i] == AddressActive)
  }

  lemma ServiceChangeKeepsDbInv(db: Db, db': Db, events: seq<Event>)
    requires DbInv(db) && Linked(db') && ServiceChange(db, db', events)
    ensures DbInv(db')
  {
    PayoutSideFrame(db, db', events);
    assert forall i :: HasCompletedItem(db', i) == HasCompletedItem(db, i);
    assert forall i | HasCompletedItem(db, i) :: i in db.intents;
  }

  lemma CreateKeepsDbInv(db: Db, session: Id, id: Id, intent: Intent)
    requires DbInv(db) && session !in db.sessions && id !in db.intents && NewIntent(intent, session)
    ensures DbInv(CreateTx(db, session, id, intent))
  {
    ServiceChangeKeepsDbInv(db, CreateTx(db, session, id, intent), [IntentCreated(id)]);
  }

  /** Rewriting one intent and its session, with or without a new ledger, as long as nothing becomes settled. */
  lemma PaymentChangeKeepsDbInv(db: Db, id: Id, updated: Intent, ledger: Ledger, session: SessionStatus,
                                events: seq<Event>)
    requires DbInv(db) && id in db.intents
    requires updated.session == db.intents[id].session && updated.group == db.intents[id].group
    requires updated.status != Settled
    requires forall e | e in events :: !e.PayoutCompleted?
    ensures DbInv(db.(ledger := db.ledger[id := ledger], intents := db.intents[id := updated],
                      sessions := db.sessions[updated.session := session], outbox := db.outbox + events))
  {
    var db' := db.(ledger := db.ledger[id := ledger], intents := db.intents[id := updated],
                   sessions := db.sessions[updated.session := session], outbox := db.outbox + events);
    ServiceChangeKeepsDbInv(db, db', events);
  }

  function DetectionEvents(id: Id, status: IntentStatus, paid: bool): (events: seq<Event>)
    ensures forall e | e in events :: !e.PayoutCompleted?
  {
    [PaymentDetected(id, status)] + (if paid then [PaymentConfirmed(id)] else [])
  }

  /** The writes of a Confirm as one change of the intent, its ledger, its session and the outbox. */
  lemma ConfirmIsChange(db: Db, id: Id, report: Report, ledger: Ledger, updated: Intent, paid: bool)
    requires id in db.intents
    requires ledger == Upsert(LedgerOf(db, id), report) && paid == IsPaid(ConfirmedStatus(db.intents[id], ledger))
    requires updated == ConfirmedIntent(db.intents[id], ledger, db.now)
    ensures updated.session == db.intents[id].session && updated.group == db.intents[id].group
    ensures updated.status != Settled
    ensures ConfirmTx(db, id, report)
            == db.(ledger := db.ledger[id := ledger], intents := db.intents[id := updated],
                   sessions := db.sessions[updated.session := SessionStatusFor(paid, updated.status)],
                   outbox := db.outbox + DetectionEvents(id, updated.status, paid))
  {
    assert db.outbox + DetectionEvents(id, updated.status, paid) == ConfirmTx(db, id, report).outbox;
  }

  lemma ConfirmKeepsDbInv(db: Db, id: Id, report: Report)
    requires DbInv(db) && id in db.intents
    ensures DbInv(ConfirmTx(db, id, report))
  {
    var ledger := Upsert(LedgerOf(db, id), report);
    var paid := IsPaid(ConfirmedStatus(db.intents[id], ledger));
    var updated := ConfirmedIntent(db.intents[id], ledger, db.now);
    ConfirmIsChange(db, id, report, ledger, updated, paid);
    PaymentChangeKeepsDbInv(db, id, updated, ledger, SessionStatusFor(paid, updated.status),
                            DetectionEvents(id, updated.status, paid));
  }

  lemma BalanceKeepsDbInv(db: Db, id: Id, observed: real)
    requires DbInv(db) && id in db.intents
    ensures DbInv(BalanceTx(db, id, observed))
  {
    var db' := BalanceTx(db, id, observed);
    var updated := db'.intents[id];
    var events := DetectionEvents(id, updated.status, IsPaid(updated.status));
    PaymentChangeKeepsDbInv(db, id, updated, db.ledger[id], db'.sessions[updated.session], events);
    assert db.ledger[id := db.ledger[id]] == db.ledger;
    assert db.outbox + events == db'.outbox;
  }

  lemma ExpireKeepsDbInv(db: Db, rows: seq<Id>)
    requires DbInv(db)
    requires forall id | id in rows :: id in db.intents && Overdue(db, id)
    ensures DbInv(ExpireTx(db, rows))
  {
    var db' := ExpireTx(db, rows);
    ServiceChangeKeepsDbInv(db, db', db'.outbox[|db.outbox|..]);
  }

  lemma CancelKeepsDbInv(db: Db, session: Id)
    requires DbInv(db) && Cancelable(db, session)
    ensures DbInv(db.(sessions := db.sessions[session := SessionCanceled]))
  {
    ServiceChangeKeepsDbInv(db, db.(sessions := db.sessions[session := SessionCanceled]), []);
  }

  lemma TickKeepsDbInv(db: Db, to: int)
    requires DbInv(db)
    ensures DbInv(db.(now := to))
  {
    ServiceChangeKeepsDbInv(db, db.(now := to), []);
  }

  lemma ServiceKeepsDbInv(db: Db, a: Action)
    requires DbInv(db) && IsService(a)
    ensures DbInv(ServiceStep(db, a))
    ensures ServiceStep(db, a).payouts == db.payouts && ServiceStep(db, a).items == db.items
  {
    match a
    case Create(session, id, intent) =>
      if session !in db.sessions && id !in db.intents && NewIntent(intent, session) {
        CreateKeepsDbInv(db, session, id, intent);
      }
    case Confirm(session, merchant, id, report) =>
      if Found(db, session, merchant, id) { ConfirmKeepsDbInv(db, id, report); }
    case ObserveBalance(id, observed) =>
      if id in db.intents { BalanceKeepsDbInv(db, id, observed); }
    case Expire(rows) =>
      if NoDuplicates(rows) && forall id | id in rows :: Overdue(db, id) { ExpireKeepsDbInv(db, rows); }
    case Cancel(session) =>
      if Cancelable(db, session) { CancelKeepsDbInv(db, session); }
    case Tick(to) => TickKeepsDbInv(db, to);
    case _ =>
  }

  // ---- Scheduling keeps it ----

  lemma SameItems(a: map<Id, Item>, b: map<Id, Item>, p: Id)
    requires forall k | k in a && a[k].payout == p :: k in b && b[k].payout == p && b[k].amount == a[k].amount
    requires forall k | k in b && b[k].payout == p :: k in a && a[k].payout == p
    ensures ItemsOf(a, p) == ItemsOf(b, p)
  {
    var m, n := ItemsOf(a, p), ItemsOf(b, p);
    assert forall k :: k in m <==> k in n;
    assert forall k | k in m :: m[k] == n[k];
  }

  /** The table `items'` is `items` and one pending item for each pick. */
  ghost predicate Picked(items: map<Id, Item>, items': map<Id, Item>, intents: map<Id, Intent>, payout: Id,
                         picks: seq<Pick>)
  {
    && (forall k | k in items :: k in items' && items'[k] == items[k])
    && (forall i | 0 <= i < |picks| ::
          picks[i].intent in intents && picks[i].item in items'
          && items'[picks[i].item] == Item(payout, picks[i].intent, intents[picks[i].intent].received, ItemPending))
    && (forall k | k in items' && k !in items :: exists i | 0 <= i < |picks| :: picks[i].item == k)
  }

  lemma PickOneMore(items: map<Id, Item>, before: map<Id, Item>, intents: map<Id, Intent>, payout: Id,
                    picks: seq<Pick>, next: Pick)
    requires Picked(items, before, intents, payout, picks)
    requires next.intent in intents && next.item !in items && forall i | 0 <= i < |picks| :: picks[i].item != next.item
    ensures Picked(items, before[next.item := Item(payout, next.intent, intents[next.intent].received, ItemPending)],
                   intents, payout, picks + [next])
  {
    var all := picks + [next];
    assert all[|picks|] == next;
    assert forall i | 0 <= i < |picks| :: all[i] == picks[i];
  }

  lemma {:induction false} AddItemsAt(items: map<Id, Item>, intents: map<Id, Intent>, payout: Id, picks: seq<Pick>)
    requires forall p | p in picks :: p.intent in intents
    requires forall i | 0 <= i < |picks| :: picks[i].item !in items
    requires forall i, j | 0 <= i < j < |picks| :: picks[i].item != picks[j].item
    ensures Picked(items, AddItems(items, intents, payout, picks), intents, payout, picks)
  {
    if picks != [] {
      var n := |picks| - 1;
      AddItemsAt(items, intents, payout, picks[..n]);
      assert picks == picks[..n] + [picks[n]];
      PickOneMore(items, AddItems(items, intents, payout, picks[..n]), intents, payout, picks[..n], picks[n]);
    }
  }

  lemma {:induction false} AddItemsSum(items: map<Id, Item>, intents: map<Id, Intent>, payout: Id, picks: seq<Pick>)
    requires forall p | p in picks :: p.intent in intents
    requires forall k | k in items :: items[k].payout != payout
    requires forall i | 0 <= i < |picks| :: picks[i].item !in items
    requires forall i, j | 0 <= i < j < |picks| :: picks[i].item != picks[j].item
    ensures Sum(ItemsOf(AddItems(items, intents, payout, picks), payout)) == PickedTotal(intents, picks)
  {
    if picks == [] {
      SameItems(items, map[], payout);
    } else {
      var n := |picks| - 1;
      var before := AddItems(items, intents, payout, picks[..n]);
      var amount := intents[picks[n].intent].received;
      AddItemsSum(items, intents, payout, picks[..n]);
      AddItemsAt(items, intents, payout, picks[..n]);
      assert picks[n].item !in before;
      SumInsert(ItemsOf(before, payout), picks[n].item, amount);
      assert ItemsOf(AddItems(items, intents, payout, picks), payout)
          == ItemsOf(before, payout)[picks[n].item := amount];
    }
  }

  lemma ScheduleKeepsItemsLinked(db: Db, payout: Id, group: Group, picks: seq<Pick>)
    requires DbInv(db) && Schedulable(db, payout, group, picks)
    ensures ItemsLinked(ScheduleTx(db, payout, group, picks))
  {
    var db' := ScheduleTx(db, payout, group, picks);
    AddItemsAt(db.items, db.intents, payout, picks);
    forall k | k in db'.items
      ensures k in db.items ||
        exists i | 0 <= i < |picks| ::
          picks[i].item == k && db'.items[k].intent == picks[i].intent && db'.items[k].payout == payout
    {}
  }

  lemma ScheduleKeepsTotals(db: Db, payout: Id, group: Group, picks: seq<Pick>)
    requires DbInv(db) && Schedulable(db, payout, group, picks)
    ensures Conserved(ScheduleTx(db, payout, group, picks))
  {
    var db' := ScheduleTx(db, payout, group, picks);
    AddItemsAt(db.items, db.intents, payout, picks);
    AddItemsSum(db.items, db.intents, payout, picks);
    forall p | p in db'.payouts && p != payout
      ensures db'.payouts[p].total == Sum(ItemsOf(db'.items, p))
    {
      SameItems(db.items, db'.items, p);
    }
  }

  lemma ScheduleKeepsDbInv(db: Db, payout: Id, group: Group, picks: seq<Pick>)
    requires DbInv(db) && Schedulable(db, payout, group, picks)
    ensures DbInv(ScheduleTx(db, payout, group, picks))
  {
    var db' := ScheduleTx(db, payout, group, picks);
    AddItemsAt(db.items, db.intents, payout, picks);
    ScheduleKeepsItemsLinked(db, payout, group, picks);
    ScheduleKeepsTotals(db, payout, group, picks);
    assert forall k :: ItemDone(db', k) == ItemDone(db, k);
    forall i ensures HasCompletedItem(db', i) == HasCompletedItem(db, i) {
      if HasCompletedItem(db', i) {
        var k :| k in db'.items && db'.items[k].intent == i && ItemDone(db', k);
        assert ItemDone(db, k);
      }
    }
    forall p | IsCompleted(db', p) ensures AllItemsCompleted(db', p) {
      assert IsCompleted(db, p) && AllItemsCompleted(db, p);
      assert forall k | k in db'.items && db'.items[k].payout == p :: k in db.items;
    }
    assert forall p :: IsCompleted(db', p) == IsCompleted(db, p);
  }

  // ---- The worker's statements keep it ----

  /** The step changes statuses only: no row appears, disappears or changes its amount. */
  ghost predicate StatusChange(db: Db, db': Db) {
    && db'.payouts.Keys == db.payouts.Keys
    && (forall p | p in db.payouts ::
          db'.payouts[p].total == db.payouts[p].total && db'.payouts[p].group == db.payouts[p].group)
    && db'.items.Keys == db.items.Keys
    && (forall k | k in db.items ::
          && db'.items[k].payout == db.items[k].payout
          && db'.items[k].intent == db.items[k].intent
          && db'.items[k].amount == db.items[k].amount)
    && db'.intents.Keys == db.intents.Keys
    && (forall i | i in db.intents ::
          db'.intents[i].session == db.intents[i].session && db'.intents[i].group == db.intents[i].group)
    && db'.addresses.Keys == db.addresses.Keys
    && db'.ledger == db.ledger && db'.sessions == db.sessions
  }

  lemma StatusChangeFrame(db: Db, db': Db)
    requires DbInv(db) && StatusChange(db, db')
    ensures Linked(db') && ItemsLinked(db') && Conserved(db')
  {
    forall p | p in db'.payouts
      ensures db'.payouts[p].total == Sum(ItemsOf(db'.items, p))
    {
      SameItems(db'.items, db.items, p);
    }
  }

  /** The step touches payouts only, and completes none. */
  lemma PayoutStatusFrame(db: Db, db': Db)
    requires DbInv(db) && StatusChange(db, db')
    requires db'.items == db.items && db'.intents == db.intents && db'.addresses == db.addresses
    requires db'.outbox == db.outbox && forall p | p in db.payouts ::
      db'.payouts[p].status == Completed <==> db.payouts[p].status == Completed
    ensures DbInv(db')
  {
    StatusChangeFrame(db, db');
    assert forall i :: HasCompletedItem(db', i) == HasCompletedItem(db, i);
    assert forall p :: IsCompleted(db', p) == IsCompleted(db, p);
    assert forall p :: AllItemsCompleted(db', p) == AllItemsCompleted(db, p);
  }

  lemma ClaimKeepsDbInv(db: Db, batch: seq<Id>)
    requires DbInv(db) && Claimable(db, batch)
    ensures DbInv(ClaimTx(db, batch)) && StatusChange(db, ClaimTx(db, batch))
  {
    PayoutStatusFrame(db, ClaimTx(db, batch));
  }

  /** The step completes the items in `done` and no others. */
  ghost predicate Completes(db: Db, db': Db, done: set<Id>) {
    forall k :: ItemDone(db', k) <==> ItemDone(db, k) || k in done
  }

  lemma CompletesIntents(db: Db, db': Db, done: set<Id>, i: Id)
    requires StatusChange(db, db') && Completes(db, db', done)
    ensures HasCompletedItem(db', i) <==>
            HasCompletedItem(db, i) || exists k :: k in done && k in db.items && db.items[k].intent == i
  {
    if HasCompletedItem(db, i) {
      var k :| k in db.items && db.items[k].intent == i && ItemDone(db, k);
      assert ItemDone(db', k);
    }
    if HasCompletedItem(db', i) {
      var k :| k in db'.items && db'.items[k].intent == i && ItemDone(db', k);
      assert ItemDone(db, k) || k in done;
    }
    if k :| k in done && k in db.items && db.items[k].intent == i { assert ItemDone(db', k); }
  }

  lemma StillAnnounced(db: Db, db': Db, done: set<Id>)
    requires DbInv(db) && StatusChange(db, db') && Completes(db, db', done)
    requires db'.payouts == db.payouts && db'.outbox == db.outbox
    ensures Announced(db')
  {
    forall p | IsCompleted(db', p) ensures AllItemsCompleted(db', p) {
      assert IsCompleted(db, p) && AllItemsCompleted(db, p);
      forall k | k in db'.items && db'.items[k].payout == p ensures ItemDone(db', k) {
        assert ItemDone(db, k);
      }
    }
    assert forall p :: IsCompleted(db', p) == IsCompleted(db, p);
  }

  /** Moving an unfinished item to another unfinished status. */
  lemma SetItemKeepsDbInv(db: Db, item: Id, status: ItemStatus)
    requires DbInv(db) && !ItemDone(db, item) && status != ItemCompleted
    ensures DbInv(SetItem(db, item, status)) && StatusChange(db, SetItem(db, item, status))
    ensures Completes(db, SetItem(db, item, status), {})
  {
    var db' := SetItem(db, item, status);
    StatusChangeFrame(db, db');
    StillAnnounced(db, db', {});
    forall i { CompletesIntents(db, db', {}, i); }
  }

  lemma PersistKeepsDbInv(db: Db, work: Work, row: Row)
    requires DbInv(db) && RowValid(db, work, row)
    ensures DbInv(PersistTx(db, row)) && StatusChange(db, PersistTx(db, row))
    ensures Completes(db, PersistTx(db, row), {row.item})
  {
    var db' := PersistTx(db, row);
    StatusChangeFrame(db, db');
    StillAnnounced(db, db', {row.item});
    forall i ensures HasCompletedItem(db', i) <==> HasCompletedItem(db, i) || i == row.intent {
      CompletesIntents(db, db', {row.item}, i);
      assert row.item in {row.item};
    }
  }

  lemma FinishKeepsDbInv(db: Db, work: Work)
    requires DbInv(db) && WorkValid(db, work)
    ensures DbInv(FinishTx(db, work)) && StatusChange(db, FinishTx(db, work))
  {
    var db' := FinishTx(db, work);
    if db' != db {
      StatusChangeFrame(db, db');
      assert forall i :: HasCompletedItem(db', i) == HasCompletedItem(db, i);
      assert forall p | IsCompleted(db', p) :: p == work.payout || IsCompleted(db, p);
      forall p ensures Completions(db'.outbox, p) == if IsCompleted(db', p) then 1 else 0 {
        CompletionsAppend(db.outbox, PayoutCompleted(work.payout, work.group, work.total), p);
        assert p != work.payout ==> IsCompleted(db', p) == IsCompleted(db, p);
      }
      forall p | IsCompleted(db', p) ensures AllItemsCompleted(db', p) {
        assert AllItemsCompleted(db, p);
      }
    }
  }

  lemma RetryKeepsDbInv(db: Db, payout: Id)
    requires DbInv(db)
    ensures DbInv(RetryTx(db, payout)) && StatusChange(db, RetryTx(db, payout))
  {
    if payout in db.payouts && db.payouts[payout].status != Completed {
      PayoutStatusFrame(db, RetryTx(db, payout));
    }
  }

  // ---- Every step keeps the whole invariant ----

  lemma SuccessesAppend(calls: seq<Call>, c: Call, k: Id)
    ensures Successes(calls + [c], k) == Successes(calls, k) + if c.item == k && c.ok then 1 else 0
  {
    assert (calls + [c])[..|calls|] == calls;
  }

  /** Nothing the worker remembers goes stale, and no item becomes completed. */
  ghost predicate Unfinished(db: Db, db': Db) {
    && (forall p | p in db.payouts :: p in db'.payouts
          && db'.payouts[p].total == db.payouts[p].total && db'.payouts[p].group == db.payouts[p].group)
    && (forall k | k in db.items :: k in db'.items
          && db'.items[k].payout == db.items[k].payout
          && db'.items[k].intent == db.items[k].intent
          && db'.items[k].amount == db.items[k].amount)
    && (forall k :: ItemDone(db', k) == ItemDone(db, k))
  }

  lemma TailValid(db: Db, work: Work, rows: seq<Row>)
    requires RowsValid(db, work, rows) && rows != []
    ensures RowsValid(db, work, rows[1..]) && CurrentValid(db, work, rows[1..], rows[0])
  {
    assert rows[0] in rows;
    forall r | r in rows[1..] ensures r in rows && r.item != rows[0].item {
      var i :| 0 <= i < |rows[1..]| && rows[1..][i] == r;
      assert r == rows[i + 1];
    }
  }

  lemma LoadedValid(db: Db, work: Work, selected: seq<Id>)
    requires Loadable(db, work.payout, selected)
    ensures RowsValid(db, work, LoadedRows(db, selected))
  {
    var rows := LoadedRows(db, selected);
    forall r | r in rows ensures RowValid(db, work, r) {
      var i :| 0 <= i < |rows| && rows[i] == r;
      assert Executable(db, work.payout, selected[i]);
    }
  }

  lemma JobFrame(db: Db, db': Db, job: Job)
    requires JobValid(db, job) && Unfinished(db, db')
    ensures JobValid(db', job)
  {
    if !job.Between? && !job.Retrying? {
      forall r | r in job.rows ensures RowValid(db', job.work, r) {
        assert RowValid(db, job.work, r);
      }
    }
  }

  lemma SnapshotFrame(s: Sys, s': Sys)
    requires Inv(s) && DbInv(s'.db) && Unfinished(s.db, s'.db)
    requires s'.worker == s.worker && s'.calls == s.calls && s'.lost == s.lost
    ensures Inv(s')
  {
    JobFrame(s.db, s'.db, s.worker.job);
  }

  lemma ServiceKeepsInv(s: Sys, a: Action)
    requires Inv(s) && IsService(a)
    ensures Inv(s.(db := ServiceStep(s.db, a)))
  {
    ServiceKeepsDbInv(s.db, a);
    var s' := s.(db := ServiceStep(s.db, a));
    assert forall k :: ItemDone(s'.db, k) == ItemDone(s.db, k);
    SnapshotFrame(s, s');
  }

  lemma ScheduleKeepsInv(s: Sys, payout: Id, group: Group, picks: seq<Pick>)
    requires Inv(s)
    ensures Inv(ScheduleStep(s, payout, group, picks))
  {
    var s' := ScheduleStep(s, payout, group, picks);
    if s' != s {
      ScheduleKeepsDbInv(s.db, payout, group, picks);
      AddItemsAt(s.db.items, s.db.intents, payout, picks);
      forall k ensures ItemDone(s'.db, k) == ItemDone(s.db, k) {}
      SnapshotFrame(s, s');
    }
  }

  lemma ClaimKeepsInv(s: Sys, batch: seq<Id>)
    requires Inv(s)
    ensures Inv(ClaimStep(s, batch))
  {
    if s.worker == Idle && Claimable(s.db, batch) { ClaimKeepsDbInv(s.db, batch); }
  }

  lemma BeginKeepsInv(s: Sys, ok: bool)
    requires Inv(s)
    ensures Inv(BeginStep(s, ok))
  {
    var job := s.worker.job;
    if job.Items? && job.rows != [] {
      TailValid(s.db, job.work, job.rows);
      SetItemKeepsDbInv(s.db, job.rows[0].item, ItemProcessing);
      if ok {
        JobFrame(s.db, BeginStep(s, ok).db, Executing(job.work, job.rows[1..], job.failed, job.rows[0]));
      }
    }
  }

  lemma ExecuteKeepsInv(s: Sys, ok: bool)
    requires Inv(s)
    ensures Inv(ExecuteStep(s, ok))
  {
    if s.worker.job.Executing? {
      var row := s.worker.job.row;
      forall k { SuccessesAppend(s.calls, Call(row.item, row.amount, ok), k); }
    }
  }

  /** The rows after the current one concern other items, so completing the current one leaves them valid. */
  lemma RowsStayValid(db: Db, work: Work, rows: seq<Row>, row: Row)
    requires RowsValid(db, work, rows) && CurrentValid(db, work, rows, row) && WorkValid(db, work)
    requires StatusChange(db, PersistTx(db, row)) && Completes(db, PersistTx(db, row), {row.item})
    ensures RowsValid(PersistTx(db, row), work, rows) && WorkValid(PersistTx(db, row), work)
  {
    forall r | r in rows ensures RowValid(PersistTx(db, row), work, r) {
      assert RowValid(db, work, r) && r.item != row.item;
    }
  }

  lemma PersistKeepsInv(s: Sys, ok: bool)
    requires Inv(s)
    ensures Inv(PersistStep(s, ok))
  {
    var job := s.worker.job;
    if job.Persisting? && ok {
      PersistKeepsDbInv(s.db, job.work, job.row);
      RowsStayValid(s.db, job.work, job.rows, job.row);
    }
  }

  lemma MarkFailedKeepsInv(s: Sys, ok: bool)
    requires Inv(s)
    ensures Inv(MarkFailedStep(s, ok))
  {
    if s.worker.job.Failing? && ok {
      SetItemKeepsDbInv(s.db, s.worker.job.row.item, ItemFailed);
      JobFrame(s.db, MarkFailedStep(s, ok).db, s.worker.job);
    }
  }

  lemma FinishKeepsInv(s: Sys, ok: bool)
    requires Inv(s)
    ensures Inv(FinishStep(s, ok))
  {
    if s.worker.job.Items? && s.worker.job.rows == [] && ok { FinishKeepsDbInv(s.db, s.worker.job.work); }
  }

  lemma RetryKeepsInv(s: Sys, ok: bool)
    requires Inv(s)
    ensures Inv(RetryStep(s, ok))
  {
    if s.worker.job.Retrying? && ok { RetryKeepsDbInv(s.db, s.worker.job.work.payout); }
  }

  lemma LoadKeepsInv(s: Sys, ok: bool, selected: seq<Id>)
    requires Inv(s)
    ensures Inv(LoadStep(s, ok, selected))
  {
    if s.worker.job.Between? && s.worker.queue != [] {
      assert WorkValid(s.db, s.worker.queue[0]);
      if Loadable(s.db, s.worker.queue[0].payout, selected) {
        LoadedValid(s.db, s.worker.queue[0], selected);
      }
    }
  }

  /** Leaving a row out for whatever reason. */
  lemma LeaveRowKeepsInv(s: Sys, a: Action)
    requires Inv(s) && (a.SkipRow? || a.StopRows? || a.RejectRow?)
    ensures Inv(WorkerStep(s, a))
  {
    if s.worker.job.Items? && s.worker.job.rows != [] {
      TailValid(s.db, s.worker.job.work, s.worker.job.rows);
    }
  }

  lemma CrashKeepsInv(s: Sys)
    requires Inv(s)
    ensures Inv(CrashStep(s))
  {}

  predicate IsItemAction(a: Action) {
    a.Begin? || a.Execute? || a.Persist? || a.MarkFailed? || a.SkipRow? || a.StopRows? || a.RejectRow?
  }

  lemma ItemActionKeepsInv(s: Sys, a: Action)
    requires Inv(s) && IsItemAction(a)
    ensures Inv(WorkerStep(s, a))
  {
    if a.Begin? {
      BeginKeepsInv(s, a.ok);
    } else if a.Execute? {
      ExecuteKeepsInv(s, a.ok);
    } else if a.Persist? {
      PersistKeepsInv(s, a.ok);
    } else if a.MarkFailed? {
      MarkFailedKeepsInv(s, a.ok);
    } else {
      LeaveRowKeepsInv(s, a);
    }
  }

  lemma WorkerKeepsInv(s: Sys, a: Action)
    requires Inv(s) && !IsService(a)
    ensures Inv(WorkerStep(s, a))
  {
    match a
    case Schedule(payout, group, picks) => ScheduleKeepsInv(s, payout, group, picks);
    case Claim(batch) => ClaimKeepsInv(s, batch);
    case Finish(ok) => FinishKeepsInv(s, ok);
    case Retry(ok) => RetryKeepsInv(s, ok);
    case Load(ok, selected) => LoadKeepsInv(s, ok, selected);
    case Crash => CrashKeepsInv(s);
    case _ => ItemActionKeepsInv(s, a);
  }

  // ---- What the worker leaves alone ----

  predicate SamePayments(db: Db, db': Db) {
    db'.intents == db.intents && db'.ledger == db.ledger && db'.sessions == db.sessions
  }

  lemma ItemActionLeavesPayments(s: Sys, a: Action)
    requires IsItemAction(a) && !a.Persist?
    ensures SamePayments(s.db, WorkerStep(s, a).db)
  {}

  /** Only persisting a result touches intents, and nothing of the worker's touches ledgers or sessions. */
  lemma WorkerLeavesPayments(s: Sys, a: Action)
    requires !IsService(a) && !a.Persist?
    ensures SamePayments(s.db, WorkerStep(s, a).db)
  {
    if IsItemAction(a) { ItemActionLeavesPayments(s, a); }
  }

  lemma StepKeepsInv(s: Sys, a: Action)
    requires Inv(s)
    ensures Inv(Step(s, a))
  {
    if IsService(a) { ServiceKeepsInv(s, a); } else { WorkerKeepsInv(s, a); }
  }

  lemma StartInv()
    ensures Inv(Start)
  {
    forall p: Id ensures ItemsOf(EmptyDb.items, p) == map[] {}
  }

  lemma {:induction false} RunKeepsInv(s: Sys, actions: seq<Action>)
    requires Inv(s)
    ensures Inv(Run(s, actions))
  {
    if actions != [] {
      var n := |actions| - 1;
      RunKeepsInv(s, actions[..n]);
      StepKeepsInv(Run(s, actions[..n]), actions[n]);
    }
  }
}
