/** The payout worker (internal/platform/workers/payout_scheduler.go), statement by statement. Other services may run
    between any two of its statements. Every execution is a run of the step machine, so what PayoutSafety proves of
    runs holds of it. */
module PayoutScheduler {
  import opened Sums
  import opened Pricing
  import opened Tables
  import opened Protocol
  import opened Database
  import opened Invariants
  import opened PayoutSafety
  import opened PayoutPass
  import opened PassTrace

  /** The statements of one group's scheduling transaction. */
  method InsertItems(before: Db, payout: Id, group: Group, rows: seq<Id>)
    returns (payouts: map<Id, Payout>, items: map<Id, Item>, picks: seq<Pick>)
    requires payout !in before.payouts && NoDuplicates(rows)
    requires forall id | id in rows :: Eligible(before, id) && before.intents[id].group == group
    ensures Schedulable(before, payout, group, picks)
    ensures |picks| == |rows| && forall n | 0 <= n < |rows| :: picks[n].intent == rows[n]
    ensures before.(payouts := payouts, items := items) == ScheduleTx(before, payout, group, picks)
  {
    payouts := before.payouts[payout := Payout(group, Scheduled, before.now, 0.0, 0)];
    items := before.items;
    picks := [];
    var total := 0.0;
    for n := 0 to |rows|
      invariant |picks| == n
      invariant forall i | 0 <= i < n ::
        picks[i].intent == rows[i] && picks[i].item in items && picks[i].item !in before.items
      invariant forall i, j | 0 <= i < j < n :: picks[i].item != picks[j].item
      invariant forall k | k in before.items :: k in items
      invariant forall p | p in picks :: p.intent in before.intents
      invariant items == AddItems(before.items, before.intents, payout, picks)
      invariant total == PickedTotal(before.intents, picks)
    {
      var intent := rows[n];
      assert intent in rows;
      var amount := before.intents[intent].received;
      total := total + amount;
      var item := NewId(items.Keys);
      items := items[item := Item(payout, intent, amount, ItemPending)];
      var pick := Pick(item, intent);
      assert (picks + [pick])[..n] == picks;
      picks := picks + [pick];
    }
    payouts := payouts[payout := payouts[payout].(total := total)];
    PicksAreRows(before, group, rows, picks);
  }

  lemma PicksAreRows(before: Db, group: Group, rows: seq<Id>, picks: seq<Pick>)
    requires |picks| == |rows| && forall n | 0 <= n < |rows| :: picks[n].intent == rows[n]
    requires NoDuplicates(rows) && forall id | id in rows :: Eligible(before, id) && before.intents[id].group == group
    ensures forall i | 0 <= i < |picks| ::
              Eligible(before, picks[i].intent) && before.intents[picks[i].intent].group == group
    ensures forall i, j | 0 <= i < j < |picks| :: picks[i].intent != picks[j].intent
  {
    assert forall i | 0 <= i < |rows| :: rows[i] in rows;
  }

  /** The statements of the claiming transaction, with the work remembered of each row. */
  method MarkProcessing(before: Db, rows: seq<Id>) returns (payouts: map<Id, Payout>, queue: seq<Work>)
    requires Claimable(before, rows)
    ensures before.(payouts := payouts) == ClaimTx(before, rows)
    ensures queue == ClaimedWork(before, rows)
  {
    payouts, queue := before.payouts, [];
    assert before == ClaimTx(before, []);
    for n := 0 to |rows|
      invariant payouts == ClaimTx(before, rows[..n]).payouts
      invariant |queue| == n && forall i | 0 <= i < n :: queue[i] == WorkFor(before, rows[i])
    {
      var id := rows[n];
      assert id in rows && id !in rows[..n];
      queue := queue + [WorkFor(before, id)];
      payouts := payouts[id := payouts[id].(status := Processing, attempts := payouts[id].attempts + 1)];
      assert forall p :: p in rows[..n + 1] <==> p in rows[..n] || p == id;
    }
    assert rows[..|rows|] == rows;
  }

  /** The three updates that complete an item. */
  method CompleteRows(before: Db, row: Row)
    returns (items: map<Id, Item>, intents: map<Id, Intent>, addresses: map<Id, AddressStatus>)
    ensures before.(items := items, intents := intents, addresses := addresses) == PersistTx(before, row)
  {
    items, intents, addresses := before.items, before.intents, before.addresses;
    if row.item in items {
      items := items[row.item := items[row.item].(status := ItemCompleted)];
    }
    if row.intent in intents && Payable(intents[row.intent].status) {
      intents := intents[row.intent := intents[row.intent].(status := Settled)];
    }
    if row.intent in addresses {
      addresses := addresses[row.intent := AddressSwept];
    }
  }

  /** A payout without unfinished items is completed and announced, once. */
  method CompleteIfDone(before: Db, work: Work) returns (payouts: map<Id, Payout>, outbox: seq<Event>)
    ensures before.(payouts := payouts, outbox := outbox) == FinishTx(before, work)
  {
    payouts, outbox := before.payouts, before.outbox;
    var remaining := exists k | k in before.items ::
      before.items[k].payout == work.payout && before.items[k].status != ItemCompleted;
    if !remaining && work.payout in payouts && payouts[work.payout].status != Completed {
      payouts := payouts[work.payout := payouts[work.payout].(status := Completed)];
      outbox := outbox + [PayoutCompleted(work.payout, work.group, work.total)];
    }
  }

  lemma CoversRows(db: Db, group: Group, locked: set<Id>, rows: seq<Id>, picks: seq<Pick>)
    requires forall i | Eligible(db, i) && db.intents[i].group == group && i !in locked :: i in rows
    requires forall i | i in rows :: i !in locked
    requires |picks| == |rows| && forall n | 0 <= n < |rows| :: picks[n].intent == rows[n]
    ensures forall p | p in picks :: p.intent !in locked
    ensures forall i | Eligible(db, i) && db.intents[i].group == group && i !in locked ::
              exists p :: p in picks && p.intent == i
  {
    forall p | p in picks ensures p.intent !in locked {
      var n :| 0 <= n < |picks| && picks[n] == p;
      assert rows[n] in rows;
    }
    forall i | Eligible(db, i) && db.intents[i].group == group && i !in locked
      ensures exists p :: p in picks && p.intent == i
    {
      var n :| 0 <= n < |rows| && rows[n] == i;
      assert picks[n] in picks;
    }
  }

  /** The rows and statements of one group's transaction. */
  method PickGroup(tables: Db, group: Group, locked: set<Id>)
    returns (id: Id, payouts: map<Id, Payout>, items: map<Id, Item>, picks: seq<Pick>)
    ensures PicksAll(tables, id, group, picks, locked)
    ensures tables.(payouts := payouts, items := items) == ScheduleTx(tables, id, group, picks)
  {
    id := NewId(tables.payouts.Keys);
    var rows := Rows(set i | i in tables.intents && Eligible(tables, i) && tables.intents[i].group == group
                             && i !in locked);
    assert forall i | i in rows :: Eligible(tables, i) && tables.intents[i].group == group;
    payouts, items, picks := InsertItems(tables, id, group, rows);
    CoversRows(tables, group, locked, rows, picks);
  }

  /** The intent is confirmed or overpaid, of the group, not locked, and has no item yet. */
  predicate ToBePaid(db: Db, group: Group, locked: set<Id>, i: Id) {
    && i in db.intents && db.intents[i].status in {Confirmed, Overpaid} && db.intents[i].group == group && i !in locked
    && forall k | k in db.items :: db.items[k].intent != i
  }

  lemma EligibleWhenToBePaid(db: Db, group: Group, i: Id)
    requires ToBePaid(db, group, {}, i)
    ensures Eligible(db, i)
  {}

  /** What scheduling one group writes: one pending item for the received amount of every intent to be paid, and a new
      payout, due at once, over their sum. */
  ghost predicate GroupWrites(db: Db, db': Db, payout: Id, group: Group, locked: set<Id>) {
    && payout !in db.payouts
    && (forall k | k in db.items :: k in db'.items && db'.items[k] == db.items[k])
    && (forall k | k in db'.items && k !in db.items ::
          && ToBePaid(db, group, locked, db'.items[k].intent)
          && db'.items[k] == Item(payout, db'.items[k].intent, db.intents[db'.items[k].intent].received, ItemPending))
    && (forall i | ToBePaid(db, group, locked, i) :: exists k :: k in db'.items && db'.items[k].intent == i)
    && (forall k, l | k in db'.items && l in db'.items && k != l :: db'.items[k].intent != db'.items[l].intent)
    && db' == db.(items := db'.items, payouts :=
         db.payouts[payout := Payout(group, Scheduled, db.now, Sum(ItemsOf(db'.items, payout)), 0)])
  }

  lemma PickedItem(db: Db, payout: Id, group: Group, picks: seq<Pick>, locked: set<Id>, k: Id)
    requires PicksAll(db, payout, group, picks, locked)
    requires k in ScheduleTx(db, payout, group, picks).items && k !in db.items
    ensures var item := ScheduleTx(db, payout, group, picks).items[k];
      && ToBePaid(db, group, locked, item.intent)
      && item == Item(payout, item.intent, db.intents[item.intent].received, ItemPending)
  {
    AddItemsAt(db.items, db.intents, payout, picks);
    var n :| 0 <= n < |picks| && picks[n].item == k;
    assert picks[n] in picks && Eligible(db, picks[n].intent);
  }

  lemma PickedIntent(db: Db, payout: Id, group: Group, picks: seq<Pick>, locked: set<Id>, i: Id)
    requires PicksAll(db, payout, group, picks, locked) && ToBePaid(db, group, locked, i)
    ensures exists k :: && k in ScheduleTx(db, payout, group, picks).items
                        && ScheduleTx(db, payout, group, picks).items[k].intent == i
  {
    AddItemsAt(db.items, db.intents, payout, picks);
    assert Eligible(db, i);
    var p :| p in picks && p.intent == i;
    var n :| 0 <= n < |picks| && picks[n] == p;
    assert ScheduleTx(db, payout, group, picks).items[picks[n].item].intent == i;
  }

  lemma PicksKeep(db: Db, payout: Id, group: Group, picks: seq<Pick>)
    requires DbInv(db) && Schedulable(db, payout, group, picks)
    ensures var db' := ScheduleTx(db, payout, group, picks);
      && (forall k | k in db.items :: k in db'.items && db'.items[k] == db.items[k])
      && (forall k, l | k in db'.items && l in db'.items && k != l :: db'.items[k].intent != db'.items[l].intent)
      && db'.payouts[payout].total == Sum(ItemsOf(db'.items, payout))
  {
    AddItemsAt(db.items, db.intents, payout, picks);
    ScheduleKeepsItemsLinked(db, payout, group, picks);
    ScheduleKeepsTotals(db, payout, group, picks);
  }

  lemma PicksWrite(db: Db, payout: Id, group: Group, picks: seq<Pick>, locked: set<Id>)
    requires DbInv(db) && PicksAll(db, payout, group, picks, locked)
    ensures GroupWrites(db, ScheduleTx(db, payout, group, picks), payout, group, locked)
  {
    var db' := ScheduleTx(db, payout, group, picks);
    PicksKeep(db, payout, group, picks);
    forall k | k in db'.items && k !in db.items { PickedItem(db, payout, group, picks, locked, k); }
    forall i | ToBePaid(db, group, locked, i) { PickedIntent(db, payout, group, picks, locked, i); }
  }

  lemma EveryGroup(db: Db, groups: seq<Group>)
    requires forall g :: g in groups <==> SomeEligible(db, g)
    ensures forall i | Eligible(db, i) :: db.intents[i].group in groups
  {
    forall i | Eligible(db, i) ensures db.intents[i].group in groups {
      assert SomeEligible(db, db.intents[i].group);
    }
  }

  class PayoutScheduler {
    const db: Database

    constructor (db: Database)
      ensures this.db == db
    {
      this.db := db;
    }

    /** Unless the pass is quiet, other services run here. */
    method Meanwhile(f: Fate)
      requires db.Valid()
      modifies db
      ensures db.Valid() && old(db.trace) <= db.trace && (f.quiet ==> db.services == old(db.services))
      ensures f.quiet ==> unchanged(db)
      ensures db.worker == old(db.worker) && db.calls == old(db.calls) && db.lost == old(db.lost)
      ensures db.payouts == old(db.payouts) && db.items == old(db.items)
    {
      if !f.quiet { ghost var _ := db.Interference(); }
    }

    // ---- Scheduling ----

    /** One pass over the groups that had something to pay when it began. Every group whose transaction commits gets a
        payout with all its eligible, unlocked intents; when nothing else runs, nothing is locked and every commit goes
        through, the pass is undisturbed. */
    method SchedulePayouts(f: Fate)
      requires db.Valid() && db.worker == Idle
      modifies db
      ensures db.Valid() && db.worker == Idle
      ensures old(db.trace) <= db.trace && (f.quiet ==> db.services == old(db.services))
      ensures PassScheduled(f, old(db.Contents()), old(db.trace), db.trace)
      ensures Calm(f) ==> exists pass :: db.trace == old(db.trace) + pass && Undisturbed(old(db.State()), pass)
    {
      ghost var s, from := db.State(), db.trace;
      ghost var marks: seq<Sys>, pass: seq<Action> := [], [];
      var groups := EligibleGroups();
      for g := 0 to |groups|
        invariant db.Valid() && db.worker == Idle && (f.quiet ==> db.services == old(db.services))
        invariant ScheduledSoFar(f, from, db.trace, marks, pass, groups, g)
      {
        ghost var before := db.trace;
        Meanwhile(f);
        ghost var here, at := db.State(), db.trace;
        ghost var payout, picks := ScheduleGroup(groups[g], f.lockedIntents(groups[g]), f.commits(groups[g]));
        marks, pass := NextGroup(f, from, before, here, at, db.trace, marks, pass, groups, g, payout, picks);
      }
      assert groups[..|groups|] == groups;
      EveryGroup(s.db, groups);
      if Calm(f) { PassIsUndisturbed(s, from, marks, pass, groups); }
    }

    /** The groups that have something to pay, each once. */
    method EligibleGroups() returns (groups: seq<Group>)
      ensures forall i, j | 0 <= i < j < |groups| :: groups[i] != groups[j]
      ensures forall g :: g in groups <==> SomeEligible(db.Contents(), g)
    {
      groups := Rows(set id | id in db.intents && Eligible(db.Contents(), id) :: db.intents[id].group);
    }

    /** One group's transaction. SKIP LOCKED passes over the intents that another transaction holds. */
    method ScheduleGroup(group: Group, locked: set<Id>, committed: bool)
      returns (ghost payout: Id, ghost picks: seq<Pick>)
      requires db.Valid() && db.worker == Idle
      modifies db
      ensures db.Valid() && db.worker == Idle && old(db.trace) <= db.trace && db.services == old(db.services)
      ensures !committed ==> unchanged(db)
      ensures committed ==>
        && PicksAll(old(db.Contents()), payout, group, picks, locked)
        && db.Contents() == ScheduleTx(old(db.Contents()), payout, group, picks)
        && db.trace == old(db.trace) + [Schedule(payout, group, picks)]
        && GroupWrites(old(db.Contents()), db.Contents(), payout, group, locked)
    {
      ghost var before := db.State();
      var id, payouts, items, inserted := PickGroup(db.Contents(), group, locked);
      payout, picks := id, inserted;
      LaterStates(before, db.trace, before, db.trace);
      PicksWrite(before.db, id, group, inserted, locked);
      if !committed { return; }
      db.payouts, db.items := payouts, items;
      db.Record(before, Schedule(id, group, inserted));
    }

    // ---- Claiming and executing ----

    /** Claims are committed before anything is executed; SKIP LOCKED passes over claimed payouts. */
    method ClaimDue(locked: set<Id>, committed: bool) returns (queue: seq<Work>, ghost rows: seq<Id>)
      requires db.Valid() && db.worker == Idle
      modifies db
      ensures db.Valid() && db.worker == Worker(queue, Between) && db.services == old(db.services)
      ensures !committed ==> unchanged(db) && queue == []
      ensures committed ==>
        && Claimable(old(db.Contents()), rows)
        && (forall p :: p in rows <==> Due(old(db.Contents()), p) && p !in locked)
        && queue == ClaimedWork(old(db.Contents()), rows)
        && db.Contents() == ClaimTx(old(db.Contents()), rows)
        && db.trace == old(db.trace) + [Claim(rows)]
      ensures committed ==>
        && (forall p :: p in rows <==>
              && p in old(db.payouts) && p !in locked
              && old(db.payouts)[p].status != Completed && old(db.payouts)[p].scheduleAt <= old(db.now))
        && db.payouts.Keys == old(db.payouts).Keys
        && (forall p | p in old(db.payouts) :: db.payouts[p] ==
              if p in rows then old(db.payouts)[p].(status := Processing, attempts := old(db.payouts)[p].attempts + 1)
              else old(db.payouts)[p])
        && |queue| == |rows|
        && (forall n | 0 <= n < |rows| ::
              queue[n] == Work(rows[n], old(db.payouts)[rows[n]].group, old(db.payouts)[rows[n]].total))
    {
      ghost var before := db.State();
      var tables := db.Contents();
      var due := Rows(set p | p in db.payouts && Due(tables, p) && p !in locked);
      rows := due;
      var payouts, work := MarkProcessing(tables, due);
      if !committed { return [], rows; }
      db.payouts := payouts;
      db.Record(before, Claim(due));
      return work, rows;
    }

    /** Claims exactly the due, unlocked payouts and handles each of them: at some moment after the claim its rows were
        loaded, and all of them whose circumstances are good were executed and completed. */
    method CompleteDuePayouts(f: Fate)
      requires db.Valid() && db.worker == Idle
      modifies db
      ensures db.Valid() && db.worker == Idle
      ensures old(db.trace) <= db.trace && (f.quiet ==> db.services == old(db.services))
      ensures f.claims ==> DueHandled(f, old(db.Contents()), old(db.trace), db.trace, db.State())
    {
      ghost var tables, from := db.Contents(), db.trace;
      var queue, rows := ClaimDue(f.lockedPayouts, f.claims);
      for n := 0 to |queue|
        invariant db.Valid() && db.worker == Worker(queue[n..], Between)
        invariant from <= db.trace && (f.quiet ==> db.services == old(db.services))
        invariant AllHandled(f, from, db.trace, db.State(), queue[..n])
      {
        ghost var before, at := db.State(), db.trace;
        Meanwhile(f);
        ghost var here, loaded := db.State(), db.trace;
        ghost var _ := ProcessPayout(queue[n], f);
        NextHandled(f, from, before, at, here, loaded, db.State(), db.trace, queue, n);
      }
      assert queue[..|queue|] == queue;
      if f.claims { ClaimedHandled(f, tables, from, db.trace, db.State(), rows); }
    }

    /** One payout, from the load of its rows to its finishing or rescheduling: the item and payout tables and the calls
        of the executor afterwards, for whatever circumstances. */
    method ProcessPayout(work: Work, f: Fate) returns (ghost selected: seq<Id>)
      requires db.Valid() && db.worker.job == Between && db.worker.queue != [] && db.worker.queue[0] == work
      modifies db
      ensures db.Valid() && old(db.trace) <= db.trace && (f.quiet ==> db.services == old(db.services))
      ensures db.worker == Worker(old(db.worker.queue)[1..], Between)
      ensures !f.loads(work.payout) ==>
        && db.items == old(db.items) && db.calls == old(db.calls)
        && db.payouts == if f.reschedules(work.payout) then WithPayoutStatus(old(db.payouts), work.payout, Scheduled)
                         else old(db.payouts)
      ensures f.loads(work.payout) ==>
        && Outcome(f, old(db.State()), db.State(), work.payout, selected)
        && PayoutLeft(f, old(db.State()), db.State(), work.payout)
      ensures LoadsNext(old(db.State()), old(db.trace), db.trace, work.payout, f.loads(work.payout))
      ensures Handled(f, old(db.State()), db.State(), work.payout)
    {
      ghost var s := db.State();
      var rows;
      rows, selected := LoadItems(work, f.loads(work.payout));
      if !f.loads(work.payout) {
        MarkPayoutRetry(work, f.reschedules(work.payout));
        return;
      }
      ghost var loaded := db.State();
      ProcessLoaded(work, rows, selected, f);
      OutcomeMeans(f, s, loaded, db.State(), work.payout, selected);
    }

    /** The rows of the payout, and then the payout itself. */
    method ProcessLoaded(work: Work, rows: seq<Row>, ghost selected: seq<Id>, f: Fate)
      requires db.Valid() && db.worker.job == Items(work, rows, false)
      requires Loadable(db.Contents(), work.payout, selected) && rows == LoadedRows(db.Contents(), selected)
      modifies db
      ensures db.Valid() && old(db.trace) <= db.trace && (f.quiet ==> db.services == old(db.services))
      ensures db.worker == Worker(old(db.worker.queue), Between)
      ensures Outcome(f, old(db.State()), db.State(), work.payout, selected)
    {
      var hadFailure := ProcessRows(work, rows, f);
      CloseOut(work, hadFailure, f);
    }

    /** The SELECT of the payout's rows. */
    method LoadItems(work: Work, loads: bool) returns (rows: seq<Row>, ghost selected: seq<Id>)
      requires db.Valid() && db.worker.job == Between && db.worker.queue != [] && db.worker.queue[0] == work
      modifies db
      ensures db.Valid() && db.trace == old(db.trace) + [Load(loads, selected)] && db.services == old(db.services)
      ensures db.Contents() == old(db.Contents()) && db.calls == old(db.calls)
      ensures db.worker == Worker(old(db.worker.queue)[1..], if loads then Items(work, rows, false) else Retrying(work))
      ensures loads ==> Loadable(db.Contents(), work.payout, selected) && rows == LoadedRows(db.Contents(), selected)
      ensures loads ==> forall k :: k in selected <==>
        && k in db.items && db.items[k].payout == work.payout && db.items[k].status != ItemCompleted
        && db.items[k].intent in db.intents && db.intents[db.items[k].intent].status in {Confirmed, Overpaid}
        && db.items[k].intent in db.addresses
      ensures loads ==> |rows| == |selected| && forall n | 0 <= n < |rows| ::
        selected[n] in db.items
        && rows[n] == Row(selected[n], db.items[selected[n]].intent, db.items[selected[n]].amount)
    {
      ghost var before := db.State();
      rows, selected := [], [];
      if loads {
        var tables := db.Contents();
        var ids := Rows(set k | k in db.items && Executable(tables, work.payout, k));
        assert Loadable(tables, work.payout, ids);
        rows, selected := LoadedRows(tables, ids), ids;
      }
      db.Record(before, Load(loads, selected));
    }

    /** The loop over the loaded rows. */
    method ProcessRows(work: Work, rows: seq<Row>, f: Fate) returns (hadFailure: bool)
      requires db.Valid() && db.worker.job == Items(work, rows, false)
      modifies db
      ensures db.Valid() && old(db.trace) <= db.trace && (f.quiet ==> db.services == old(db.services))
      ensures db.worker == Worker(old(db.worker.queue), Items(work, [], hadFailure))
      ensures hadFailure <==> !AllSucceed(f, rows)
      ensures db.items == ItemsAfter(f, old(db.items), rows) && db.payouts == old(db.payouts)
      ensures db.calls == old(db.calls) + CallsMade(f, rows)
    {
      hadFailure := false;
      var rest := rows;
      while rest != []
        invariant db.Valid() && old(db.trace) <= db.trace && (f.quiet ==> db.services == old(db.services))
        invariant db.worker == Worker(old(db.worker.queue), Items(work, rest, hadFailure))
        invariant !AllSucceed(f, rows) <==> hadFailure || !AllSucceed(f, rest)
        invariant ItemsAfter(f, old(db.items), rows) == ItemsAfter(f, db.items, rest)
        invariant old(db.calls) + CallsMade(f, rows) == db.calls + CallsMade(f, rest)
        invariant db.payouts == old(db.payouts)
        decreases |rest|
      {
        var ok;
        ok, rest := ReadRow(work, rest, f);
        if !ok { hadFailure := true; }
      }
    }

    /** One step of the cursor: it fails, and no further row is read, or it gives the next row to process. */
    method ReadRow(work: Work, rows: seq<Row>, f: Fate) returns (ok: bool, rest: seq<Row>)
      requires db.Valid() && db.worker.job.Items? && db.worker.job.work == work && db.worker.job.rows == rows != []
      modifies db
      ensures db.Valid() && old(db.trace) <= db.trace && (f.quiet ==> db.services == old(db.services))
      ensures db.worker == Worker(old(db.worker.queue), Items(work, rest, old(db.worker.job.failed) || !ok))
      ensures |rest| < |rows|
      ensures AllSucceed(f, rows) <==> ok && AllSucceed(f, rest)
      ensures ItemsAfter(f, old(db.items), rows) == ItemsAfter(f, db.items, rest) && db.payouts == old(db.payouts)
      ensures old(db.calls) + CallsMade(f, rows) == db.calls + CallsMade(f, rest)
    {
      SucceedFrom(f, rows);
      if f.breaks(rows[0].item) {
        StopReading();
        return false, [];
      }
      ok := ProcessItem(work, rows[0], f);
      rest := rows[1..];
    }

    method CloseOut(work: Work, hadFailure: bool, f: Fate)
      requires db.Valid() && db.worker.job == Items(work, [], hadFailure)
      modifies db
      ensures db.Valid() && old(db.trace) <= db.trace && (f.quiet ==> db.services == old(db.services))
      ensures db.worker == Worker(old(db.worker.queue), Between)
      ensures db.items == old(db.items) && db.calls == old(db.calls)
      ensures var finished := if f.finishes(work.payout) && AllItemsCompleted(old(db.Contents()), work.payout)
                              then WithPayoutStatus(old(db.payouts), work.payout, Completed) else old(db.payouts);
        db.payouts == if (!f.finishes(work.payout) || hadFailure) && f.reschedules(work.payout)
                      then WithPayoutStatus(finished, work.payout, Scheduled) else finished
    {
      Meanwhile(f);
      var finished := FinishPayoutIfComplete(work, f.finishes(work.payout));
      if !finished || hadFailure {
        MarkPayoutRetry(work, f.reschedules(work.payout));
      }
    }

    // ---- One row ----

    /** One row of the loop. It fails when the row cannot be read, its configuration is unusable, the executor fails or
        the result cannot be persisted; the executor is called in the last two cases and on success. */
    method ProcessItem(work: Work, row: Row, f: Fate) returns (ok: bool)
      requires db.Valid() && db.worker.job.Items? && db.worker.job.work == work
      requires db.worker.job.rows != [] && db.worker.job.rows[0] == row
      modifies db
      ensures db.Valid() && old(db.trace) <= db.trace && (f.quiet ==> db.services == old(db.services))
      ensures ok <==> f.readable(row.item) && f.configured(row.item) && f.executes(row.item) && f.persists(row.item)
      ensures db.worker == Worker(old(db.worker.queue),
                                  Items(work, old(db.worker.job.rows)[1..], old(db.worker.job.failed) || !ok))
      ensures db.items == ItemAfter(f, old(db.items), row.item) && db.payouts == old(db.payouts)
      ensures row.item in old(db.items) ==>
        && row.item in db.items
        && db.items[row.item].status == (
             if ok then ItemCompleted
             else if f.readable(row.item) && f.marks(row.item) then ItemFailed
             else if f.readable(row.item) && f.configured(row.item) && f.begins(row.item)
                     && old(db.items)[row.item].status != ItemCompleted then ItemProcessing
             else old(db.items)[row.item].status)
        && db.items == old(db.items)[row.item := old(db.items)[row.item].(status := db.items[row.item].status)]
      ensures db.calls == old(db.calls) + CallMade(f, row)
              == old(db.calls) + if f.readable(row.item) && f.configured(row.item)
                                 then [Call(row.item, row.amount, f.executes(row.item))] else []
      ensures db.lost == old(db.lost)
              + if f.readable(row.item) && f.configured(row.item) && f.executes(row.item) && !f.persists(row.item)
                then multiset{row.item} else multiset{}
    {
      if !f.readable(row.item) {
        SkipUnreadable();
        return false;
      }
      if !f.configured(row.item) {
        RefuseItem(row, f);
        return false;
      }
      ok := PayItem(row, f);
    }

    method RefuseItem(row: Row, f: Fate)
      requires db.Valid() && db.worker.job.Items? && db.worker.job.rows != [] && db.worker.job.rows[0] == row
      modifies db
      ensures db.Valid() && old(db.trace) <= db.trace && db.services == old(db.services)
      ensures var job := old(db.worker.job);
        db.worker == Worker(old(db.worker.queue), Items(job.work, job.rows[1..], true))
      ensures db.items == WithFailure(f, old(db.items), row.item) && db.payouts == old(db.payouts)
      ensures db.calls == old(db.calls) && db.lost == old(db.lost)
    {
      RejectItem(row);
      MarkItemFailed(row, f.marks(row.item));
    }

    method PayItem(row: Row, f: Fate) returns (ok: bool)
      requires db.Valid() && db.worker.job.Items? && db.worker.job.rows != [] && db.worker.job.rows[0] == row
      modifies db
      ensures db.Valid() && old(db.trace) <= db.trace && (f.quiet ==> db.services == old(db.services))
      ensures ok <==> f.executes(row.item) && f.persists(row.item)
      ensures var job := old(db.worker.job);
        db.worker == Worker(old(db.worker.queue), Items(job.work, job.rows[1..], job.failed || !ok))
      ensures var begun := if f.begins(row.item) then Begun(old(db.items), row.item) else old(db.items);
        db.items == if ok then WithStatus(begun, row.item, ItemCompleted) else WithFailure(f, begun, row.item)
      ensures db.payouts == old(db.payouts)
      ensures db.calls == old(db.calls) + [Call(row.item, row.amount, f.executes(row.item))]
      ensures db.lost == old(db.lost) + if f.executes(row.item) && !ok then multiset{row.item} else multiset{}
    {
      BeginItem(row, f.begins(row.item));
      ok := SweepItem(row, f);
    }

    /** Executes the row and persists the result. */
    method SweepItem(row: Row, f: Fate) returns (ok: bool)
      requires db.Valid() && db.worker.job.Executing? && db.worker.job.row == row
      modifies db
      ensures db.Valid() && old(db.trace) <= db.trace && (f.quiet ==> db.services == old(db.services))
      ensures ok <==> f.executes(row.item) && f.persists(row.item)
      ensures var job := old(db.worker.job);
        db.worker == Worker(old(db.worker.queue), Items(job.work, job.rows, job.failed || !ok))
      ensures db.items == if ok then WithStatus(old(db.items), row.item, ItemCompleted)
                          else WithFailure(f, old(db.items), row.item)
      ensures db.payouts == old(db.payouts)
      ensures db.calls == old(db.calls) + [Call(row.item, row.amount, f.executes(row.item))]
      ensures db.lost == old(db.lost) + if f.executes(row.item) && !ok then multiset{row.item} else multiset{}
    {
      Meanwhile(f);
      ok := ExecutePayout(row, f.executes(row.item));
      if ok { ok := PersistItem(row, f); }
      if !ok {
        MarkItemFailed(row, f.marks(row.item));
      }
    }

    /** Persisting the result of a successful execution. */
    method PersistItem(row: Row, f: Fate) returns (ok: bool)
      requires db.Valid() && db.worker.job.Persisting? && db.worker.job.row == row
      modifies db
      ensures db.Valid() && old(db.trace) <= db.trace && (f.quiet ==> db.services == old(db.services))
      ensures ok == f.persists(row.item)
      ensures var job := old(db.worker.job);
        db.worker == Worker(old(db.worker.queue), if ok then Items(job.work, job.rows, job.failed)
                                                        else Failing(job.work, job.rows, row))
      ensures db.items == if ok then WithStatus(old(db.items), row.item, ItemCompleted) else old(db.items)
      ensures db.payouts == old(db.payouts) && db.calls == old(db.calls)
      ensures db.lost == old(db.lost) + if ok then multiset{} else multiset{row.item}
    {
      Meanwhile(f);
      ok := CompletePayoutItem(row, f.persists(row.item));
    }

    // ---- Single statements ----

    method StopReading()
      requires db.Valid() && db.worker.job.Items?
      modifies db
      ensures db.Valid() && db.trace == old(db.trace) + [StopRows] && db.services == old(db.services)
      ensures db.Contents() == old(db.Contents()) && db.calls == old(db.calls) && db.lost == old(db.lost)
      ensures db.worker == Worker(old(db.worker.queue), Items(old(db.worker.job.work), [], true))
    {
      db.Record(db.State(), StopRows);
    }

    method SkipUnreadable()
      requires db.Valid() && db.worker.job.Items? && db.worker.job.rows != []
      modifies db
      ensures db.Valid() && db.trace == old(db.trace) + [SkipRow] && db.services == old(db.services)
      ensures db.Contents() == old(db.Contents()) && db.calls == old(db.calls) && db.lost == old(db.lost)
      ensures var job := old(db.worker.job);
        db.worker == Worker(old(db.worker.queue), Items(job.work, job.rows[1..], true))
    {
      db.Record(db.State(), SkipRow);
    }

    /** The settlement address is missing, or the key of an EOA wallet does not decrypt. */
    method RejectItem(row: Row)
      requires db.Valid() && db.worker.job.Items? && db.worker.job.rows != [] && db.worker.job.rows[0] == row
      modifies db
      ensures db.Valid() && db.trace == old(db.trace) + [RejectRow] && db.services == old(db.services)
      ensures db.Contents() == old(db.Contents()) && db.calls == old(db.calls) && db.lost == old(db.lost)
      ensures var job := old(db.worker.job);
        db.worker == Worker(old(db.worker.queue), Failing(job.work, job.rows[1..], row))
    {
      db.Record(db.State(), RejectRow);
    }

    method BeginItem(row: Row, written: bool)
      requires db.Valid() && db.worker.job.Items? && db.worker.job.rows != [] && db.worker.job.rows[0] == row
      modifies db
      ensures db.Valid() && db.trace == old(db.trace) + [Begin(written)] && db.services == old(db.services)
      ensures db.Contents() == if written then BeginTx(old(db.Contents()), row.item) else old(db.Contents())
      ensures db.calls == old(db.calls) && db.lost == old(db.lost)
      ensures var job := old(db.worker.job);
        db.worker == Worker(old(db.worker.queue), Executing(job.work, job.rows[1..], job.failed, row))
    {
      ghost var before := db.State();
      if written && row.item in db.items && db.items[row.item].status != ItemCompleted {
        db.items := db.items[row.item := db.items[row.item].(status := ItemProcessing)];
      }
      db.Record(before, Begin(written));
    }

    /** The executor decides (`succeeds`); its call is recorded with the amount it was given. */
    method ExecutePayout(row: Row, succeeds: bool) returns (ok: bool)
      requires db.Valid() && db.worker.job.Executing? && db.worker.job.row == row
      modifies db
      ensures ok == succeeds
      ensures db.Valid() && db.trace == old(db.trace) + [Execute(ok)] && db.services == old(db.services)
      ensures db.Contents() == old(db.Contents()) && db.calls == old(db.calls) + [Call(row.item, row.amount, ok)]
      ensures db.lost == old(db.lost)
      ensures var job := old(db.worker.job);
        db.worker == Worker(old(db.worker.queue), if ok then Persisting(job.work, job.rows, job.failed, row)
                                                        else Failing(job.work, job.rows, row))
    {
      ok := succeeds;
      db.Record(db.State(), Execute(ok));
    }

    method CompletePayoutItem(row: Row, committed: bool) returns (ok: bool)
      requires db.Valid() && db.worker.job.Persisting? && db.worker.job.row == row
      modifies db
      ensures ok == committed
      ensures db.Valid() && db.trace == old(db.trace) + [Persist(ok)] && db.services == old(db.services)
      ensures db.Contents() == if ok then PersistTx(old(db.Contents()), row) else old(db.Contents())
      ensures ok ==>
        && (row.item in old(db.items) ==>
              db.items == old(db.items)[row.item := old(db.items)[row.item].(status := ItemCompleted)])
        && (row.intent in old(db.addresses) ==>
              db.addresses == old(db.addresses)[row.intent := AddressSwept])
        && (row.intent in old(db.intents) ==>
              db.intents == if old(db.intents)[row.intent].status in {Confirmed, Overpaid}
                then old(db.intents)[row.intent := old(db.intents)[row.intent].(status := Settled)]
                else old(db.intents))
        && db.payouts == old(db.payouts) && db.ledger == old(db.ledger) && db.sessions == old(db.sessions)
        && db.outbox == old(db.outbox)
      ensures db.calls == old(db.calls)
      ensures db.lost == old(db.lost) + if ok then multiset{} else multiset{row.item}
      ensures var job := old(db.worker.job);
        db.worker == Worker(old(db.worker.queue), if ok then Items(job.work, job.rows, job.failed)
                                                        else Failing(job.work, job.rows, row))
    {
      ghost var before := db.State();
      var items, intents, addresses := CompleteRows(db.Contents(), row);
      ok := committed;
      if ok {
        db.items, db.intents, db.addresses := items, intents, addresses;
      }
      db.Record(before, Persist(ok));
    }

    method FinishPayoutIfComplete(work: Work, committed: bool) returns (ok: bool)
      requires db.Valid() && db.worker.job.Items? && db.worker.job.rows == [] && db.worker.job.work == work
      modifies db
      ensures ok == committed
      ensures db.Valid() && db.trace == old(db.trace) + [Finish(ok)] && db.services == old(db.services)
      ensures db.Contents() == if ok then FinishTx(old(db.Contents()), work) else old(db.Contents())
      ensures db.items == old(db.items)
      ensures
        if ok && work.payout in old(db.payouts) && old(db.payouts)[work.payout].status != Completed
           && forall k | k in db.items && db.items[k].payout == work.payout :: db.items[k].status == ItemCompleted
        then && db.payouts == old(db.payouts)[work.payout := old(db.payouts)[work.payout].(status := Completed)]
             && db.outbox == old(db.outbox) + [PayoutCompleted(work.payout, work.group, work.total)]
        else db.payouts == old(db.payouts) && db.outbox == old(db.outbox)
      ensures db.calls == old(db.calls) && db.lost == old(db.lost)
      ensures db.worker == Worker(old(db.worker.queue),
                                  if ok && !old(db.worker.job.failed) then Between else Retrying(work))
    {
      ghost var before := db.State();
      var payouts, outbox := CompleteIfDone(db.Contents(), work);
      ok := committed;
      if ok {
        db.payouts, db.outbox := payouts, outbox;
      }
      db.Record(before, Finish(ok));
    }

    method MarkItemFailed(row: Row, written: bool)
      requires db.Valid() && db.worker.job.Failing? && db.worker.job.row == row
      modifies db
      ensures db.Valid() && db.trace == old(db.trace) + [MarkFailed(written)] && db.services == old(db.services)
      ensures db.Contents() == if written then SetItem(old(db.Contents()), row.item, ItemFailed) else old(db.Contents())
      ensures db.items == if written && row.item in old(db.items)
        then old(db.items)[row.item := old(db.items)[row.item].(status := ItemFailed)] else old(db.items)
      ensures db.calls == old(db.calls) && db.lost == old(db.lost)
      ensures db.worker == Worker(old(db.worker.queue), Items(old(db.worker.job.work), old(db.worker.job.rows), true))
    {
      ghost var before := db.State();
      if written && row.item in db.items {
        db.items := db.items[row.item := db.items[row.item].(status := ItemFailed)];
      }
      db.Record(before, MarkFailed(written));
    }

    method MarkPayoutRetry(work: Work, written: bool)
      requires db.Valid() && db.worker.job == Retrying(work)
      modifies db
      ensures db.Valid() && db.trace == old(db.trace) + [Retry(written)] && db.services == old(db.services)
      ensures db.Contents() == if written then RetryTx(old(db.Contents()), work.payout) else old(db.Contents())
      ensures db.payouts ==
        if written && work.payout in old(db.payouts) && old(db.payouts)[work.payout].status != Completed
        then old(db.payouts)[work.payout := old(db.payouts)[work.payout].(status := Scheduled)] else old(db.payouts)
      ensures db.calls == old(db.calls) && db.lost == old(db.lost)
      ensures db.worker == Worker(old(db.worker.queue), Between)
    {
      ghost var before := db.State();
      if written && work.payout in db.payouts && db.payouts[work.payout].status != Completed {
        db.payouts := db.payouts[work.payout := db.payouts[work.payout].(status := Scheduled)];
      }
      db.Record(before, Retry(written));
    }

    // ---- A whole pass ----

    /** Whatever failed or interfered: the invariant holds, finished rows were left alone, and no completed item was
        executed again. Every group was scheduled and every payout handled as far as the circumstances let it; and
        when nothing fails and nothing else runs, every confirmed or overpaid intent without an item is paid what it had
        received, and settled. */
    method Process(f: Fate)
      requires db.Valid() && db.worker == Idle
      modifies db
      ensures db.Valid() && db.worker == Idle
      ensures old(db.trace) <= db.trace && (f.quiet ==> db.services == old(db.services))
      ensures Inv(db.State()) && Preserves(old(db.State()), db.State())
      ensures PassDone(f, old(db.State()), old(db.trace), db.State(), db.trace)
      ensures Lucky(f) ==> forall g, i | ToBePaid(old(db.Contents()), g, {}, i) ::
        PaidOut(db.State(), i, old(db.intents)[i].received)
    {
      ghost var s0, t0 := db.State(), db.trace;
      SchedulePayouts(f);
      ghost var t1 := db.trace;
      Meanwhile(f);
      ghost var s2, t2 := db.State(), db.trace;
      ScheduledLater(f, s0.db, t0, t1, t2);
      CompleteDuePayouts(f);
      LaterStates(s0, t0, db.State(), db.trace);
      if f.quiet { CountedSame(t2, db.trace, db.services); }
      if Lucky(f) {
        PaidInTheEnd(f, s0, t0, s2, t2, db.State(), db.trace);
        forall g, i | ToBePaid(s0.db, g, {}, i) { EligibleWhenToBePaid(s0.db, g, i); }
      }
    }
  }
}
