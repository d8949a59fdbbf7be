/** What becomes of the items of one payout, and of one pass of the payout worker, as a function of the circumstances:
    which statements, commits and executions go through. */
module PayoutPass {
  import opened Pricing
  import opened Tables
  import opened Protocol
  import opened Invariants
  import opened PayoutSafety

  /** The circumstances of a pass. `quiet` means that no other service runs between the statements; the functions take
      a group, a payout or an item. `breaks` tells at which item the cursor over a payout's rows fails. */
  datatype Fate = Fate(
    quiet: bool,
    lockedIntents: Group -> set<Id>, commits: Group -> bool,
    lockedPayouts: set<Id>, claims: bool,
    loads: Id -> bool, finishes: Id -> bool, reschedules: Id -> bool,
    breaks: Id -> bool, readable: Id -> bool, configured: Id -> bool, begins: Id -> bool,
    executes: Id -> bool, persists: Id -> bool, marks: Id -> bool)

  // ---- One item ----

  /** Nothing stops the item from being executed and completed. */
  predicate Succeeds(f: Fate, item: Id) {
    f.readable(item) && f.configured(item) && f.executes(item) && f.persists(item)
  }

  predicate Executed(f: Fate, item: Id) {
    f.readable(item) && f.configured(item)
  }

  function Begun(items: map<Id, Item>, item: Id): map<Id, Item> {
    if item in items && items[item].status != ItemCompleted then WithStatus(items, item, ItemProcessing) else items
  }

  function WithFailure(f: Fate, items: map<Id, Item>, item: Id): map<Id, Item> {
    if f.marks(item) then WithStatus(items, item, ItemFailed) else items
  }

  /** The item table after one row. */
  function ItemAfter(f: Fate, items: map<Id, Item>, item: Id): map<Id, Item> {
    if !f.readable(item) then items
    else if !f.configured(item) then WithFailure(f, items, item)
    else
      var begun := if f.begins(item) then Begun(items, item) else items;
      if Succeeds(f, item) then WithStatus(begun, item, ItemCompleted) else WithFailure(f, begun, item)
  }

  function CallMade(f: Fate, row: Row): seq<Call> {
    if Executed(f, row.item) then [Call(row.item, row.amount, f.executes(row.item))] else []
  }

  // ---- The rows of a payout ----

  /** The rows before the cursor fails. */
  function RowsRead(f: Fate, rows: seq<Row>): seq<Row> {
    if rows == [] || f.breaks(rows[0].item) then [] else [rows[0]] + RowsRead(f, rows[1..])
  }

  function ItemsAfter(f: Fate, items: map<Id, Item>, rows: seq<Row>): map<Id, Item> {
    if rows == [] || f.breaks(rows[0].item) then items
    else ItemsAfter(f, ItemAfter(f, items, rows[0].item), rows[1..])
  }

  function CallsMade(f: Fate, rows: seq<Row>): seq<Call> {
    if rows == [] || f.breaks(rows[0].item) then [] else CallMade(f, rows[0]) + CallsMade(f, rows[1..])
  }

  predicate AllSucceed(f: Fate, rows: seq<Row>) {
    forall r | r in rows :: !f.breaks(r.item) && Succeeds(f, r.item)
  }

  lemma SucceedFrom(f: Fate, rows: seq<Row>)
    requires rows != []
    ensures AllSucceed(f, rows) <==> !f.breaks(rows[0].item) && Succeeds(f, rows[0].item) && AllSucceed(f, rows[1..])
  {
    assert rows == [rows[0]] + rows[1..];
    assert forall r :: r in rows <==> r == rows[0] || r in rows[1..];
  }

  // ---- The payout itself ----

  function WithPayoutStatus(payouts: map<Id, Payout>, payout: Id, status: PayoutStatus): map<Id, Payout> {
    if payout in payouts && payouts[payout].status != Completed
    then payouts[payout := payouts[payout].(status := status)] else payouts
  }

  /** The payout table after the rows: completed if the finishing transaction commits and no item is left (`done`);
      then, if finishing or any row failed and the statement goes through, rescheduled. */
  function PayoutsAfter(f: Fate, payouts: map<Id, Payout>, done: bool, rows: seq<Row>, payout: Id): map<Id, Payout> {
    var finished := if f.finishes(payout) && done then WithPayoutStatus(payouts, payout, Completed) else payouts;
    if (!f.finishes(payout) || !AllSucceed(f, rows)) && f.reschedules(payout)
    then WithPayoutStatus(finished, payout, Scheduled) else finished
  }

  // ---- What this means for an item ----

  predicate DistinctRows(rows: seq<Row>) {
    forall i, j | 0 <= i < j < |rows| :: rows[i].item != rows[j].item
  }

  predicate InRows(rows: seq<Row>, k: Id) {
    exists i | 0 <= i < |rows| :: rows[i].item == k
  }

  /** A row concerns its own item, and what it does to it depends on that item alone. */
  lemma ItemAfterIsLocal(f: Fate, items: map<Id, Item>, item: Id, k: Id)
    requires k in items
    ensures ItemAfter(f, items, item).Keys == items.Keys
    ensures k != item ==> ItemAfter(f, items, item)[k] == items[k]
    ensures forall others: map<Id, Item> | k in others && others[k] == items[k] ::
              k in ItemAfter(f, others, k) && ItemAfter(f, others, k)[k] == ItemAfter(f, items, k)[k]
  {}

  lemma InCons(head: Row, rest: seq<Row>, k: Id)
    ensures InRows([head] + rest, k) <==> head.item == k || InRows(rest, k)
  {
    var all := [head] + rest;
    assert all[0] == head;
    if i :| 0 <= i < |rest| && rest[i].item == k { assert all[i + 1].item == k; }
    if i :| 0 <= i < |all| && all[i].item == k { assert i == 0 || rest[i - 1].item == k; }
  }

  lemma {:induction false} ReadAreRows(f: Fate, rows: seq<Row>, k: Id)
    ensures InRows(RowsRead(f, rows), k) ==> InRows(rows, k)
    ensures (forall r | r in rows :: !f.breaks(r.item)) ==> RowsRead(f, rows) == rows
  {
    if rows != [] && !f.breaks(rows[0].item) {
      ReadAreRows(f, rows[1..], k);
      assert rows == [rows[0]] + rows[1..];
      InCons(rows[0], rows[1..], k);
      InCons(rows[0], RowsRead(f, rows[1..]), k);
    }
  }

  /** Each row that is read gets what its own circumstances give it, whatever happens to the others. */
  lemma {:induction false} ItemsAfterAt(f: Fate, items: map<Id, Item>, rows: seq<Row>, k: Id)
    requires DistinctRows(rows) && k in items
    ensures k in ItemsAfter(f, items, rows)
    ensures ItemsAfter(f, items, rows)[k]
            == if InRows(RowsRead(f, rows), k) then ItemAfter(f, items, k)[k] else items[k]
    decreases |rows|
  {
    ItemAfterIsLocal(f, items, k, k);
    if rows != [] && !f.breaks(rows[0].item) {
      var head, rest, next := rows[0], rows[1..], ItemAfter(f, items, rows[0].item);
      ItemAfterIsLocal(f, items, head.item, k);
      ItemsAfterAt(f, next, rest, k);
      InCons(head, RowsRead(f, rest), k);
      ReadAreRows(f, rest, k);
      if head.item == k {
        assert forall i | 0 <= i < |rest| :: rest[i] == rows[i + 1];
        assert !InRows(rest, k);
      } else {
        ItemAfterIsLocal(f, items, k, k);
      }
    }
  }

  /** An item whose circumstances are good is completed. */
  lemma SucceedsMeansDone(f: Fate, items: map<Id, Item>, k: Id)
    requires k in items
    ensures Succeeds(f, k) ==> ItemAfter(f, items, k)[k].status == ItemCompleted
    ensures !Succeeds(f, k) && items[k].status != ItemCompleted ==> ItemAfter(f, items, k)[k].status != ItemCompleted
  {}

  lemma {:induction false} AttemptsConcat(a: seq<Call>, b: seq<Call>, k: Id)
    ensures Attempts(a + b, k) == Attempts(a, k) + Attempts(b, k)
  {
    if b == [] {
      assert a + b == a;
    } else {
      var n := |b| - 1;
      AttemptsConcat(a, b[..n], k);
      assert (a + b)[..|a + b| - 1] == a + b[..n];
    }
  }

  lemma OneCall(f: Fate, row: Row, k: Id)
    ensures Attempts(CallMade(f, row), k) == if row.item == k && Executed(f, k) then 1 else 0
  {
    if Executed(f, row.item) { AttemptsAppend([], Call(row.item, row.amount, f.executes(row.item)), k); }
  }

  /** A row that is read is executed once, if its circumstances let it come to that; others are not executed. */
  lemma {:induction false} CallsMadeFor(f: Fate, rows: seq<Row>, k: Id)
    requires DistinctRows(rows)
    ensures Attempts(CallsMade(f, rows), k) == if InRows(RowsRead(f, rows), k) && Executed(f, k) then 1 else 0
    decreases |rows|
  {
    if rows != [] && !f.breaks(rows[0].item) {
      var head, rest := rows[0], rows[1..];
      CallsMadeFor(f, rest, k);
      OneCall(f, head, k);
      AttemptsConcat(CallMade(f, head), CallsMade(f, rest), k);
      InCons(head, RowsRead(f, rest), k);
      ReadAreRows(f, rest, k);
      if head.item == k {
        assert forall i | 0 <= i < |rest| :: rest[i] == rows[i + 1];
        assert !InRows(rest, k);
      }
    }
  }

  // ---- A payout handled by a pass ----

  /** The cursor over the payout's rows reaches the end. */
  ghost predicate ReadsAll(f: Fate, db: Db, payout: Id) {
    forall k | Executable(db, payout, k) :: !f.breaks(k)
  }

  /** Every item of the payout that was executable in `s` and whose circumstances are good is completed in `s'`, by one
      more execution. */
  ghost predicate Handled(f: Fate, s: Sys, s': Sys, payout: Id) {
    f.loads(payout) && ReadsAll(f, s.db, payout) ==>
      forall k | Executable(s.db, payout, k) && Succeeds(f, k) ::
        ItemDone(s'.db, k) && Attempts(s'.calls, k) == Attempts(s.calls, k) + 1
  }

  /** The tables and calls after a payout was loaded in `s`, with the rows `selected`, and processed. */
  ghost predicate Outcome(f: Fate, s: Sys, s': Sys, payout: Id, selected: seq<Id>) {
    && Loadable(s.db, payout, selected)
    && var rows := LoadedRows(s.db, selected);
    && s'.db.items == ItemsAfter(f, s.db.items, rows)
    && s'.calls == s.calls + CallsMade(f, rows)
    && s'.db.payouts == PayoutsAfter(f, s.db.payouts, AllItemsCompleted(s'.db, payout), rows, payout)
  }

  /** The payout table afterwards: the payout, unless it was completed before, is completed if the finishing
      transaction commits and none of its items is left, otherwise rescheduled if anything failed and the statement goes
      through, and otherwise as it was; no other payout changes. */
  ghost predicate PayoutLeft(f: Fate, s: Sys, s': Sys, payout: Id) {
    var db, db' := s.db, s'.db;
    && db'.payouts.Keys == db.payouts.Keys
    && (forall p | p in db.payouts && (p != payout || db.payouts[p].status == Completed) ::
          db'.payouts[p] == db.payouts[p])
    && (payout in db.payouts && db.payouts[payout].status != Completed ==>
          db'.payouts[payout] == db.payouts[payout].(status :=
            if f.finishes(payout)
               && forall k | k in db'.items && db'.items[k].payout == payout :: db'.items[k].status == ItemCompleted
            then Completed
            else if f.reschedules(payout)
               && (|| !f.finishes(payout)
                   || exists k :: && Executable(db, payout, k)
                                  && !(&& !f.breaks(k) && f.readable(k) && f.configured(k)
                                       && f.executes(k) && f.persists(k)))
            then Scheduled
            else db.payouts[payout].status))
  }

  lemma AllSucceedRows(f: Fate, db: Db, payout: Id, selected: seq<Id>)
    requires Loadable(db, payout, selected)
    ensures AllSucceed(f, LoadedRows(db, selected)) <==>
            forall k | Executable(db, payout, k) ::
              !f.breaks(k) && f.readable(k) && f.configured(k) && f.executes(k) && f.persists(k)
  {
    var rows := LoadedRows(db, selected);
    if AllSucceed(f, rows) {
      forall k | Executable(db, payout, k)
        ensures !f.breaks(k) && f.readable(k) && f.configured(k) && f.executes(k) && f.persists(k)
      {
        var i :| 0 <= i < |selected| && selected[i] == k;
        assert rows[i] in rows && rows[i].item == k;
      }
    }
    forall r | r in rows ensures Executable(db, payout, r.item) {
      var i :| 0 <= i < |rows| && rows[i] == r;
      assert selected[i] in selected;
    }
  }

  lemma OutcomeLeaves(f: Fate, s: Sys, s': Sys, payout: Id, selected: seq<Id>)
    requires Outcome(f, s, s', payout, selected)
    ensures PayoutLeft(f, s, s', payout)
  {
    AllSucceedRows(f, s.db, payout, selected);
  }

  /** A row is read when the cursor fails neither at it nor before it. */
  lemma {:induction false} ReadUntilBreak(f: Fate, rows: seq<Row>, k: Id)
    ensures InRows(RowsRead(f, rows), k)
            <==> exists n | 0 <= n < |rows| :: rows[n].item == k && forall m | 0 <= m <= n :: !f.breaks(rows[m].item)
    decreases |rows|
  {
    if rows != [] && !f.breaks(rows[0].item) {
      var rest := rows[1..];
      ReadUntilBreak(f, rest, k);
      InCons(rows[0], RowsRead(f, rest), k);
      if n :| 0 <= n < |rest| && rest[n].item == k && forall m | 0 <= m <= n :: !f.breaks(rest[m].item) {
        assert rows[n + 1].item == k;
        assert forall m | 0 <= m <= n + 1 :: rows[m] == if m == 0 then rows[0] else rest[m - 1];
      }
      if n :| 0 <= n < |rows| && rows[n].item == k && forall m | 0 <= m <= n :: !f.breaks(rows[m].item) {
        if n > 0 { assert rest[n - 1].item == k && forall m | 0 <= m <= n - 1 :: rest[m] == rows[m + 1]; }
      }
    }
  }

  lemma HandledNow(f: Fate, s: Sys, s': Sys, payout: Id, selected: seq<Id>)
    requires Outcome(f, s, s', payout, selected)
    ensures Handled(f, s, s', payout)
  {
    var rows := LoadedRows(s.db, selected);
    if ReadsAll(f, s.db, payout) {
      forall r | r in rows ensures !f.breaks(r.item) {
        var i :| 0 <= i < |rows| && rows[i] == r;
        assert Executable(s.db, payout, selected[i]);
      }
      forall k | Executable(s.db, payout, k) && Succeeds(f, k)
        ensures ItemDone(s'.db, k) && Attempts(s'.calls, k) == Attempts(s.calls, k) + 1
      {
        var i :| 0 <= i < |selected| && selected[i] == k;
        assert rows[i].item == k;
        assert DistinctRows(rows) && InRows(rows, k);
        ReadAreRows(f, rows, k);
        ItemsAfterAt(f, s.db.items, rows, k);
        SucceedsMeansDone(f, s.db.items, k);
        CallsMadeFor(f, rows, k);
        AttemptsConcat(s.calls, CallsMade(f, rows), k);
      }
    }
  }

  /** The outcome counted from the load, whose own step changes neither tables nor calls. */
  lemma OutcomeMeans(f: Fate, s: Sys, loaded: Sys, s': Sys, payout: Id, selected: seq<Id>)
    requires s.db == loaded.db && s.calls == loaded.calls && Outcome(f, loaded, s', payout, selected)
    ensures Outcome(f, s, s', payout, selected) && PayoutLeft(f, s, s', payout) && Handled(f, s, s', payout)
  {
    OutcomeLeaves(f, s, s', payout, selected);
    HandledNow(f, s, s', payout, selected);
  }

  lemma HandledStays(f: Fate, s: Sys, s': Sys, s'': Sys, payout: Id)
    requires Handled(f, s, s', payout) && Preserves(s', s'')
    ensures Handled(f, s, s'', payout)
  {
    if f.loads(payout) && ReadsAll(f, s.db, payout) {
      forall k | Executable(s.db, payout, k) && Succeeds(f, k)
        ensures ItemDone(s''.db, k) && Attempts(s''.calls, k) == Attempts(s.calls, k) + 1
      {
        assert ItemDone(s'.db, k);
      }
    }
  }

  // ---- A quiet pass ----

  /** Without the other services, the intent of an item is not touched until the item is completed, which settles it;
      and an intent that is not payable is not touched at all. */
  ghost predicate IntentsWait(db: Db, db': Db) {
    && (forall i | i in db.intents && db.intents[i].status !in {Confirmed, Overpaid} ::
          i in db'.intents && db'.intents[i] == db.intents[i])
    && (forall k | k in db.items && db.items[k].intent in db.intents && !ItemDone(db, k) ::
          IntentWaits(db.intents, db'.intents, db.items[k].intent, ItemDone(db', k)))
  }

  predicate IntentWaits(intents: map<Id, Intent>, intents': map<Id, Intent>, i: Id, done: bool)
    requires i in intents
  {
    && i in intents'
    && intents'[i] == if done && intents[i].status in {Confirmed, Overpaid} then intents[i].(status := Settled)
                      else intents[i]
  }

  lemma PersistWaits(s: Sys, ok: bool)
    requires Inv(s)
    ensures IntentsWait(s.db, PersistStep(s, ok).db)
  {
    var job := s.worker.job;
    if job.Persisting? && ok {
      assert RowValid(s.db, job.work, job.row);
      PersistKeepsDbInv(s.db, job.work, job.row);
      forall k | k in s.db.items && s.db.items[k].intent == job.row.intent ensures k == job.row.item {}
    }
  }

  lemma ScheduleCompletesNothing(s: Sys, a: Action, k: Id)
    requires a.Schedule? && k in s.db.items && !ItemDone(s.db, k)
    ensures !ItemDone(WorkerStep(s, a).db, k)
  {
    if Schedulable(s.db, a.payout, a.group, a.picks) { AddItemsAt(s.db.items, s.db.intents, a.payout, a.picks); }
  }

  lemma ItemActionCompletesNothing(s: Sys, a: Action, k: Id)
    requires IsItemAction(a) && !a.Persist? && !ItemDone(s.db, k)
    ensures !ItemDone(WorkerStep(s, a).db, k)
  {}

  /** Only persisting a result completes an item. */
  lemma OnlyPersistCompletes(s: Sys, a: Action, k: Id)
    requires !IsService(a) && !a.Persist? && k in s.db.items && !ItemDone(s.db, k)
    ensures !ItemDone(Step(s, a).db, k)
  {
    if a.Schedule? {
      ScheduleCompletesNothing(s, a, k);
    } else if IsItemAction(a) {
      ItemActionCompletesNothing(s, a, k);
    }
  }

  lemma StepWaits(s: Sys, a: Action)
    requires Inv(s) && !IsService(a)
    ensures IntentsWait(s.db, Step(s, a).db)
  {
    if a.Persist? {
      PersistWaits(s, a.ok);
    } else {
      WorkerLeavesPayments(s, a);
      forall k | k in s.db.items && !ItemDone(s.db, k) { OnlyPersistCompletes(s, a, k); }
    }
  }

  lemma {:induction false} RunWaits(s: Sys, steps: seq<Action>)
    requires Inv(s) && WorkerOnly(steps)
    ensures IntentsWait(s.db, Run(s, steps).db)
  {
    if steps != [] {
      var n := |steps| - 1;
      var mid := Run(s, steps[..n]);
      RunWaits(s, steps[..n]);
      RunKeepsInv(s, steps[..n]);
      RunPreserves(s, steps[..n]);
      StepWaits(mid, steps[n]);
      StepPreserves(mid, steps[n]);
      forall k | k in s.db.items && s.db.items[k].intent in s.db.intents && !ItemDone(s.db, k)
        ensures IntentWaits(s.db.intents, Run(s, steps).db.intents, s.db.items[k].intent,
                            ItemDone(Run(s, steps).db, k))
      {
        assert mid.db.items[k].intent == s.db.items[k].intent;
      }
    }
  }

  /** Nothing fails for any payout or item. */
  ghost predicate Lucky(f: Fate) {
    && f.quiet && f.claims && f.lockedPayouts == {} && (forall k :: !f.breaks(k))
    && (forall g :: f.commits(g) && f.lockedIntents(g) == {})
    && (forall p :: f.loads(p) && f.finishes(p))
    && (forall k :: Succeeds(f, k))
  }

  /** An item whose intent is payable when the payouts are claimed is completed in the end, if only the worker runs. */
  lemma WaitingItemIsPaid(f: Fate, s: Sys, toLoad: seq<Action>, afterLoad: seq<Action>, k: Id)
    requires Inv(s) && WorkerOnly(toLoad) && Lucky(f)
    requires k in s.db.items && s.db.items[k].intent in s.db.intents
    requires Payable(s.db.intents[s.db.items[k].intent].status)
    requires Handled(f, Run(s, toLoad), Run(Run(s, toLoad), afterLoad), s.db.items[k].payout)
    ensures ItemDone(Run(Run(s, toLoad), afterLoad).db, k)
    ensures Run(Run(s, toLoad), afterLoad).db.items[k].intent == s.db.items[k].intent
  {
    var loaded := Run(s, toLoad);
    RunWaits(s, toLoad);
    RunKeepsInv(s, toLoad);
    RunPreserves(s, toLoad);
    RunPreserves(loaded, afterLoad);
    if !ItemDone(loaded.db, k) {
      assert Executable(loaded.db, s.db.items[k].payout, k);
    }
  }
}
