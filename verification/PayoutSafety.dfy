/** What the invariant gives over whole runs: money leaves once, totals are conserved, finished rows stay finished. */
module PayoutSafety {
  import opened Sums
  import opened Pricing
  import opened Tables
  import opened Protocol
  import opened Invariants

  /** Executor calls made for an item, successful or not. */
  function Attempts(calls: seq<Call>, item: Id): nat {
    if calls == [] then 0 else
      Attempts(calls[..|calls| - 1], item) + if calls[|calls| - 1].item == item then 1 else 0
  }

  /** What no later step undoes. */
  ghost predicate Preserves(s: Sys, s': Sys) {
    && (forall p | p in s.db.payouts ::
          && p in s'.db.payouts
          && s'.db.payouts[p].total == s.db.payouts[p].total
          && s'.db.payouts[p].group == s.db.payouts[p].group
          && (IsCompleted(s.db, p) ==> s'.db.payouts[p] == s.db.payouts[p]))
    && (forall k | k in s.db.items ::
          && k in s'.db.items
          && s'.db.items[k].payout == s.db.items[k].payout
          && s'.db.items[k].intent == s.db.items[k].intent
          && s'.db.items[k].amount == s.db.items[k].amount)
    && (forall k | k in s'.db.items && k !in s.db.items :: s'.db.items[k].payout !in s.db.payouts)
    && (forall k | ItemDone(s.db, k) :: ItemDone(s'.db, k) && Attempts(s'.calls, k) == Attempts(s.calls, k))
  }

  lemma AttemptsAppend(calls: seq<Call>, c: Call, k: Id)
    ensures Attempts(calls + [c], k) == Attempts(calls, k) + if c.item == k then 1 else 0
  {
    assert (calls + [c])[..|calls|] == calls;
  }

  lemma SchedulePreserves(s: Sys, payout: Id, group: Group, picks: seq<Pick>)
    requires Inv(s)
    ensures Preserves(s, ScheduleStep(s, payout, group, picks))
  {
    if ScheduleStep(s, payout, group, picks) != s {
      AddItemsAt(s.db.items, s.db.intents, payout, picks);
    }
  }

  /** Payout statuses move on, but not those of completed payouts. */
  lemma PayoutStatusPreserves(s: Sys, s': Sys)
    requires StatusChange(s.db, s'.db) && s'.db.items == s.db.items && s'.calls == s.calls
    requires forall p | IsCompleted(s.db, p) :: s'.db.payouts[p] == s.db.payouts[p]
    ensures Preserves(s, s')
  {}

  lemma ClaimPreserves(s: Sys, batch: seq<Id>)
    requires Inv(s)
    ensures Preserves(s, ClaimStep(s, batch))
  {
    if s.worker == Idle && Claimable(s.db, batch) { ClaimKeepsDbInv(s.db, batch); }
    PayoutStatusPreserves(s, ClaimStep(s, batch));
  }

  lemma FinishPreserves(s: Sys, ok: bool)
    requires Inv(s)
    ensures Preserves(s, FinishStep(s, ok))
  {
    if s.worker.job.Items? && s.worker.job.rows == [] && ok { FinishKeepsDbInv(s.db, s.worker.job.work); }
    PayoutStatusPreserves(s, FinishStep(s, ok));
  }

  lemma RetryPreserves(s: Sys, ok: bool)
    requires Inv(s)
    ensures Preserves(s, RetryStep(s, ok))
  {
    if s.worker.job.Retrying? && ok { RetryKeepsDbInv(s.db, s.worker.job.work.payout); }
    PayoutStatusPreserves(s, RetryStep(s, ok));
  }

  /** Item statuses move on and nothing else changes that matters here. */
  lemma ItemStatusPreserves(s: Sys, s': Sys)
    requires StatusChange(s.db, s'.db) && s'.db.payouts == s.db.payouts && s'.calls == s.calls
    requires forall k :: ItemDone(s.db, k) ==> ItemDone(s'.db, k)
    ensures Preserves(s, s')
  {}

  lemma BeginPreserves(s: Sys, ok: bool)
    requires Inv(s)
    ensures Preserves(s, BeginStep(s, ok))
  {
    var job := s.worker.job;
    if job.Items? && job.rows != [] && ok {
      assert RowValid(s.db, job.work, job.rows[0]);
      SetItemKeepsDbInv(s.db, job.rows[0].item, ItemProcessing);
    }
    ItemStatusPreserves(s, BeginStep(s, ok));
  }

  lemma PersistPreserves(s: Sys, ok: bool)
    requires Inv(s)
    ensures Preserves(s, PersistStep(s, ok))
  {
    if s.worker.job.Persisting? && ok { PersistKeepsDbInv(s.db, s.worker.job.work, s.worker.job.row); }
    ItemStatusPreserves(s, PersistStep(s, ok));
  }

  lemma MarkFailedPreserves(s: Sys, ok: bool)
    requires Inv(s)
    ensures Preserves(s, MarkFailedStep(s, ok))
  {
    if s.worker.job.Failing? && ok { SetItemKeepsDbInv(s.db, s.worker.job.row.item, ItemFailed); }
    ItemStatusPreserves(s, MarkFailedStep(s, ok));
  }

  lemma ExecutePreserves(s: Sys, ok: bool)
    requires Inv(s)
    ensures Preserves(s, ExecuteStep(s, ok))
  {
    if s.worker.job.Executing? {
      var row := s.worker.job.row;
      forall k { AttemptsAppend(s.calls, Call(row.item, row.amount, ok), k); }
    }
  }

  /** Moving the worker alone. */
  lemma MovePreserves(s: Sys, s': Sys)
    requires s'.db == s.db && s'.calls == s.calls
    ensures Preserves(s, s')
  {}

  lemma ServicePreserves(s: Sys, a: Action)
    requires Inv(s) && IsService(a)
    ensures Preserves(s, s.(db := ServiceStep(s.db, a)))
  {
    ServiceKeepsDbInv(s.db, a);
  }

  lemma ItemActionPreserves(s: Sys, a: Action)
    requires Inv(s) && (a.Begin? || a.Execute?)
    ensures Preserves(s, WorkerStep(s, a))
  {
    if a.Begin? { BeginPreserves(s, a.ok); } else { ExecutePreserves(s, a.ok); }
  }

  lemma ResultActionPreserves(s: Sys, a: Action)
    requires Inv(s) && (a.Persist? || a.MarkFailed?)
    ensures Preserves(s, WorkerStep(s, a))
  {
    if a.Persist? { PersistPreserves(s, a.ok); } else { MarkFailedPreserves(s, a.ok); }
  }

  lemma WorkerPreserves(s: Sys, a: Action)
    requires Inv(s) && !IsService(a)
    ensures Preserves(s, WorkerStep(s, a))
  {
    if a.Schedule? {
      SchedulePreserves(s, a.payout, a.group, a.picks);
    } else if a.Claim? {
      ClaimPreserves(s, a.batch);
    } else if a.Finish? {
      FinishPreserves(s, a.ok);
    } else if a.Retry? {
      RetryPreserves(s, a.ok);
    } else if a.Begin? || a.Execute? {
      ItemActionPreserves(s, a);
    } else if a.Persist? || a.MarkFailed? {
      ResultActionPreserves(s, a);
    } else {
      MovePreserves(s, WorkerStep(s, a));
    }
  }

  lemma StepPreserves(s: Sys, a: Action)
    requires Inv(s)
    ensures Preserves(s, Step(s, a))
  {
    if IsService(a) { ServicePreserves(s, a); } else { WorkerPreserves(s, a); }
  }

  lemma {:induction false} RunPreserves(s: Sys, actions: seq<Action>)
    requires Inv(s)
    ensures Preserves(s, Run(s, actions))
  {
    if actions != [] {
      var n := |actions| - 1;
      RunPreserves(s, actions[..n]);
      RunKeepsInv(s, actions[..n]);
      StepPreserves(Run(s, actions[..n]), actions[n]);
    }
  }

  // ---- The results ----

  /** In every reachable state an intent has at most one item, and every successful executor call for an item is the
      one that completed it, one being persisted right now, or one whose result was lost. */
  lemma PaidOnce(actions: seq<Action>, item: Id)
    ensures var s := Run(Start, actions);
      && (forall k, l | k in s.db.items && l in s.db.items && k != l :: s.db.items[k].intent != s.db.items[l].intent)
      && Successes(s.calls, item)
           == (if ItemDone(s.db, item) then 1 else 0) + (if InFlight(s.worker, item) then 1 else 0) + s.lost[item]
      && (s.lost[item] == 0 ==> Successes(s.calls, item) <= 1)
  {
    StartInv();
    RunKeepsInv(Start, actions);
    var s := Run(Start, actions);
    if InFlight(s.worker, item) {
      assert !ItemDone(s.db, item);
    }
  }

  /** Once an item is completed, whatever happens next (late confirmations, expiry, retries, crashes) it stays
      completed for the same amount and its executor is never called again. */
  lemma CompletedItemIsFinal(before: seq<Action>, after: seq<Action>, item: Id)
    requires ItemDone(Run(Start, before).db, item)
    ensures var s, s' := Run(Start, before), Run(Start, before + after);
      && ItemDone(s'.db, item)
      && s'.db.items[item] == s.db.items[item]
      && Attempts(s'.calls, item) == Attempts(s.calls, item)
  {
    StartInv();
    RunKeepsInv(Start, before);
    RunConcat(Start, before, after);
    RunPreserves(Run(Start, before), after);
  }

  /** From the scheduling commit on, a payout keeps its items, their amounts and its total, which is their sum. */
  lemma TotalIsConserved(before: seq<Action>, after: seq<Action>, payout: Id)
    requires payout in Run(Start, before).db.payouts
    ensures var db, db' := Run(Start, before).db, Run(Start, before + after).db;
      && payout in db'.payouts
      && ItemsOf(db'.items, payout) == ItemsOf(db.items, payout)
      && db'.payouts[payout].total == db.payouts[payout].total == Sum(ItemsOf(db'.items, payout))
      && (IsCompleted(db, payout) ==> db'.payouts[payout] == db.payouts[payout])
  {
    StartInv();
    RunKeepsInv(Start, before);
    RunConcat(Start, before, after);
    RunPreserves(Run(Start, before), after);
    SameItems(Run(Start, before).db.items, Run(Start, before + after).db.items, payout);
    RunKeepsInv(Start, before + after);
  }

  lemma {:induction false} SuccessWitness(calls: seq<Call>, k: Id)
    requires Successes(calls, k) > 0
    ensures exists c :: c in calls && c.item == k && c.ok
  {
    var n := |calls| - 1;
    if calls[n].item == k && calls[n].ok {
      assert calls[n] in calls;
    } else {
      SuccessWitness(calls[..n], k);
      var c :| c in calls[..n] && c.item == k && c.ok;
      assert c in calls;
    }
  }

  /** A completed item was executed successfully for its own amount, and the deposit address of its intent is swept. */
  lemma DoneIsPaid(s: Sys, k: Id)
    requires Inv(s) && ItemDone(s.db, k)
    ensures Call(k, s.db.items[k].amount, true) in s.calls
    ensures var i := s.db.items[k].intent; i in s.db.addresses && s.db.addresses[i] == AddressSwept
  {
    SuccessWitness(s.calls, k);
    var c :| c in s.calls && c.item == k && c.ok;
    assert c == Call(k, s.db.items[k].amount, true);
    assert HasCompletedItem(s.db, s.db.items[k].intent);
  }

  /** A completed payout: every item is completed and was executed for its own frozen amount, its money is swept,
      exactly one payout.completed event names it, and that event carries the sum of the amounts executed. */
  lemma CompletedPayoutIsPaid(actions: seq<Action>, payout: Id)
    requires IsCompleted(Run(Start, actions).db, payout)
    ensures var s := Run(Start, actions);
      && (forall k | k in s.db.items && s.db.items[k].payout == payout ::
            && ItemDone(s.db, k)
            && s.db.items[k].intent in s.db.addresses
            && s.db.addresses[s.db.items[k].intent] == AddressSwept
            && Call(k, s.db.items[k].amount, true) in s.calls)
      && Completions(s.db.outbox, payout) == 1
      && (forall e | e in s.db.outbox && e.PayoutCompleted? && e.payout == payout ::
            e.total == Sum(ItemsOf(s.db.items, payout)))
  {
    StartInv();
    RunKeepsInv(Start, actions);
    var s := Run(Start, actions);
    forall k | k in s.db.items && s.db.items[k].payout == payout
      ensures ItemDone(s.db, k) && Call(k, s.db.items[k].amount, true) in s.calls
      ensures s.db.items[k].intent in s.db.addresses && s.db.addresses[s.db.items[k].intent] == AddressSwept
    {
      assert AllItemsCompleted(s.db, payout);
      DoneIsPaid(s, k);
    }
  }

  /** An item is completed exactly when its deposit address is swept; settling an intent needs a completed item; no
      payout is announced that is not completed. */
  lemma TablesAgree(actions: seq<Action>)
    ensures var db := Run(Start, actions).db;
      && (forall k | k in db.items ::
            db.items[k].intent in db.addresses
            && (db.items[k].status == ItemCompleted <==> db.addresses[db.items[k].intent] == AddressSwept))
      && (forall i | i in db.intents && db.intents[i].status == Settled ::
            exists k :: k in db.items && db.items[k].intent == i && db.items[k].status == ItemCompleted)
      && (forall p :: Completions(db.outbox, p) == if IsCompleted(db, p) then 1 else 0)
  {
    StartInv();
    RunKeepsInv(Start, actions);
    var db := Run(Start, actions).db;
    forall k | k in db.items
      ensures db.items[k].status == ItemCompleted <==> HasCompletedItem(db, db.items[k].intent)
    {
      if HasCompletedItem(db, db.items[k].intent) {
        var l :| l in db.items && db.items[l].intent == db.items[k].intent && db.items[l].status == ItemCompleted;
        assert l == k;
      }
    }
    assert forall i | i in db.intents && db.intents[i].status == Settled :: HasCompletedItem(db, i);
  }

  // ---- An undisturbed scheduling pass ----

  /** The picks are exactly the eligible intents of the group that no other transaction holds. */
  ghost predicate PicksAll(db: Db, payout: Id, group: Group, picks: seq<Pick>, locked: set<Id>) {
    && Schedulable(db, payout, group, picks)
    && (forall p | p in picks :: p.intent !in locked)
    && (forall i | Eligible(db, i) && db.intents[i].group == group && i !in locked ::
          exists p :: p in picks && p.intent == i)
  }

  /** The pass schedules each group of its first query once, picking every eligible intent of it. */
  ghost predicate FullPick(db: Db, a: Action) {
    a.Schedule? && PicksAll(db, a.payout, a.group, a.picks, {})
  }

  function GroupsOf(pass: seq<Action>): set<Group> {
    set a | a in pass && a.Schedule? :: a.group
  }

  ghost predicate SomeEligible(db: Db, group: Group) {
    exists i :: Eligible(db, i) && db.intents[i].group == group
  }

  ghost predicate UndisturbedAt(s: Sys, pass: seq<Action>, n: nat)
    requires n < |pass|
  {
    && FullPick(Run(s, pass[..n]).db, pass[n])
    && pass[n].group !in GroupsOf(pass[..n])
    && SomeEligible(s.db, pass[n].group)
  }

  ghost predicate Undisturbed(s: Sys, pass: seq<Action>) {
    && s.worker == Idle
    && (forall n | 0 <= n < |pass| :: UndisturbedAt(s, pass, n))
    && (forall i | Eligible(s.db, i) :: s.db.intents[i].group in GroupsOf(pass))
  }

  /** Scheduling the groups in `done` turned the tables `before` into `db`. */
  ghost predicate Passed(before: Db, db: Db, done: set<Group>) {
    && db.intents == before.intents && db.now == before.now
    && (forall i :: Eligible(db, i) <==> Eligible(before, i) && before.intents[i].group !in done)
    && (forall p | p in before.payouts :: p in db.payouts && db.payouts[p] == before.payouts[p])
    && (forall k | k in before.items :: k in db.items && db.items[k] == before.items[k])
    && (forall k | k in db.items && k !in before.items :: db.items[k].payout !in before.payouts)
    && (forall p | p in db.payouts && p !in before.payouts :: HasItem(db, p) && Due(db, p))
    && (forall k | k in db.items && k !in before.items :: !ItemDone(db, k) && FrozenAmount(before, db.items[k]))
  }

  /** The item pays what its intent had received when it was scheduled. */
  predicate FrozenAmount(before: Db, item: Item) {
    item.intent in before.intents && item.amount == before.intents[item.intent].received
  }

  ghost predicate HasItem(db: Db, payout: Id) {
    exists k :: k in db.items && db.items[k].payout == payout
  }

  lemma EligibleAfter(db: Db, a: Action, i: Id)
    requires FullPick(db, a)
    ensures Eligible(ScheduleTx(db, a.payout, a.group, a.picks), i)
       <==> Eligible(db, i) && db.intents[i].group != a.group
  {
    var db' := ScheduleTx(db, a.payout, a.group, a.picks);
    AddItemsAt(db.items, db.intents, a.payout, a.picks);
    if Eligible(db, i) {
      if db.intents[i].group == a.group {
        var p :| p in a.picks && p.intent == i;
        assert db'.items[p.item].intent == i;
      } else {
        assert Unscheduled(db', i);
      }
    } else if i in db.intents && Payable(db.intents[i].status) {
      var k :| k in db.items && db.items[k].intent == i;
      assert db'.items[k].intent == i;
    }
  }

  lemma PassKeepsItems(before: Db, db: Db, done: set<Group>, a: Action)
    requires Passed(before, db, done) && FullPick(db, a)
    requires forall p | p in before.payouts :: p in db.payouts
    ensures var db' := ScheduleTx(db, a.payout, a.group, a.picks);
      && (forall k | k in before.items :: k in db'.items && db'.items[k] == before.items[k])
      && (forall k | k in db'.items && k !in before.items :: db'.items[k].payout !in before.payouts)
      && (forall k | k in db'.items && k !in before.items :: !ItemDone(db', k) && FrozenAmount(before, db'.items[k]))
  {
    AddItemsAt(db.items, db.intents, a.payout, a.picks);
  }

  lemma PassNewPayouts(before: Db, db: Db, done: set<Group>, a: Action)
    requires Passed(before, db, done) && FullPick(db, a) && SomeEligible(db, a.group)
    ensures var db' := ScheduleTx(db, a.payout, a.group, a.picks);
      forall p | p in db'.payouts && p !in before.payouts :: HasItem(db', p) && Due(db', p)
  {
    var db' := ScheduleTx(db, a.payout, a.group, a.picks);
    AddItemsAt(db.items, db.intents, a.payout, a.picks);
    forall p | p in db'.payouts && p !in before.payouts ensures HasItem(db', p) && Due(db', p) {
      if p in db.payouts {
        assert HasItem(db, p);
        var k :| k in db.items && db.items[k].payout == p;
        assert db'.items[k].payout == p;
      } else {
        var i :| Eligible(db, i) && db.intents[i].group == a.group;
        var pick :| pick in a.picks && pick.intent == i;
        assert db'.items[pick.item].payout == p;
      }
    }
  }

  lemma PassStep(before: Db, db: Db, done: set<Group>, a: Action)
    requires Passed(before, db, done) && FullPick(db, a)
    requires SomeEligible(db, a.group)
    ensures Passed(before, ScheduleTx(db, a.payout, a.group, a.picks), done + {a.group})
  {
    PassKeepsItems(before, db, done, a);
    PassNewPayouts(before, db, done, a);
    forall i { EligibleAfter(db, a, i); }
  }

  lemma UndisturbedNext(s: Sys, pass: seq<Action>, n: nat)
    requires Undisturbed(s, pass) && n < |pass|
    ensures FullPick(Run(s, pass[..n]).db, pass[n])
    ensures pass[n].group !in GroupsOf(pass[..n]) && SomeEligible(s.db, pass[n].group)
  {
    assert UndisturbedAt(s, pass, n);
  }

  /** Where the pass stands after its first actions. */
  ghost predicate PassedBy(s: Sys, done: seq<Action>) {
    var here := Run(s, done);
    here.worker == Idle && Passed(s.db, here.db, GroupsOf(done))
  }

  lemma PassedNothing(s: Sys)
    requires s.worker == Idle
    ensures PassedBy(s, [])
  {}

  lemma {:induction false} PassPrefix(s: Sys, pass: seq<Action>, n: nat)
    requires Undisturbed(s, pass) && n <= |pass|
    ensures PassedBy(s, pass[..n])
  {
    if n == 0 {
      PassedNothing(s);
    } else {
      PassPrefix(s, pass, n - 1);
      UndisturbedNext(s, pass, n - 1);
      PassExtends(s, pass[..n - 1], pass[n - 1]);
      assert pass[..n - 1] + [pass[n - 1]] == pass[..n];
    }
  }

  lemma PassExtends(s: Sys, done: seq<Action>, a: Action)
    requires PassedBy(s, done) && FullPick(Run(s, done).db, a)
    requires a.group !in GroupsOf(done) && SomeEligible(s.db, a.group)
    ensures PassedBy(s, done + [a])
  {
    var here := Run(s, done);
    StillEligible(s.db, here.db, GroupsOf(done), a.group);
    PassStep(s.db, here.db, GroupsOf(done), a);
    assert GroupsOf(done + [a]) == GroupsOf(done) + {a.group};
    ScheduleFromIdle(s, done, a);
  }

  lemma StillEligible(before: Db, db: Db, done: set<Group>, group: Group)
    requires Passed(before, db, done) && group !in done && SomeEligible(before, group)
    ensures SomeEligible(db, group)
  {
    var i :| Eligible(before, i) && before.intents[i].group == group;
    assert Eligible(db, i);
  }

  lemma ScheduleFromIdle(s: Sys, done: seq<Action>, a: Action)
    requires Run(s, done).worker == Idle && a.Schedule? && Schedulable(Run(s, done).db, a.payout, a.group, a.picks)
    ensures Run(s, done + [a])
            == Run(s, done).(db := ScheduleTx(Run(s, done).db, a.payout, a.group, a.picks))
  {
    RunAppend(s, done, a);
  }

  /** After an undisturbed pass every confirmed or overpaid intent has exactly one item, in a payout of its own
      merchant, chain and token; every new payout has an item; earlier payouts and items are unchanged. */
  lemma SchedulingPartitions(s: Sys, pass: seq<Action>)
    requires Inv(s) && Undisturbed(s, pass)
    ensures var db := Run(s, pass).db;
      && ItemsLinked(db)
      && (forall i | i in db.intents && Payable(db.intents[i].status) :: !Unscheduled(db, i))
      && (forall p | p in db.payouts && p !in s.db.payouts :: HasItem(db, p))
      && (forall p | p in s.db.payouts ::
            p in db.payouts && db.payouts[p] == s.db.payouts[p] && ItemsOf(db.items, p) == ItemsOf(s.db.items, p))
  {
    PassPrefix(s, pass, |pass|);
    assert pass[..|pass|] == pass;
    RunKeepsInv(s, pass);
    PassedAll(s.db, Run(s, pass).db, GroupsOf(pass));
  }

  /** And every intent that was eligible has its item in a payout that is due, still to be executed. */
  lemma EligibleIsScheduled(s: Sys, pass: seq<Action>, i: Id)
    requires Inv(s) && Undisturbed(s, pass) && Eligible(s.db, i)
    ensures var db := Run(s, pass).db;
      && db.intents == s.db.intents
      && exists k :: && k in db.items && db.items[k].intent == i && !ItemDone(db, k)
                     && db.items[k].amount == s.db.intents[i].received
                     && db.items[k].payout in db.payouts && Due(db, db.items[k].payout)
  {
    PassPrefix(s, pass, |pass|);
    assert pass[..|pass|] == pass;
    RunKeepsInv(s, pass);
    var db := Run(s, pass).db;
    assert !Eligible(db, i);
    var k :| k in db.items && db.items[k].intent == i;
    assert k !in s.db.items;
  }

  lemma PassedAll(before: Db, db: Db, done: set<Group>)
    requires Passed(before, db, done)
    requires forall i | Eligible(before, i) :: before.intents[i].group in done
    ensures forall i | i in db.intents && Payable(db.intents[i].status) :: !Unscheduled(db, i)
    ensures forall p | p in before.payouts :: ItemsOf(db.items, p) == ItemsOf(before.items, p)
  {
    forall i | i in db.intents && Payable(db.intents[i].status) ensures !Unscheduled(db, i) {
      assert !Eligible(db, i);
    }
    forall p | p in before.payouts ensures ItemsOf(db.items, p) == ItemsOf(before.items, p) {
      SameItems(before.items, db.items, p);
    }
  }
}
