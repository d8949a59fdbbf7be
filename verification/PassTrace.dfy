/** What a pass of the payout worker leaves in the trace of the database, told without replaying the run. */
module PassTrace {
  import opened Pricing
  import opened Tables
  import opened Protocol
  import opened Invariants
  import opened PayoutSafety
  import opened PayoutPass

  // ---- Reachable states ----

  /** Between reachable states nothing finished is undone. */
  lemma LaterStates(s: Sys, before: seq<Action>, s': Sys, after: seq<Action>)
    requires Reached(s, before) && Reached(s', after) && before <= after
    ensures Inv(s) && Inv(s') && Preserves(s, s')
    ensures s' == Run(s, after[|before|..])
  {
    ReachedIs(s, before);
    ReachedIs(s', after);
    StartInv();
    RunKeepsInv(Start, before);
    RunKeepsInv(Start, after);
    var rest := after[|before|..];
    assert before + rest == after;
    RunConcat(Start, before, rest);
    RunPreserves(s, rest);
  }

  /** In `s` the worker turned to the payout: its next action was to load the rows. */
  ghost predicate LoadsNext(s: Sys, at: seq<Action>, to: seq<Action>, payout: Id, loads: bool) {
    && s.worker.queue != [] && s.worker.queue[0].payout == payout
    && exists selected :: at + [Load(loads, selected)] <= to
  }

  /** At some moment between the two traces the worker loaded the payout, and by `s'` it has been handled. */
  ghost predicate HandledSince(f: Fate, from: seq<Action>, to: seq<Action>, s': Sys, payout: Id) {
    exists s: Sys, at: seq<Action> ::
      && Reached(s, at) && from <= at <= to
      && LoadsNext(s, at, to, payout, f.loads(payout))
      && Handled(f, s, s', payout)
  }

  lemma HandledLater(f: Fate, from: seq<Action>, mid: seq<Action>, to: seq<Action>, s': Sys, s'': Sys, payout: Id)
    requires HandledSince(f, from, mid, s', payout) && Reached(s', mid) && Reached(s'', to) && mid <= to
    ensures HandledSince(f, from, to, s'', payout)
  {
    var s: Sys, at: seq<Action> :|
      && Reached(s, at) && from <= at <= mid
      && LoadsNext(s, at, mid, payout, f.loads(payout))
      && Handled(f, s, s', payout);
    var selected :| at + [Load(f.loads(payout), selected)] <= mid;
    assert at + [Load(f.loads(payout), selected)] <= to;
    LaterStates(s', mid, s'', to);
    HandledStays(f, s, s', s'', payout);
  }

  // ---- A lucky pass ----

  lemma PassReaches(s0: Sys, t0: seq<Action>, pass: seq<Action>)
    requires Reached(s0, t0)
    ensures Reached(Run(s0, pass), t0 + pass)
  {
    ReachedIs(s0, t0);
    RunConcat(Start, t0, pass);
    ReachedIs(Run(s0, pass), t0 + pass);
  }

  lemma WhenHandled(f: Fate, from: seq<Action>, to: seq<Action>, s': Sys, payout: Id) returns (s: Sys, at: seq<Action>)
    requires HandledSince(f, from, to, s', payout)
    ensures Reached(s, at) && from <= at <= to && Handled(f, s, s', payout)
  {
    s, at :|
      && Reached(s, at) && from <= at <= to
      && LoadsNext(s, at, to, payout, f.loads(payout))
      && Handled(f, s, s', payout);
  }

  /** The intent was paid the given amount: its item is completed for that amount, the executor was successfully called
      for it, the deposit address is swept and the intent settled. */
  ghost predicate PaidOut(s: Sys, i: Id, amount: real) {
    && (exists k :: && k in s.db.items && s.db.items[k].intent == i && s.db.items[k].amount == amount
                    && s.db.items[k].status == ItemCompleted && Call(k, amount, true) in s.calls)
    && i in s.db.intents && s.db.intents[i].status == Settled
    && i in s.db.addresses && s.db.addresses[i] == AddressSwept
  }

  lemma DueItemIsPaid(f: Fate, s: Sys, from: seq<Action>, s': Sys, to: seq<Action>, k: Id)
    requires Reached(s, from) && Reached(s', to) && from <= to && WorkerOnly(to[|from|..]) && Lucky(f)
    requires k in s.db.items && s.db.items[k].intent in s.db.intents && !ItemDone(s.db, k)
    requires Payable(s.db.intents[s.db.items[k].intent].status)
    requires HandledSince(f, from, to, s', s.db.items[k].payout)
    ensures PaidOut(s', s.db.items[k].intent, s.db.items[k].amount)
  {
    DueItemIsDone(f, s, from, s', to, k);
    LaterStates(s, from, s', to);
    RunWaits(s, to[|from|..]);
    DoneIsPaid(s', k);
  }

  lemma DueItemIsDone(f: Fate, s: Sys, from: seq<Action>, s': Sys, to: seq<Action>, k: Id)
    requires Reached(s, from) && Reached(s', to) && from <= to && WorkerOnly(to[|from|..]) && Lucky(f)
    requires k in s.db.items && s.db.items[k].intent in s.db.intents
    requires Payable(s.db.intents[s.db.items[k].intent].status)
    requires HandledSince(f, from, to, s', s.db.items[k].payout)
    ensures ItemDone(s'.db, k)
  {
    var loaded, at := WhenHandled(f, from, to, s', s.db.items[k].payout);
    LaterStates(s, from, loaded, at);
    LaterStates(loaded, at, s', to);
    assert at[|from|..] <= to[|from|..];
    WaitingItemIsPaid(f, s, at[|from|..], to[|at|..], k);
  }

  /** After an undisturbed scheduling pass and a pass over all due payouts, with nothing else running and nothing
      failing, every intent that was eligible at the start is paid what it had received, and settled. */
  lemma LuckyPassPays(f: Fate, s0: Sys, t0: seq<Action>, pass: seq<Action>, s': Sys, to: seq<Action>, i: Id)
    requires Lucky(f) && Reached(s0, t0) && Undisturbed(s0, pass) && Eligible(s0.db, i)
    requires Reached(s', to) && t0 + pass <= to && WorkerOnly(to[|t0 + pass|..])
    requires forall p | Due(Run(s0, pass).db, p) :: HandledSince(f, t0 + pass, to, s', p)
    ensures PaidOut(s', i, s0.db.intents[i].received)
  {
    var s := Run(s0, pass);
    LaterStates(s0, t0, s0, t0);
    EligibleIsScheduled(s0, pass, i);
    PassReaches(s0, t0, pass);
    var k :| k in s.db.items && s.db.items[k].intent == i && !ItemDone(s.db, k)
             && s.db.items[k].amount == s0.db.intents[i].received
             && s.db.items[k].payout in s.db.payouts && Due(s.db, s.db.items[k].payout);
    DueItemIsPaid(f, s, t0 + pass, s', to, k);
  }

  // ---- The scheduling pass ----

  /** Between the two traces a payout of the group was scheduled, with every intent of the group that was eligible at
      that moment and not held by another transaction. */
  ghost predicate GroupScheduled(f: Fate, before: seq<Action>, after: seq<Action>, group: Group) {
    exists s: Sys, at: seq<Action>, payout: Id, picks: seq<Pick> ::
      && Reached(s, at) && before <= at
      && at + [Schedule(payout, group, picks)] <= after
      && PicksAll(s.db, payout, group, picks, f.lockedIntents(group))
  }

  ghost predicate AllScheduled(f: Fate, before: seq<Action>, after: seq<Action>, done: seq<Group>) {
    forall g | g in done && f.commits(g) :: GroupScheduled(f, before, after, g)
  }

  /** The groups cover every intent that was eligible, and were scheduled between the two traces. */
  ghost predicate PassScheduled(f: Fate, before: Db, from: seq<Action>, to: seq<Action>) {
    exists groups: seq<Group> ::
      && (forall i | Eligible(before, i) :: before.intents[i].group in groups)
      && AllScheduled(f, from, to, groups)
  }

  /** Nothing else runs, nothing is locked and every scheduling transaction goes through. */
  ghost predicate Calm(f: Fate) {
    f.quiet && forall g :: f.commits(g) && f.lockedIntents(g) == {}
  }

  /** The pass so far: its m-th action scheduled the m-th group, with all its eligible intents, in the state
      marks[m]. */
  ghost predicate PassLog(from: seq<Action>, marks: seq<Sys>, pass: seq<Action>, groups: seq<Group>) {
    && |marks| == |pass| <= |groups|
    && forall m | 0 <= m < |pass| ::
         && Reached(marks[m], from + pass[..m])
         && pass[m].Schedule? && pass[m].group == groups[m]
         && PicksAll(marks[m].db, pass[m].payout, groups[m], pass[m].picks, {})
  }

  ghost predicate ScheduledSoFar(f: Fate, from: seq<Action>, to: seq<Action>, marks: seq<Sys>, pass: seq<Action>,
                                 groups: seq<Group>, n: nat)
    requires n <= |groups|
  {
    && from <= to
    && AllScheduled(f, from, to, groups[..n])
    && (Calm(f) ==> |pass| == n && to == from + pass && PassLog(from, marks, pass, groups))
  }

  lemma LongerTrace(f: Fate, before: seq<Action>, at: seq<Action>, after: seq<Action>, done: seq<Group>)
    requires at <= after && AllScheduled(f, before, at, done)
    ensures AllScheduled(f, before, after, done)
  {
    forall g | g in done && f.commits(g) ensures GroupScheduled(f, before, after, g) {
      var s: Sys, t: seq<Action>, payout: Id, picks: seq<Pick> :|
        && Reached(s, t) && before <= t && t + [Schedule(payout, g, picks)] <= at
        && PicksAll(s.db, payout, g, picks, f.lockedIntents(g));
      assert t + [Schedule(payout, g, picks)] <= after;
    }
  }

  /** One more group, scheduled in `here` if its transaction went through. */
  lemma AlsoScheduled(f: Fate, before: seq<Action>, here: Sys, at: seq<Action>, after: seq<Action>,
                      groups: seq<Group>, n: nat, payout: Id, picks: seq<Pick>)
    requires before <= at <= after && Reached(here, at)
    requires n < |groups| && AllScheduled(f, before, at, groups[..n])
    requires f.commits(groups[n]) ==>
      && PicksAll(here.db, payout, groups[n], picks, f.lockedIntents(groups[n]))
      && after == at + [Schedule(payout, groups[n], picks)]
    ensures AllScheduled(f, before, after, groups[..n + 1])
  {
    LongerTrace(f, before, at, after, groups[..n]);
    forall g | g in groups[..n + 1] && f.commits(g) ensures GroupScheduled(f, before, after, g) {
      if g !in groups[..n] { assert at + [Schedule(payout, g, picks)] <= after; }
    }
  }

  lemma LogOneMore(from: seq<Action>, marks: seq<Sys>, pass: seq<Action>, groups: seq<Group>, here: Sys,
                   payout: Id, picks: seq<Pick>)
    requires PassLog(from, marks, pass, groups) && |pass| < |groups|
    requires Reached(here, from + pass) && PicksAll(here.db, payout, groups[|pass|], picks, {})
    ensures PassLog(from, marks + [here], pass + [Schedule(payout, groups[|pass|], picks)], groups)
  {
    var n, next := |pass|, pass + [Schedule(payout, groups[|pass|], picks)];
    assert next[..n] == pass;
    assert forall m | 0 <= m < n :: next[..m] == pass[..m] && next[m] == pass[m] && (marks + [here])[m] == marks[m];
  }

  /** What the next group adds: `at` is the trace when its transaction begins, in `here`, and `after` when it is
      over. */
  lemma NextGroup(f: Fate, from: seq<Action>, before: seq<Action>, here: Sys, at: seq<Action>, after: seq<Action>,
                  marks: seq<Sys>, pass: seq<Action>, groups: seq<Group>, n: nat, payout: Id, picks: seq<Pick>)
    returns (marks': seq<Sys>, pass': seq<Action>)
    requires n < |groups| && ScheduledSoFar(f, from, before, marks, pass, groups, n)
    requires before <= at <= after && Reached(here, at) && (f.quiet ==> at == before)
    requires f.commits(groups[n]) ==>
      && PicksAll(here.db, payout, groups[n], picks, f.lockedIntents(groups[n]))
      && after == at + [Schedule(payout, groups[n], picks)]
    ensures ScheduledSoFar(f, from, after, marks', pass', groups, n + 1)
  {
    marks', pass' := marks + [here], pass + [Schedule(payout, groups[n], picks)];
    LongerTrace(f, from, before, at, groups[..n]);
    AlsoScheduled(f, from, here, at, after, groups, n, payout, picks);
    if Calm(f) { LogOneMore(from, marks, pass, groups, here, payout, picks); }
  }

  lemma LoggedState(s: Sys, from: seq<Action>, marks: seq<Sys>, pass: seq<Action>, groups: seq<Group>, m: nat)
    requires Reached(s, from) && PassLog(from, marks, pass, groups) && m < |pass|
    ensures FullPick(Run(s, pass[..m]).db, pass[m])
  {
    LaterStates(s, from, marks[m], from + pass[..m]);
    assert (from + pass[..m])[|from|..] == pass[..m];
  }

  lemma PassIsUndisturbed(s: Sys, from: seq<Action>, marks: seq<Sys>, pass: seq<Action>, groups: seq<Group>)
    requires Reached(s, from) && s.worker == Idle && PassLog(from, marks, pass, groups) && |pass| == |groups|
    requires forall i, j | 0 <= i < j < |groups| :: groups[i] != groups[j]
    requires forall g :: g in groups <==> SomeEligible(s.db, g)
    ensures Undisturbed(s, pass)
  {
    forall n | 0 <= n < |pass| ensures UndisturbedAt(s, pass, n) {
      LoggedState(s, from, marks, pass, groups, n);
      forall a | a in pass[..n] ensures a.group != groups[n] {
        var m :| 0 <= m < n && pass[..n][m] == a;
        assert pass[m] == a;
      }
      assert groups[n] in groups;
    }
    forall i | Eligible(s.db, i) ensures s.db.intents[i].group in GroupsOf(pass) {
      assert SomeEligible(s.db, s.db.intents[i].group);
      var m :| 0 <= m < |groups| && groups[m] == s.db.intents[i].group;
      assert pass[m] in pass;
    }
  }

  // ---- The pass over the claimed payouts ----

  ghost predicate AllHandled(f: Fate, from: seq<Action>, to: seq<Action>, s: Sys, done: seq<Work>) {
    forall w | w in done :: HandledSince(f, from, to, s, w.payout)
  }

  /** One more payout, loaded in `here` after the trace `loaded`. */
  lemma NextHandled(f: Fate, from: seq<Action>, before: Sys, at: seq<Action>, here: Sys, loaded: seq<Action>,
                    after: Sys, to: seq<Action>, queue: seq<Work>, n: nat)
    requires n < |queue| && AllHandled(f, from, at, before, queue[..n])
    requires Reached(before, at) && Reached(here, loaded) && Reached(after, to)
    requires from <= at <= loaded <= to && Handled(f, here, after, queue[n].payout)
    requires LoadsNext(here, loaded, to, queue[n].payout, f.loads(queue[n].payout))
    ensures AllHandled(f, from, to, after, queue[..n + 1])
  {
    forall w | w in queue[..n + 1] ensures HandledSince(f, from, to, after, w.payout) {
      if w in queue[..n] { HandledLater(f, from, at, to, before, after, w.payout); }
    }
  }

  /** Every payout that was due and not locked has been handled. */
  ghost predicate DueHandled(f: Fate, before: Db, from: seq<Action>, to: seq<Action>, s: Sys) {
    forall p | Due(before, p) && p !in f.lockedPayouts :: HandledSince(f, from, to, s, p)
  }

  lemma ClaimedHandled(f: Fate, before: Db, from: seq<Action>, to: seq<Action>, s: Sys, rows: seq<Id>)
    requires Claimable(before, rows) && forall p :: p in rows <==> Due(before, p) && p !in f.lockedPayouts
    requires AllHandled(f, from, to, s, ClaimedWork(before, rows))
    ensures DueHandled(f, before, from, to, s)
  {
    var queue := ClaimedWork(before, rows);
    forall p | Due(before, p) && p !in f.lockedPayouts ensures HandledSince(f, from, to, s, p) {
      var m :| 0 <= m < |rows| && rows[m] == p;
      assert queue[m] in queue && queue[m].payout == p;
    }
  }

  /** The lucky pass in terms of the states between its phases. */
  lemma PaidInTheEnd(f: Fate, s0: Sys, t0: seq<Action>, s: Sys, at: seq<Action>, s': Sys, to: seq<Action>)
    requires Lucky(f) && Reached(s0, t0) && Reached(s, at) && Reached(s', to)
    requires exists pass :: at == t0 + pass && Undisturbed(s0, pass)
    requires at <= to && WorkerOnly(to[|at|..]) && DueHandled(f, s.db, at, to, s')
    ensures forall i | Eligible(s0.db, i) :: PaidOut(s', i, s0.db.intents[i].received)
  {
    var pass :| at == t0 + pass && Undisturbed(s0, pass);
    PassReaches(s0, t0, pass);
    ReachedIs(s, at);
    ReachedIs(Run(s0, pass), at);
    forall i | Eligible(s0.db, i) ensures PaidOut(s', i, s0.db.intents[i].received) {
      LuckyPassPays(f, s0, t0, pass, s', to, i);
    }
  }

  /** The whole pass from `s0` to `s'`: scheduling up to some state, then every payout due there handled if the claims
      went through. */
  ghost predicate PassDone(f: Fate, s0: Sys, t0: seq<Action>, s': Sys, to: seq<Action>) {
    exists s: Sys, at: seq<Action> ::
      && Reached(s, at) && t0 <= at <= to
      && PassScheduled(f, s0.db, t0, at)
      && (f.claims ==> DueHandled(f, s.db, at, to, s'))
  }

  lemma ScheduledLater(f: Fate, before: Db, from: seq<Action>, at: seq<Action>, to: seq<Action>)
    requires PassScheduled(f, before, from, at) && at <= to
    ensures PassScheduled(f, before, from, to)
  {
    var groups: seq<Group> :|
      && (forall i | Eligible(before, i) :: before.intents[i].group in groups) && AllScheduled(f, from, at, groups);
    LongerTrace(f, from, at, to, groups);
  }
}
