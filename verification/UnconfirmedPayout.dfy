/** A run in which money leaves for a payment without a single confirmation: an intent for 1.0, a transfer of 2.0 that
    is only detected, and one pass of the payout worker. */
module UnconfirmedPayout {
  import opened Sums
  import opened Pricing
  import opened Tables
  import opened Protocol
  import opened Confirmation

  const Terms := Group(7, "base", "USDC")

  const Asked := Intent(1, Terms, 1.0, 0.0, 12, 100, AwaitingFunds, 0.0, 0, None)

  const Detected := Report("0xa", 2.0, 0)

  const Seen: Ledger := map["0xa" := Transfer(2.0, 0)]

  /** All that was seen is 2.0, of which nothing is confirmed. */
  lemma NothingConfirmed()
    ensures TotalReceived(Seen) == 2.0 && ConfirmedReceived(Seen, 12) == 0.0
  {
    SumInsert(map[], "0xa", 2.0);
    assert AllAmounts(Seen) == map[]["0xa" := 2.0];
    assert ConfirmedAmounts(Seen, 12) == map[];
  }

  lemma BandOfOne()
    ensures ComputeBounds(1.0, 0.0) == Bounds(1.0, 1.0)
  {
    assert (100000000.0 + 0.5).Floor == 100000000;
  }

  /** After the Confirm the intent is payable with 2.0, and has no confirmation time. */
  lemma PayableUnconfirmed()
    ensures Payable(NewStatus(Asked, Seen))
    ensures ConfirmedIntent(Asked, Seen, 0).confirmedAt == None && ConfirmedIntent(Asked, Seen, 0).received == 2.0
  {
    NothingConfirmed();
    BandOfOne();
    PayableIff(Asked, Seen);
    TwoStageStatus(Asked, Seen);
  }

  ghost function Created(): Db {
    CreateTx(EmptyDb, 1, 1, Asked)
  }

  ghost function Confirmed(): Db {
    ConfirmTx(Created(), 1, Detected)
  }

  lemma AfterConfirm()
    ensures Reached(Sys(Confirmed(), Idle, [], multiset{}), [Create(1, 1, Asked)] + [Confirm(1, 7, 1, Detected)])
    ensures Confirmed().intents == map[1 := ConfirmedIntent(Asked, Seen, 0)]
    ensures Confirmed().payouts == map[] && Confirmed().items == map[] && Confirmed().now == 0
    ensures 1 in Confirmed().addresses && Confirmed().ledger == map[1 := Seen]
  {
    assert [] + [Create(1, 1, Asked)] == [Create(1, 1, Asked)];
    ReachedIs(Start, []);
    ReachedStep(Start, [], Create(1, 1, Asked));
    ReachedStep(Sys(Created(), Idle, [], multiset{}), [Create(1, 1, Asked)], Confirm(1, 7, 1, Detected));
    assert Upsert(map[], Detected) == Seen;
  }

  lemma OneItem(intents: map<Id, Intent>)
    requires 1 in intents
    ensures AddItems(map[], intents, 1, [Pick(1, 1)]) == map[1 := Item(1, 1, intents[1].received, ItemPending)]
  {
    assert [Pick(1, 1)][..0] == [];
    assert AddItems(map[], intents, 1, []) == map[];
  }

  ghost predicate ReadyToPay(s: Sys) {
    && s.worker == Idle && s.calls == [] && s.db.payouts == map[] && s.db.items == map[] && 1 in s.db.addresses
    && s.db.intents.Keys == {1} && s.db.intents[1].group == Terms && Payable(s.db.intents[1].status)
  }

  /** The worker's part, from any state like the one after the Confirm. */
  lemma WorkerPays(s: Sys)
    requires ReadyToPay(s)
    ensures var picked := ScheduleStep(s, 1, Terms, [Pick(1, 1)]);
      var executed := ExecuteStep(BeginStep(LoadStep(ClaimStep(picked, [1]), true, [1]), true), true);
      executed.calls == [Call(1, s.db.intents[1].received, true)]
      && executed.db.intents == s.db.intents && executed.db.ledger == s.db.ledger
  {
    var picked := ScheduleStep(s, 1, Terms, [Pick(1, 1)]);
    assert Eligible(s.db, 1) && Schedulable(s.db, 1, Terms, [Pick(1, 1)]);
    OneItem(s.db.intents);
    assert picked.db.items == map[1 := Item(1, 1, s.db.intents[1].received, ItemPending)];
    assert picked.db.payouts.Keys == {1} && Due(picked.db, 1);
    var claimed := ClaimStep(picked, [1]);
    assert claimed.worker.queue == [WorkFor(picked.db, 1)];
    assert Loadable(claimed.db, 1, [1]);
    var loaded := LoadStep(claimed, true, [1]);
    assert loaded.worker.job == Items(WorkFor(picked.db, 1), [RowFor(claimed.db, 1)], false);
  }

  lemma Scheduled(s: Sys, t: seq<Action>)
    requires Reached(s, t)
    ensures Reached(ScheduleStep(s, 1, Terms, [Pick(1, 1)]), t + [Schedule(1, Terms, [Pick(1, 1)])])
  {
    ReachedStep(s, t, Schedule(1, Terms, [Pick(1, 1)]));
  }

  lemma Claimed(s: Sys, t: seq<Action>)
    requires Reached(s, t)
    ensures Reached(ClaimStep(s, [1]), t + [Claim([1])])
  {
    ReachedStep(s, t, Claim([1]));
  }

  lemma Loaded(s: Sys, t: seq<Action>)
    requires Reached(s, t)
    ensures Reached(LoadStep(s, true, [1]), t + [Load(true, [1])])
  {
    ReachedStep(s, t, Load(true, [1]));
  }

  lemma BegunAndExecuted(s: Sys, t: seq<Action>)
    requires Reached(s, t)
    ensures Reached(ExecuteStep(BeginStep(s, true), true), t + [Begin(true)] + [Execute(true)])
  {
    ReachedStep(s, t, Begin(true));
    ReachedStep(BeginStep(s, true), t + [Begin(true)], Execute(true));
  }

  /** The five actions reach a state in which the executor was called for the intent's received amount. */
  lemma PaidFrom(s: Sys, actions: seq<Action>) returns (s': Sys, all: seq<Action>)
    requires ReadyToPay(s) && Reached(s, actions)
    ensures Reached(s', all) && s'.calls == [Call(1, s.db.intents[1].received, true)]
    ensures s'.db.intents == s.db.intents && s'.db.ledger == s.db.ledger
  {
    WorkerPays(s);
    Scheduled(s, actions);
    s', all := ScheduleStep(s, 1, Terms, [Pick(1, 1)]), actions + [Schedule(1, Terms, [Pick(1, 1)])];
    Claimed(s', all);
    s', all := ClaimStep(s', [1]), all + [Claim([1])];
    Loaded(s', all);
    s', all := LoadStep(s', true, [1]), all + [Load(true, [1])];
    BegunAndExecuted(s', all);
    s', all := ExecuteStep(BeginStep(s', true), true), all + [Begin(true)] + [Execute(true)];
  }

  /** So, in a reachable state, a payment with nothing confirmed and no confirmation time has been executed in full. */
  lemma UnconfirmedPaymentIsPaidOut() returns (s: Sys, actions: seq<Action>)
    ensures s == Run(Start, actions)
    ensures s.calls == [Call(1, 2.0, true)]
    ensures s.db.intents.Keys == {1} && s.db.intents[1].confirmedAt == None && s.db.ledger == map[1 := Seen]
    ensures ConfirmedReceived(Seen, s.db.intents[1].required) == 0.0
  {
    AfterConfirm();
    PayableUnconfirmed();
    NothingConfirmed();
    s, actions := PaidFrom(Sys(Confirmed(), Idle, [], multiset{}),
                           [Create(1, 1, Asked)] + [Confirm(1, 7, 1, Detected)]);
    ReachedIs(s, actions);
  }
}
