/** The shared database. The real fields are the tables; the ghost fields record the run of the step machine that
    produced them, so that every theorem about runs applies to whatever the services below do. */
module Database {
  import opened Tables
  import opened Protocol

  class Database {
    var now: int
    var sessions: map<Id, SessionStatus>
    var intents: map<Id, Intent>
    var ledger: map<Id, Ledger>
    var addresses: map<Id, AddressStatus>
    var payouts: map<Id, Payout>
    var items: map<Id, Item>
    var outbox: seq<Event>

    ghost var worker: Worker
    ghost var calls: seq<Call>
    ghost var lost: multiset<Id>
    ghost var trace: seq<Action>
    ghost var services: nat

    function Contents(): Db
      reads this
    {
      Db(now, sessions, intents, ledger, addresses, payouts, items, outbox)
    }

    ghost function State(): Sys
      reads this
    {
      Sys(Contents(), worker, calls, lost)
    }

    /** The state is the outcome of the recorded run; `services` of its actions were not the worker's. */
    ghost predicate Valid()
      reads this
    {
      Reached(State(), trace) && Counted(trace, services)
    }

    constructor ()
      ensures Valid() && State() == Start && trace == []
    {
      ReachedIs(Start, []);
      now, sessions, intents, ledger, addresses := 0, map[], map[], map[], map[];
      payouts, items, outbox := map[], map[], [];
      worker, calls, lost, trace, services := Idle, [], multiset{}, [], 0;
    }

    /** Logs the action that the tables have just undergone since `before`, and moves the worker along with it. */
    ghost method Record(before: Sys, a: Action)
      requires Reached(before, trace) && Counted(trace, services) && Contents() == Step(before, a).db
      modifies this`worker, this`calls, this`lost, this`trace, this`services
      ensures Valid() && trace == old(trace) + [a]
      ensures services == old(services) + if IsService(a) then 1 else 0
      ensures State() == Step(before, a)
    {
      ReachedStep(before, trace, a);
      CountedStep(trace, services, a);
      MoveTo(Step(before, a), a);
    }

    ghost method MoveTo(next: Sys, a: Action)
      requires Contents() == next.db
      modifies this`worker, this`calls, this`lost, this`trace, this`services
      ensures State() == next && trace == old(trace) + [a]
      ensures services == old(services) + if IsService(a) then 1 else 0
    {
      services := services + if IsService(a) then 1 else 0;
      worker, calls, lost := next.worker, next.calls, next.lost;
      trace := trace + [a];
    }

    /** Between two statements of one service the others may run any number of transactions. A caller knows only
        what this contract says: the tables went through some run of the other services' actions. */
    method Interference() returns (ghost others: seq<Action>)
      requires Valid()
      modifies this
      ensures Valid() && trace == old(trace) + others
      ensures forall a | a in others :: IsService(a)
      ensures worker == old(worker) && calls == old(calls) && lost == old(lost)
      ensures payouts == old(payouts) && items == old(items)
    {
      others := [];
    }
  }
}
