/** The chain observer's table updates (internal/platform/workers/chain_observer.go) and the guarded cancellation of
    internal/gateway/conversion_handlers.go. */
module ChainObserver {
  import opened Sums
  import opened Pricing
  import opened Tables
  import opened Protocol
  import opened Database

  lemma ExpireOneMore(db: Db, rows: seq<Id>, id: Id)
    requires id in db.intents && id !in rows && forall i | i in rows :: i in db.intents
    ensures var done, more := ExpireTx(db, rows), ExpireTx(db, rows + [id]);
      && more.intents == done.intents[id := db.intents[id].(status := Expired)]
      && more.outbox == done.outbox + [PaymentExpired(id)]
      && more.sessions == if db.intents[id].session in db.sessions
                          then done.sessions[db.intents[id].session := SessionExpired] else done.sessions
  {
    assert forall i :: i in rows + [id] <==> i in rows || i == id;
    var s' := db.intents[id].session;
    forall s | s in db.sessions
      ensures (exists i | i in rows + [id] :: db.intents[i].session == s)
         <==> s == s' || exists i | i in rows :: db.intents[i].session == s
    {
      if s == s' { assert id in rows + [id]; }
      if i :| i in rows && db.intents[i].session == s { assert i in rows + [id]; }
    }
  }

  lemma ExpireNext(db: Db, rows: seq<Id>, n: nat)
    requires n < |rows| && NoDuplicates(rows) && forall i | i in rows :: i in db.intents
    ensures rows[n] in db.intents && (forall i | i in rows[..n] :: i in db.intents) && rows[n] !in rows[..n]
    ensures forall i | i in rows[..n + 1] :: i in db.intents
    ensures var done, more := ExpireTx(db, rows[..n]), ExpireTx(db, rows[..n + 1]);
      && done.intents[rows[n]] == db.intents[rows[n]]
      && more.intents == done.intents[rows[n] := db.intents[rows[n]].(status := Expired)]
      && more.outbox == done.outbox + [PaymentExpired(rows[n])]
      && more.sessions == if db.intents[rows[n]].session in done.sessions
                          then done.sessions[db.intents[rows[n]].session := SessionExpired] else done.sessions
  {
    assert rows[n] in rows && rows[..n + 1] == rows[..n] + [rows[n]];
    ExpireOneMore(db, rows[..n], rows[n]);
  }

  /** The statements of the expiry transaction, one row after the other. */
  method ExpireRows(before: Db, rows: seq<Id>)
    returns (intents: map<Id, Intent>, sessions: map<Id, SessionStatus>, outbox: seq<Event>)
    requires NoDuplicates(rows) && forall id | id in rows :: id in before.intents
    ensures before.(intents := intents, sessions := sessions, outbox := outbox) == ExpireTx(before, rows)
  {
    intents, sessions, outbox := before.intents, before.sessions, before.outbox;
    assert before == ExpireTx(before, []);
    for n := 0 to |rows|
      invariant intents == ExpireTx(before, rows[..n]).intents
      invariant sessions == ExpireTx(before, rows[..n]).sessions
      invariant outbox == ExpireTx(before, rows[..n]).outbox
    {
      var id := rows[n];
      ExpireNext(before, rows, n);
      intents := intents[id := intents[id].(status := Expired)];
      if intents[id].session in sessions { sessions := sessions[intents[id].session := SessionExpired]; }
      outbox := outbox + [PaymentExpired(id)];
    }
    assert rows[..|rows|] == rows;
  }

  /** What the balance shortcut writes: the status that the observed amount gives against the band; the intent as if
      that were its whole, fully confirmed sum; its session and events. The ledger is left as it is. */
  predicate BalanceWrites(db: Db, db': Db, id: Id, observed: real, status: IntentStatus, paid: bool)
    requires id in db.intents
  {
    var intent := db.intents[id];
    var b := ComputeBounds(intent.expected, intent.tolerance);
    && (status == AwaitingFunds <==> observed <= 0.0)
    && (status == Partial <==> 0.0 < observed < b.min)
    && (status == Confirmed <==> 0.0 < observed && b.min <= observed <= b.max)
    && (status == Overpaid <==> 0.0 < observed && b.max < observed)
    && (paid <==> 0.0 < observed && b.min <= observed)
    && db' == db.(
         intents := db.intents[id := intent.(
           status := status, received := observed, confirmations := intent.required,
           confirmedAt := if intent.confirmedAt == None && paid then Some(db.now) else intent.confirmedAt)],
         sessions := db.sessions[intent.session := if paid then SessionPaid else SessionAwaiting],
         outbox := db.outbox + [PaymentDetected(id, status)] + if paid then [PaymentConfirmed(id)] else [])
  }

  /** What expiry writes for the given rows: status and session of each, and one event each. */
  ghost predicate ExpiryWrites(db: Db, db': Db, rows: seq<Id>)
    requires forall id | id in rows :: id in db.intents
  {
    && db'.intents.Keys == db.intents.Keys
    && db'.sessions.Keys == db.sessions.Keys
    && (forall id | id in db.intents ::
          db'.intents[id] == if id in rows then db.intents[id].(status := Expired) else db.intents[id])
    && (forall s | s in db.sessions ::
          || (db'.sessions[s] == SessionExpired && exists id | id in rows :: db.intents[id].session == s)
          || (db'.sessions[s] == db.sessions[s] && forall id | id in rows :: db.intents[id].session != s))
    && db.outbox <= db'.outbox && |db'.outbox| == |db.outbox| + |rows|
    && (forall id | id in rows :: PaymentExpired(id) in db'.outbox[|db.outbox|..])
    && db' == db.(intents := db'.intents, sessions := db'.sessions, outbox := db'.outbox)
  }

  lemma ExpireTxWrites(db: Db, rows: seq<Id>)
    requires NoDuplicates(rows) && forall id | id in rows :: id in db.intents
    ensures ExpiryWrites(db, ExpireTx(db, rows), rows)
  {
    var after := ExpireTx(db, rows);
    var events := after.outbox[|db.outbox|..];
    forall id | id in rows ensures PaymentExpired(id) in events {
      var n :| 0 <= n < |rows| && rows[n] == id;
      assert events[n] == PaymentExpired(id);
    }
  }

  /** The rows of the locking query. */
  method SelectOverdue(tables: Db, locked: set<Id>) returns (rows: seq<Id>)
    ensures NoDuplicates(rows)
    ensures forall id :: id in rows <==>
      && id in tables.intents && id !in locked
      && tables.intents[id].status in {Created, AwaitingFunds, Partial}
      && tables.intents[id].expiresAt < tables.now
    ensures forall id | id in rows :: Overdue(tables, id)
  {
    rows := Rows(set id | id in tables.intents && id !in locked && Overdue(tables, id));
    assert forall id :: id in rows <==> id !in locked && Overdue(tables, id);
  }

  class ChainObserver {
    const db: Database

    constructor (db: Database)
      ensures this.db == db
    {
      this.db := db;
    }

    /** FOR UPDATE SKIP LOCKED: rows held by another transaction are passed over. */
    method ExpireOldIntents(locked: set<Id>, committed: bool)
      requires db.Valid()
      modifies db
      ensures db.Valid()
      ensures !committed ==> unchanged(db)
      ensures committed ==> exists rows: seq<Id> ::
        && NoDuplicates(rows)
        && (forall id :: id in rows <==>
              && id in old(db.intents) && id !in locked
              && old(db.intents)[id].status in {Created, AwaitingFunds, Partial}
              && old(db.intents)[id].expiresAt < old(db.now))
        && ExpiryWrites(old(db.Contents()), db.Contents(), rows)
        && db.Contents() == ExpireTx(old(db.Contents()), rows)
        && db.trace == old(db.trace) + [Expire(rows)]
    {
      ghost var before := db.State();
      var tables := db.Contents();
      var rows := SelectOverdue(tables, locked);
      var intents, sessions, outbox := ExpireRows(tables, rows);
      ExpireTxWrites(tables, rows);
      if !committed { return; }
      db.intents, db.sessions, db.outbox := intents, sessions, outbox;
      db.Record(before, Expire(rows));
    }

    /** The balance shortcut. The intent was selected earlier, so nothing is known about its row any more. */
    method ConfirmObservedBalance(id: Id, observed: real, committed: bool) returns (handled: bool)
      requires db.Valid()
      modifies db
      ensures db.Valid()
      ensures !committed || id !in old(db.intents) ==> !handled && unchanged(db)
      ensures committed && id in old(db.intents) ==>
        && db.Contents() == BalanceTx(old(db.Contents()), id, observed)
        && db.trace == old(db.trace) + [ObserveBalance(id, observed)]
        && BalanceWrites(old(db.Contents()), db.Contents(), id, observed, db.intents[id].status, handled)
    {
      ghost var before := db.State();
      if id !in db.intents { return false; }
      var intent := db.intents[id];
      var status := ResolveIntentStatus(intent.expected, observed, intent.tolerance, intent.required, intent.required);
      var paid := IsPaid(status);
      var sessionStatus := SessionAwaiting;
      if paid {
        sessionStatus := SessionPaid;
      } else if status == Expired || status == Failed {
        sessionStatus := SessionFailed;
      }
      if !committed { return false; }
      var confirmedAt := intent.confirmedAt;
      if confirmedAt == None && paid { confirmedAt := Some(db.now); }
      db.intents := db.intents[id := intent.(status := status, received := observed,
                                             confirmations := intent.required, confirmedAt := confirmedAt)];
      db.sessions := db.sessions[intent.session := sessionStatus];
      db.outbox := db.outbox + [PaymentDetected(id, status)] + (if paid then [PaymentConfirmed(id)] else []);
      db.Record(before, ObserveBalance(id, observed));
      return paid;
    }

    /** The customer leaves the checkout page: the UPDATE is guarded by the session's and the intents' statuses. */
    method CancelCheckout(session: Id)
      requires db.Valid()
      modifies db
      ensures db.Valid() && db.trace == old(db.trace) + [Cancel(session)]
      ensures db.Contents() ==
        if session in old(db.sessions) && old(db.sessions)[session] != SessionPaid
           && forall id | id in old(db.intents) && old(db.intents)[id].session == session ::
                old(db.intents)[id].status !in {Confirmed, Overpaid, Settled}
        then old(db.Contents()).(sessions := old(db.sessions)[session := SessionCanceled]) else old(db.Contents())
    {
      ghost var before := db.State();
      if session in db.sessions && db.sessions[session] != SessionPaid
         && !exists id | id in db.intents :: db.intents[id].session == session && IsPaid(db.intents[id].status)
      {
        db.sessions := db.sessions[session := SessionCanceled];
      }
      db.Record(before, Cancel(session));
    }
  }
}
