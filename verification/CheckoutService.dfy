/** The transactions of CreateCheckoutSession and ConfirmCheckoutSession (internal/services/checkoutsvc/service.go),
    statement by statement. */
module CheckoutService {
  import opened Sums
  import opened Text
  import opened Pricing
  import opened Tables
  import opened Protocol
  import opened Confirmation
  import opened Database

  datatype Reply =
    | Accepted(id: Id, status: IntentStatus, confirmations: int, required: int)
    | InvalidArgument
    | NotFound
    | Internal

  /** SELECT COALESCE(MIN(confirmations), 0). */
  method SelectMinConfirmations(ledger: Ledger) returns (n: int)
    ensures n == MinConfirmations(ledger)
    ensures if ledger == map[] then n == 0
            else (exists h :: h in ledger && ledger[h].confirmations == n)
                 && forall h | h in ledger :: n <= ledger[h].confirmations
  {
    if ledger == map[] { return 0; }
    var h :| h in ledger;
    n := ledger[h].confirmations;
    var rest := ledger.Keys - {h};
    while rest != {}
      invariant rest <= ledger.Keys
      invariant exists k :: k in ledger && ledger[k].confirmations == n
      invariant forall k | k in ledger && k !in rest :: n <= ledger[k].confirmations
      decreases |rest|
    {
      var k :| k in rest;
      rest := rest - {k};
      if ledger[k].confirmations < n { n := ledger[k].confirmations; }
    }
    assert IsMinConfirmations(ledger, n);
  }

  /** The aggregation and the two-stage decision, before anything is written. */
  method Decide(intent: Intent, ledger: Ledger, now: int)
    returns (updated: Intent, sessionStatus: SessionStatus, paid: bool)
    ensures updated == ConfirmedIntent(intent, ledger, now)
    ensures paid == IsPaid(ConfirmedStatus(intent, ledger))
    ensures sessionStatus == SessionStatusFor(paid, updated.status)
    ensures var total, confirmed := TotalReceived(ledger), ConfirmedReceived(ledger, intent.required);
      && StatusBySums(updated.status, intent, total, confirmed)
      && (paid <==> 0.0 < confirmed && ComputeBounds(intent.expected, intent.tolerance).min <= confirmed)
      && sessionStatus == (if paid then SessionPaid else SessionAwaiting)
      && updated.received == total
      && updated.confirmedAt == if intent.confirmedAt == None && paid then Some(now) else intent.confirmedAt
  {
    StatusIsBySums(intent, ledger);
    var totalReceived := SelectSum(map h | h in ledger :: ledger[h].amount);
    var confirmedReceived :=
      SelectSum(map h | h in ledger && ledger[h].confirmations >= intent.required :: ledger[h].amount);
    var confirmations := SelectMinConfirmations(ledger);

    var confirmedStatus :=
      ResolveIntentStatus(intent.expected, confirmedReceived, intent.tolerance, intent.required, intent.required);
    paid := IsPaid(confirmedStatus);
    var newStatus := confirmedStatus;
    if !paid {
      newStatus :=
        ResolveIntentStatus(intent.expected, totalReceived, intent.tolerance, confirmations, intent.required);
    }
    var confirmedAt := intent.confirmedAt;
    if confirmedAt == None && paid { confirmedAt := Some(now); }

    sessionStatus := SessionAwaiting;
    if paid {
      sessionStatus := SessionPaid;
    } else if newStatus == Expired || newStatus == Failed {
      sessionStatus := SessionFailed;
    }
    updated := intent.(status := newStatus, received := totalReceived,
                       confirmations := confirmations, confirmedAt := confirmedAt);
  }

  /** Writing what Decide returned is the transaction. */
  lemma DecidedWrites(before: Db, session: Id, merchant: Id, id: Id, report: Report)
    requires Found(before, session, merchant, id)
    ensures var ledger := Upsert(LedgerOf(before, id), report);
            var updated := ConfirmedIntent(before.intents[id], ledger, before.now);
            var paid := IsPaid(ConfirmedStatus(before.intents[id], ledger));
            ServiceStep(before, Confirm(session, merchant, id, report))
            == before.(ledger := before.ledger[id := ledger],
                       intents := before.intents[id := updated],
                       sessions := before.sessions[session := SessionStatusFor(paid, updated.status)],
                       outbox := before.outbox + [PaymentDetected(id, updated.status)]
                                 + (if paid then [PaymentConfirmed(id)] else []))
            == ConfirmTx(before, id, report)
  {}

  class CheckoutService {
    const db: Database

    constructor (db: Database)
      ensures this.db == db
    {
      this.db := db;
    }

    /** The rows inserted for a new session; its terms were worked out from the payment link before. */
    method CreateCheckoutSession(group: Group, expected: real, tolerance: real, required: int, expiresAt: int,
                                 committed: bool)
      returns (created: Option<(Id, Id)>)
      requires db.Valid()
      modifies db
      ensures db.Valid()
      ensures created.Some? <==> committed
      ensures created.Some? ==>
        && created.value.0 !in old(db.sessions) && created.value.1 !in old(db.intents)
        && db.intents == old(db.intents)[created.value.1 :=
             Intent(created.value.0, group, expected, tolerance, required, expiresAt, AwaitingFunds, 0.0, 0, None)]
        && db.State() == Step(old(db.State()), Create(created.value.0, created.value.1, db.intents[created.value.1]))
        && db.sessions == old(db.sessions)[created.value.0 := SessionAwaiting]
        && db.addresses == old(db.addresses)[created.value.1 := AddressActive]
        && db.ledger == old(db.ledger)[created.value.1 := map[]]
        && db.outbox == old(db.outbox) + [IntentCreated(created.value.1)]
      ensures created == None ==> unchanged(db)
    {
      ghost var before := db.State();
      var session := NewId(db.sessions.Keys);
      var id := NewId(db.intents.Keys);
      if !committed { return None; }
      var intent := Intent(session, group, expected, tolerance, required, expiresAt, AwaitingFunds, 0.0, 0, None);
      db.sessions := db.sessions[session := SessionAwaiting];
      db.intents := db.intents[id := intent];
      db.ledger := db.ledger[id := map[]];
      db.addresses := db.addresses[id := AddressActive];
      db.outbox := db.outbox + [IntentCreated(id)];
      db.Record(before, Create(session, id, intent));
      return Some((session, id));
    }

    /** `merchant` and `session` are the ids that the request's texts parse to, if they do; `json` tells what the JSON
        decoder accepts. The lookup may fail (`loaded`), and so may any statement of the transaction, which then rolls
        back (`committed`). */
    method ConfirmCheckoutSession(merchant: Option<Id>, session: Option<Id>, report: Report, payload: string,
                                  json: string -> bool, loaded: bool, committed: bool)
      returns (reply: Reply)
      requires db.Valid() && json("{}")
      modifies db
      ensures db.Valid()
      ensures merchant == None || session == None || Trim(report.tx) == "" ==> reply == InvalidArgument
      ensures merchant.Some? && session.Some? && Trim(report.tx) != "" ==>
        if !loaded then reply == Internal
        else if forall id | id in old(db.intents) && session.value in old(db.sessions) ::
          old(db.intents)[id].session != session.value || old(db.intents)[id].group.merchant != merchant.value
        then reply == NotFound
        else if Trim(payload) != "" && !json(payload) then reply == InvalidArgument
        else if !committed then reply == Internal
        else reply.Accepted?
      ensures reply.Accepted? ==>
        && Found(old(db.Contents()), session.value, merchant.value, reply.id)
        && db.State() == Step(old(db.State()), Confirm(session.value, merchant.value, reply.id, report))
        && db.Contents() == ConfirmTx(old(db.Contents()), reply.id, report)
        && db.trace == old(db.trace) + [Confirm(session.value, merchant.value, reply.id, report)]
      ensures reply.Accepted? ==>
        && reply.id in old(db.intents)
        && old(db.intents)[reply.id].session == session.value
        && old(db.intents)[reply.id].group.merchant == merchant.value
        && WritesBySums(old(db.Contents()), db.Contents(), reply.id, report, reply.status, reply.confirmations)
        && reply.required == old(db.intents)[reply.id].required
      ensures !reply.Accepted? ==> unchanged(db)
    {
      if merchant == None { return InvalidArgument; }
      if session == None { return InvalidArgument; }
      if Trim(report.tx) == "" { return InvalidArgument; }
      if !loaded { return Internal; }
      var id := FindIntent(session.value, merchant.value);
      if id == None {
        assert forall i | i in db.intents :: !Found(db.Contents(), session.value, merchant.value, i);
        return NotFound;
      }
      var rawPayload := payload;
      if Trim(rawPayload) == "" { rawPayload := "{}"; }
      if !json(rawPayload) { return InvalidArgument; }
      var intent := db.intents[id.value];
      var ledger := Upsert(if id.value in db.ledger then db.ledger[id.value] else map[], report);
      var updated, sessionStatus, paid := Decide(intent, ledger, db.now);
      ConfirmWritesBySums(db.Contents(), id.value, report);
      if !committed { return Internal; }
      WriteConfirmation(session.value, merchant.value, id.value, report, ledger, updated, sessionStatus, paid);
      return Accepted(id.value, updated.status, updated.confirmations, intent.required);
    }

    /** The join of intent and session that the request names. */
    method FindIntent(session: Id, merchant: Id) returns (id: Option<Id>)
      ensures id.Some? ==> Found(db.Contents(), session, merchant, id.value)
      ensures id == None ==> forall i :: !Found(db.Contents(), session, merchant, i)
    {
      if i :| i in db.intents && Found(db.Contents(), session, merchant, i) { return Some(i); }
      return None;
    }

    /** The writes of the transaction, given what was decided. */
    method WriteConfirmation(session: Id, merchant: Id, id: Id, report: Report,
                             ledger: Ledger, updated: Intent, sessionStatus: SessionStatus, paid: bool)
      requires db.Valid() && Found(db.Contents(), session, merchant, id)
      requires ledger == Upsert(LedgerOf(db.Contents(), id), report)
      requires updated == ConfirmedIntent(db.intents[id], ledger, db.now)
      requires paid == IsPaid(ConfirmedStatus(db.intents[id], ledger))
      requires sessionStatus == SessionStatusFor(paid, updated.status)
      modifies db
      ensures db.Valid() && db.intents == old(db.intents)[id := updated]
      ensures db.State() == Step(old(db.State()), Confirm(session, merchant, id, report))
      ensures db.Contents() == ConfirmTx(old(db.Contents()), id, report)
      ensures db.trace == old(db.trace) + [Confirm(session, merchant, id, report)]
    {
      ghost var before := db.State();
      DecidedWrites(db.Contents(), session, merchant, id, report);
      db.ledger := db.ledger[id := ledger];
      db.intents := db.intents[id := updated];
      db.sessions := db.sessions[session := sessionStatus];
      db.outbox := db.outbox + [PaymentDetected(id, updated.status)] + (if paid then [PaymentConfirmed(id)] else []);
      db.Record(before, Confirm(session, merchant, id, report));
    }
  }
}
