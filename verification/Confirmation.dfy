/** What ConfirmCheckoutSession guarantees: its two-stage status, its insensitivity to replays and order, and that a
    payment once confirmed stays paid. */
module Confirmation {
  import opened Sums
  import opened Pricing
  import opened Tables
  import opened Protocol
  import opened Invariants

  // ---- The two-stage status ----

  /** The confirmed transfers alone pay for the intent. */
  ghost predicate PaidFor(intent: Intent, ledger: Ledger) {
    var confirmed := ConfirmedReceived(ledger, intent.required);
    0.0 < confirmed && ComputeBounds(intent.expected, intent.tolerance).min <= confirmed
  }

  /** When every transfer has enough confirmations the two sums are one. */
  lemma FilteredIsAll(ledger: Ledger, required: int)
    requires ledger != map[] && required <= MinConfirmations(ledger)
    ensures ConfirmedReceived(ledger, required) == TotalReceived(ledger)
  {
    assert ConfirmedAmounts(ledger, required) == AllAmounts(ledger);
  }

  /** The fallback stage never yields "confirmed", so the status is "confirmed" exactly when the confirmed sum is
      positive and inside the band. */
  lemma TwoStageStatus(intent: Intent, ledger: Ledger)
    requires ledger != map[]
    ensures IsPaid(ConfirmedStatus(intent, ledger)) <==> PaidFor(intent, ledger)
    ensures !IsPaid(ConfirmedStatus(intent, ledger)) ==> FallbackStatus(intent, ledger) != Confirmed
    ensures NewStatus(intent, ledger) == Confirmed <==>
      PaidFor(intent, ledger) &&
      ConfirmedReceived(ledger, intent.required) <= ComputeBounds(intent.expected, intent.tolerance).max
  {
    if intent.required <= MinConfirmations(ledger) {
      FilteredIsAll(ledger, intent.required);
    }
  }

  /** The status that the bounds and the two sums give: `total` is everything seen, `confirmed` what has enough
      confirmations. */
  ghost predicate StatusBySums(status: IntentStatus, intent: Intent, total: real, confirmed: real) {
    var b := ComputeBounds(intent.expected, intent.tolerance);
    var paid := 0.0 < confirmed && b.min <= confirmed;
    && (status == Confirmed <==> paid && confirmed <= b.max)
    && (status == Overpaid <==> (paid && b.max < confirmed) || (!paid && 0.0 < total && b.max < total))
    && (status == Partial <==> !paid && 0.0 < total < b.min)
    && (status == AwaitingFunds <==> !paid && (total <= 0.0 || b.min <= total <= b.max))
  }

  lemma EmptySums(required: int)
    ensures TotalReceived(map[]) == 0.0 && ConfirmedReceived(map[], required) == 0.0
  {
    assert AllAmounts(map[]) == map[] && ConfirmedAmounts(map[], required) == map[];
  }

  /** A further transfer adds its amount to the one sum, and to the other when it has enough confirmations. */
  lemma OneMoreTransfer(ledger: Ledger, tx: TxHash, amount: real, confirmations: int, required: int)
    requires tx !in ledger
    ensures var more := ledger[tx := Transfer(amount, confirmations)];
      && TotalReceived(more) == TotalReceived(ledger) + amount
      && ConfirmedReceived(more, required)
           == ConfirmedReceived(ledger, required) + if required <= confirmations then amount else 0.0
  {
    var more := ledger[tx := Transfer(amount, confirmations)];
    SumInsert(AllAmounts(ledger), tx, amount);
    assert AllAmounts(more) == AllAmounts(ledger)[tx := amount];
    if required <= confirmations {
      SumInsert(ConfirmedAmounts(ledger, required), tx, amount);
      assert ConfirmedAmounts(more, required) == ConfirmedAmounts(ledger, required)[tx := amount];
    } else {
      assert ConfirmedAmounts(more, required) == ConfirmedAmounts(ledger, required);
    }
  }

  /** For every ledger the two stages together give that status. */
  lemma StatusIsBySums(intent: Intent, ledger: Ledger)
    ensures StatusBySums(NewStatus(intent, ledger), intent,
                         TotalReceived(ledger), ConfirmedReceived(ledger, intent.required))
    ensures IsPaid(ConfirmedStatus(intent, ledger)) <==> PaidFor(intent, ledger)
  {
    if ledger == map[] {
      EmptySums(intent.required);
    } else {
      TwoStageStatus(intent, ledger);
      if intent.required <= MinConfirmations(ledger) { FilteredIsAll(ledger, intent.required); }
    }
  }

  /** What a Confirm writes, in sums and bounds: the transfer into the ledger; status, sums and first confirmation time
      into the intent; paid or awaiting funds into the session; and its events. */
  ghost predicate WritesBySums(db: Db, db': Db, id: Id, report: Report, status: IntentStatus, confirmations: int)
    requires id in db.intents
  {
    var intent := db.intents[id];
    var ledger := (if id in db.ledger then db.ledger[id] else map[])
                    [report.tx := Transfer(report.amount, report.confirmations)];
    var total, confirmed := TotalReceived(ledger), ConfirmedReceived(ledger, intent.required);
    var paid := 0.0 < confirmed && ComputeBounds(intent.expected, intent.tolerance).min <= confirmed;
    && StatusBySums(status, intent, total, confirmed)
    && (exists h :: h in ledger && ledger[h].confirmations == confirmations)
    && (forall h | h in ledger :: confirmations <= ledger[h].confirmations)
    && db' == db.(
         ledger := db.ledger[id := ledger],
         intents := db.intents[id := intent.(
           status := status, received := total, confirmations := confirmations,
           confirmedAt := if intent.confirmedAt == None && paid then Some(db.now) else intent.confirmedAt)],
         sessions := db.sessions[intent.session := if paid then SessionPaid else SessionAwaiting],
         outbox := db.outbox + [PaymentDetected(id, status)] + if paid then [PaymentConfirmed(id)] else [])
  }

  lemma ConfirmWritesBySums(db: Db, id: Id, report: Report)
    requires id in db.intents
    ensures var updated := ConfirmTx(db, id, report).intents[id];
      WritesBySums(db, ConfirmTx(db, id, report), id, report, updated.status, updated.confirmations)
  {
    var intent, ledger := db.intents[id], Upsert(LedgerOf(db, id), report);
    assert report.tx in ledger;
    StatusIsBySums(intent, ledger);
    SessionFollowsConfirmedSum(db, id, report);
    assert IsMinConfirmations(ledger, MinConfirmations(ledger));
  }

  /** What a Confirm leaves payable: an intent its confirmed transfers pay for, and also one for which everything
      seen, confirmed or not, exceeds the band. */
  lemma PayableIff(intent: Intent, ledger: Ledger)
    requires ledger != map[]
    ensures Payable(NewStatus(intent, ledger)) <==>
      PaidFor(intent, ledger) || ComputeBounds(intent.expected, intent.tolerance).max < TotalReceived(ledger)
  {
    TwoStageStatus(intent, ledger);
  }

  /** The session is written paid exactly when the confirmed sum pays for the intent, and awaiting funds otherwise:
      the branch that writes "failed" is never taken. */
  lemma SessionFollowsConfirmedSum(db: Db, id: Id, report: Report)
    requires id in db.intents
    ensures var intent := db.intents[id]; var db' := ConfirmTx(db, id, report);
      db'.sessions[intent.session]
        == if PaidFor(intent, Upsert(LedgerOf(db, id), report)) then SessionPaid else SessionAwaiting
  {
    assert report.tx in Upsert(LedgerOf(db, id), report);
    TwoStageStatus(db.intents[id], Upsert(LedgerOf(db, id), report));
  }

  // ---- Replays and order ----

  function Upserts(ledger: Ledger, reports: seq<Report>): Ledger {
    if reports == [] then ledger else Upsert(Upserts(ledger, reports[..|reports| - 1]), reports[|reports| - 1])
  }

  /** What the last report about a transaction says. */
  function LastReport(reports: seq<Report>, tx: TxHash): Option<Transfer> {
    if reports == [] then None else
      var r := reports[|reports| - 1];
      if r.tx == tx then Some(Transfer(r.amount, r.confirmations)) else LastReport(reports[..|reports| - 1], tx)
  }

  ghost predicate SameLastReports(a: seq<Report>, b: seq<Report>) {
    forall tx :: LastReport(a, tx) == LastReport(b, tx)
  }

  lemma {:induction false} UpsertsAt(ledger: Ledger, reports: seq<Report>, tx: TxHash)
    ensures tx in Upserts(ledger, reports) <==> LastReport(reports, tx).Some? || tx in ledger
    ensures tx in Upserts(ledger, reports) ==>
      Upserts(ledger, reports)[tx]
        == if LastReport(reports, tx).Some? then LastReport(reports, tx).value else ledger[tx]
  {
    if reports != [] {
      UpsertsAt(ledger, reports[..|reports| - 1], tx);
    }
  }

  lemma SameLastsSameLedger(ledger: Ledger, a: seq<Report>, b: seq<Report>)
    requires SameLastReports(a, b)
    ensures Upserts(ledger, a) == Upserts(ledger, b)
  {
    forall tx
      ensures tx in Upserts(ledger, a) <==> tx in Upserts(ledger, b)
      ensures tx in Upserts(ledger, a) ==> Upserts(ledger, a)[tx] == Upserts(ledger, b)[tx]
    {
      UpsertsAt(ledger, a, tx);
      UpsertsAt(ledger, b, tx);
    }
  }

  /** What a client can see of a payment. */
  datatype View = View(received: real, confirmations: int, status: IntentStatus, session: SessionStatus)

  ghost function ViewOf(db: Db, id: Id): View
    requires id in db.intents && db.intents[id].session in db.sessions
  {
    var i := db.intents[id];
    View(i.received, i.confirmations, i.status, db.sessions[i.session])
  }

  ghost function LedgerView(intent: Intent, ledger: Ledger): View {
    View(TotalReceived(ledger), MinConfirmations(ledger), NewStatus(intent, ledger),
         SessionStatusFor(IsPaid(ConfirmedStatus(intent, ledger)), NewStatus(intent, ledger)))
  }

  predicate SameTerms(i: Intent, j: Intent) {
    && i.session == j.session && i.group == j.group
    && i.expected == j.expected && i.tolerance == j.tolerance && i.required == j.required
  }

  /** The action is a Confirm that reaches the intent. */
  predicate Reaches(a: Action, intent: Intent, id: Id) {
    a.Confirm? && a.id == id && a.session == intent.session && a.merchant == intent.group.merchant
  }

  /** The reports that a run makes about an intent, whatever else happens in between. */
  function ReportsOf(actions: seq<Action>, intent: Intent, id: Id): seq<Report> {
    if actions == [] then [] else
      var a := actions[|actions| - 1];
      ReportsOf(actions[..|actions| - 1], intent, id) + if Reaches(a, intent, id) then [a.report] else []
  }

  predicate EndsWithConfirm(actions: seq<Action>, intent: Intent, id: Id) {
    actions != [] && Reaches(actions[|actions| - 1], intent, id)
  }

  lemma ServiceStepLedger(db: Db, a: Action, id: Id)
    requires Linked(db) && id in db.intents && IsService(a)
    ensures var db' := ServiceStep(db, a); var intent := db.intents[id];
      && id in db'.intents && SameTerms(db'.intents[id], intent)
      && LedgerOf(db', id) == if Reaches(a, intent, id) then Upsert(LedgerOf(db, id), a.report) else LedgerOf(db, id)
  {}

  lemma StepLedger(s: Sys, a: Action, id: Id)
    requires Inv(s) && id in s.db.intents
    ensures var db' := Step(s, a).db; var intent := s.db.intents[id];
      && id in db'.intents && SameTerms(db'.intents[id], intent)
      && LedgerOf(db', id)
           == if Reaches(a, intent, id) then Upsert(LedgerOf(s.db, id), a.report) else LedgerOf(s.db, id)
  {
    if IsService(a) { ServiceStepLedger(s.db, a, id); } else { WorkerKeepsPayments(s, a); }
  }

  lemma UpsertsAppend(ledger: Ledger, reports: seq<Report>, r: Report)
    ensures Upserts(ledger, reports + [r]) == Upsert(Upserts(ledger, reports), r)
  {
    assert (reports + [r])[..|reports|] == reports;
  }

  lemma StepExtendsLedger(s: Sys, a: Action, id: Id, intent: Intent, ledger: Ledger, reports: seq<Report>)
    requires Inv(s) && id in s.db.intents && SameTerms(s.db.intents[id], intent)
    requires LedgerOf(s.db, id) == Upserts(ledger, reports)
    ensures id in Step(s, a).db.intents && SameTerms(Step(s, a).db.intents[id], intent)
    ensures LedgerOf(Step(s, a).db, id)
            == Upserts(ledger, reports + if Reaches(a, intent, id) then [a.report] else [])
  {
    StepLedger(s, a, id);
    if Reaches(a, intent, id) { UpsertsAppend(ledger, reports, a.report); } else { assert reports + [] == reports; }
  }

  lemma {:induction false} RunLedger(s: Sys, actions: seq<Action>, id: Id)
    requires Inv(s) && id in s.db.intents
    ensures id in Run(s, actions).db.intents && SameTerms(Run(s, actions).db.intents[id], s.db.intents[id])
    ensures LedgerOf(Run(s, actions).db, id) == Upserts(LedgerOf(s.db, id), ReportsOf(actions, s.db.intents[id], id))
  {
    if actions != [] {
      var n := |actions| - 1;
      RunLedger(s, actions[..n], id);
      RunKeepsInv(s, actions[..n]);
      StepExtendsLedger(Run(s, actions[..n]), actions[n], id, s.db.intents[id], LedgerOf(s.db, id),
                        ReportsOf(actions[..n], s.db.intents[id], id));
    }
  }

  /** A Confirm that reaches its intent writes what follows from the ledger, whatever was there before. */
  lemma ConfirmView(db: Db, a: Action, id: Id)
    requires Linked(db) && id in db.intents && Reaches(a, db.intents[id], id)
    ensures var db' := ServiceStep(db, a); var ledger := Upsert(LedgerOf(db, id), a.report);
      && id in db'.intents && db'.intents[id].session in db'.sessions
      && ViewOf(db', id) == LedgerView(db.intents[id], ledger)
  {}

  lemma LedgerViewSameTerms(i: Intent, j: Intent, ledger: Ledger)
    requires SameTerms(i, j)
    ensures LedgerView(i, ledger) == LedgerView(j, ledger)
  {}

  /** Right after a Confirm the view is a function of the terms and of the ledger that all reports so far have built. */
  lemma ViewAfterConfirm(s: Sys, actions: seq<Action>, id: Id)
    requires Inv(s) && id in s.db.intents && EndsWithConfirm(actions, s.db.intents[id], id)
    ensures var db := Run(s, actions).db; var intent := s.db.intents[id];
      && id in db.intents && db.intents[id].session == intent.session && intent.session in db.sessions
      && ViewOf(db, id) == LedgerView(intent, Upserts(LedgerOf(s.db, id), ReportsOf(actions, intent, id)))
  {
    var n := |actions| - 1;
    var before, a, intent := Run(s, actions[..n]), actions[n], s.db.intents[id];
    RunLedger(s, actions[..n], id);
    RunKeepsInv(s, actions[..n]);
    ConfirmView(before.db, a, id);
    UpsertsAppend(LedgerOf(s.db, id), ReportsOf(actions[..n], intent, id), a.report);
    LedgerViewSameTerms(before.db.intents[id], intent, Upserts(LedgerOf(s.db, id), ReportsOf(actions, intent, id)));
    RunLedger(s, actions, id);
  }

  /** From any reachable state on, with expiry, cancellation, payouts and other payments anywhere in between: right
      after a Confirm, what a client sees of a payment depends only on the last report per transaction hash. */
  lemma ViewDependsOnLastReports(before: seq<Action>, a: seq<Action>, b: seq<Action>, id: Id)
    requires var s := Run(Start, before);
      && id in s.db.intents
      && EndsWithConfirm(a, s.db.intents[id], id) && EndsWithConfirm(b, s.db.intents[id], id)
      && SameLastReports(ReportsOf(a, s.db.intents[id], id), ReportsOf(b, s.db.intents[id], id))
    ensures SameView(Run(Start, before + a).db, Run(Start, before + b).db, id)
  {
    var s := Run(Start, before);
    var intent := s.db.intents[id];
    StartInv();
    RunKeepsInv(Start, before);
    RunConcat(Start, before, a);
    RunConcat(Start, before, b);
    ViewAfterConfirm(s, a, id);
    ViewAfterConfirm(s, b, id);
    SameLastsSameLedger(LedgerOf(s.db, id), ReportsOf(a, intent, id), ReportsOf(b, intent, id));
  }

  ghost predicate SameView(db: Db, db': Db, id: Id) {
    && id in db.intents && id in db'.intents
    && db.intents[id].session == db'.intents[id].session
    && db.intents[id].session in db.sessions && db.intents[id].session in db'.sessions
    && ViewOf(db, id) == ViewOf(db', id)
  }

  predicate DistinctHashes(reports: seq<Report>) {
    forall i, j | 0 <= i < j < |reports| :: reports[i].tx != reports[j].tx
  }

  lemma {:induction false} LastOfDistinct(reports: seq<Report>, tx: TxHash)
    requires DistinctHashes(reports)
    ensures LastReport(reports, tx) == None <==> forall r | r in reports :: r.tx != tx
    ensures forall r | r in reports && r.tx == tx ::
              LastReport(reports, tx) == Some(Transfer(r.amount, r.confirmations))
  {
    if reports != [] {
      LastOfDistinct(reports[..|reports| - 1], tx);
    }
  }

  lemma SameReportsSameLasts(a: seq<Report>, b: seq<Report>)
    requires multiset(a) == multiset(b) && DistinctHashes(a) && DistinctHashes(b)
    ensures SameLastReports(a, b)
  {
    assert forall r :: r in a <==> r in multiset(a);
    assert forall r :: r in b <==> r in multiset(b);
    forall tx ensures LastReport(a, tx) == LastReport(b, tx) {
      LastOfDistinct(a, tx);
      LastOfDistinct(b, tx);
      if r :| r in a && r.tx == tx {
        assert r in b;
      }
    }
  }

  /** Two runs that confirm the same reports in different orders, whatever else they do, end with the same view. */
  lemma OrderDoesNotMatter(before: seq<Action>, a: seq<Action>, b: seq<Action>, id: Id)
    requires var s := Run(Start, before);
      && id in s.db.intents
      && EndsWithConfirm(a, s.db.intents[id], id) && EndsWithConfirm(b, s.db.intents[id], id)
      && var reports, others := ReportsOf(a, s.db.intents[id], id), ReportsOf(b, s.db.intents[id], id);
      && multiset(reports) == multiset(others) && DistinctHashes(reports) && DistinctHashes(others)
    ensures SameView(Run(Start, before + a).db, Run(Start, before + b).db, id)
  {
    var intent := Run(Start, before).db.intents[id];
    SameReportsSameLasts(ReportsOf(a, intent, id), ReportsOf(b, intent, id));
    ViewDependsOnLastReports(before, a, b, id);
  }

  lemma {:induction false} ReportsOfConcat(a: seq<Action>, b: seq<Action>, intent: Intent, id: Id)
    ensures ReportsOf(a + b, intent, id) == ReportsOf(a, intent, id) + ReportsOf(b, intent, id)
  {
    if b == [] {
      assert a + b == a;
    } else {
      var n := |b| - 1;
      ReportsOfConcat(a, b[..n], intent, id);
      assert (a + b)[..|a + b| - 1] == a + b[..n];
    }
  }

  /** Repeating the last report about a transaction, however late and whatever happened since the last Confirm, brings
      back the view that that Confirm left. */
  lemma ReplayDoesNotMatter(before: seq<Action>, a: seq<Action>, since: seq<Action>, replay: Action, id: Id)
    requires var s := Run(Start, before);
      && id in s.db.intents
      && EndsWithConfirm(a, s.db.intents[id], id) && Reaches(replay, s.db.intents[id], id)
      && ReportsOf(since, s.db.intents[id], id) == []
      && LastReport(ReportsOf(a, s.db.intents[id], id), replay.report.tx)
           == Some(Transfer(replay.report.amount, replay.report.confirmations))
    ensures SameView(Run(Start, before + (a + since + [replay])).db, Run(Start, before + a).db, id)
  {
    var intent := Run(Start, before).db.intents[id];
    ReportsOfConcat(a, since, intent, id);
    assert (a + since + [replay])[..|a + since|] == a + since;
    var reports := ReportsOf(a, intent, id);
    assert reports + [] == reports;
    assert ReportsOf(a + since + [replay], intent, id) == reports + [replay.report];
    assert (reports + [replay.report])[..|reports|] == reports;
    ViewDependsOnLastReports(before, a + since + [replay], a, id);
  }

  // ---- Which intents are paid ----

  /** The status is the one its ledger gives, unless the intent was settled or expired since. */
  ghost predicate FollowsLedger(intent: Intent, ledger: Ledger) {
    var status := NewStatus(intent, ledger);
    || intent.status == status
    || (intent.status == Settled && status in {Confirmed, Overpaid})
    || (intent.status == Expired && status in {AwaitingFunds, Partial})
  }

  ghost predicate StatusFollows(db: Db, id: Id) {
    id in db.intents ==> FollowsLedger(db.intents[id], LedgerOf(db, id))
  }

  lemma ConfirmFollows(db: Db, id: Id, report: Report)
    requires id in db.intents
    ensures StatusFollows(ConfirmTx(db, id, report), id)
  {}

  /** An intent keeps its ledger and its terms, and its status unless it is settled or expires. */
  lemma KeptFollows(db: Db, db': Db, id: Id)
    requires StatusFollows(db, id) && id in db.intents
    requires id in db'.intents && SameTerms(db'.intents[id], db.intents[id]) && LedgerOf(db', id) == LedgerOf(db, id)
    requires db'.intents[id].status != db.intents[id].status ==>
      || (db'.intents[id].status == Settled && db.intents[id].status in {Confirmed, Overpaid})
      || (db'.intents[id].status == Expired && db.intents[id].status in {AwaitingFunds, Partial, Created})
    ensures StatusFollows(db', id)
  {
    StatusIsBySums(db.intents[id], LedgerOf(db, id));
  }

  lemma NewFollows(db: Db, a: Action)
    requires a.Create? && NewIntent(a.intent, a.session)
    ensures StatusFollows(CreateTx(db, a.session, a.id, a.intent), a.id)
  {
    EmptySums(a.intent.required);
  }

  /** A service action that neither creates, confirms nor shortcuts this intent. */
  lemma OtherServiceFollows(db: Db, a: Action, id: Id)
    requires Linked(db) && StatusFollows(db, id) && IsService(a) && id in db.intents
    requires a.Confirm? || a.ObserveBalance? ==> a.id != id
    ensures StatusFollows(ServiceStep(db, a), id)
  {
    OtherServiceKeeps(db, a, id);
    KeptFollows(db, ServiceStep(db, a), id);
  }

  /** It leaves the intent alone, or lets it expire. */
  lemma OtherServiceKeeps(db: Db, a: Action, id: Id)
    requires Linked(db) && IsService(a) && id in db.intents
    requires a.Confirm? || a.ObserveBalance? ==> a.id != id
    ensures var db' := ServiceStep(db, a); var intent := db.intents[id];
      && id in db'.intents && LedgerOf(db', id) == LedgerOf(db, id)
      && (|| db'.intents[id] == intent
          || (intent.status in {AwaitingFunds, Partial, Created} && db'.intents[id] == intent.(status := Expired)))
  {}

  lemma ServiceFollows(db: Db, a: Action, id: Id)
    requires Linked(db) && StatusFollows(db, id) && IsService(a) && (a.ObserveBalance? ==> a.id != id)
    ensures StatusFollows(ServiceStep(db, a), id)
  {
    if a.Create? && a.id == id && id !in db.intents {
      if ServiceStep(db, a) != db { NewFollows(db, a); }
    } else if a.Confirm? && a.id == id {
      if Found(db, a.session, a.merchant, id) { ConfirmFollows(db, id, a.report); }
    } else if id in db.intents {
      OtherServiceFollows(db, a, id);
    }
  }

  lemma {:induction false} RunFollows(actions: seq<Action>, id: Id)
    requires forall a | a in actions && a.ObserveBalance? :: a.id != id
    ensures StatusFollows(Run(Start, actions).db, id)
  {
    if actions != [] {
      var n := |actions| - 1;
      var s, a := Run(Start, actions[..n]), actions[n];
      RunFollows(actions[..n], id);
      StartInv();
      RunKeepsInv(Start, actions[..n]);
      if IsService(a) { ServiceFollows(s.db, a, id); } else { WorkerFollows(s, a, id); }
    }
  }

  lemma WorkerFollows(s: Sys, a: Action, id: Id)
    requires Inv(s) && StatusFollows(s.db, id) && !IsService(a)
    ensures StatusFollows(Step(s, a).db, id)
  {
    WorkerKeepsPayments(s, a);
    if id in s.db.intents { KeptFollows(s.db, Step(s, a).db, id); }
  }

  /** In every state reached without the balance shortcut the status of an intent is the one its two sums give, unless
      it has been settled, from a status that may be, or has expired, from one that may. So it is confirmed, overpaid or
      settled exactly when its confirmed transfers pay for it or the sum of all transfers seen, confirmed or not,
      exceeds the band. */
  lemma PaidStatusIff(actions: seq<Action>, id: Id)
    requires forall a | a in actions && a.ObserveBalance? :: a.id != id
    requires id in Run(Start, actions).db.intents
    ensures var db := Run(Start, actions).db; var intent, ledger := db.intents[id], LedgerOf(db, id);
      && (intent.status in {Confirmed, Overpaid, Settled} <==>
            PaidFor(intent, ledger) || ComputeBounds(intent.expected, intent.tolerance).max < TotalReceived(ledger))
      && exists status ::
           && StatusBySums(status, intent, TotalReceived(ledger), ConfirmedReceived(ledger, intent.required))
           && (|| intent.status == status
               || (intent.status == Settled && status in {Confirmed, Overpaid})
               || (intent.status == Expired && status in {AwaitingFunds, Partial}))
  {
    RunFollows(actions, id);
    var db := Run(Start, actions).db;
    StatusIsBySums(db.intents[id], LedgerOf(db, id));
  }

  // ---- Paying out settles ----

  /** The action writes the status of the intent from what is reported about it. */
  predicate ReportsOn(a: Action, id: Id) {
    (a.Confirm? || a.ObserveBalance?) && a.id == id
  }

  /** The intent is settled, and otherwise as it was before it was paid out. */
  ghost predicate SettledFrom(db: Db, id: Id, before: Intent) {
    id in db.intents && db.intents[id] == before.(status := Settled)
  }

  lemma ServiceKeepsSettled(db: Db, a: Action, id: Id, before: Intent)
    requires SettledFrom(db, id, before) && IsService(a) && !ReportsOn(a, id)
    ensures SettledFrom(ServiceStep(db, a), id, before)
  {}

  lemma StepKeepsSettled(s: Sys, a: Action, id: Id, before: Intent)
    requires SettledFrom(s.db, id, before) && !ReportsOn(a, id)
    ensures SettledFrom(Step(s, a).db, id, before)
  {
    if IsService(a) { ServiceKeepsSettled(s.db, a, id, before); } else { WorkerKeepsPayments(s, a); }
  }

  lemma {:induction false} RunKeepsSettled(s: Sys, actions: seq<Action>, id: Id, before: Intent)
    requires SettledFrom(s.db, id, before) && forall a | a in actions :: !ReportsOn(a, id)
    ensures SettledFrom(Run(s, actions).db, id, before)
  {
    if actions != [] {
      var n := |actions| - 1;
      RunKeepsSettled(s, actions[..n], id, before);
      StepKeepsSettled(Run(s, actions[..n]), actions[n], id, before);
    }
  }

  lemma PersistSettles(s: Sys)
    requires s.worker.job.Persisting?
    ensures var id := s.worker.job.row.intent;
      id in s.db.intents && s.db.intents[id].status in {Confirmed, Overpaid} ==>
        SettledFrom(Step(s, Persist(true)).db, id, s.db.intents[id])
  {}

  /** When the result of an execution is persisted and the intent was confirmed or overpaid, the intent is settled, with
      its other columns as they were, and so it stays whatever happens, until something is reported about it again. */
  lemma PaidOutIsSettled(before: seq<Action>, after: seq<Action>, id: Id)
    requires var s := Run(Start, before);
      && s.worker.job.Persisting? && s.worker.job.row.intent == id
      && id in s.db.intents && s.db.intents[id].status in {Confirmed, Overpaid}
    requires forall a | a in after :: !ReportsOn(a, id)
    ensures SettledFrom(Run(Start, before + [Persist(true)] + after).db, id, Run(Start, before).db.intents[id])
  {
    var s := Run(Start, before);
    PersistSettles(s);
    RunAppend(Start, before, Persist(true));
    RunConcat(Start, before + [Persist(true)], after);
    RunKeepsSettled(Step(s, Persist(true)), after, id, s.db.intents[id]);
  }

  // ---- A confirmed payment stays paid ----

  /** The chain observer's promise about one intent: a transaction keeps its non-negative amount and never loses
      confirmations, and the balance shortcut is not used. */
  ghost predicate FaithfulStep(db: Db, a: Action, id: Id) {
    match a
    case Confirm(_, _, i, report) =>
      i == id ==>
        && 0.0 <= report.amount
        && (report.tx in LedgerOf(db, id) ==>
              && report.amount == LedgerOf(db, id)[report.tx].amount
              && report.confirmations >= LedgerOf(db, id)[report.tx].confirmations)
    case ObserveBalance(i, _) => i != id
    case _ => true
  }

  ghost predicate Faithful(s: Sys, actions: seq<Action>, id: Id) {
    forall n | 0 <= n < |actions| :: FaithfulStep(Run(s, actions[..n]).db, actions[n], id)
  }

  ghost predicate NonNegative(ledger: Ledger) {
    forall h | h in ledger :: 0.0 <= ledger[h].amount
  }

  /** Once confirmed_at is set the ledger pays for the intent and both statuses say so. */
  ghost predicate StaysPaid(db: Db, id: Id) {
    id in db.intents && db.intents[id].confirmedAt.Some? ==>
      && PaidFor(db.intents[id], LedgerOf(db, id))
      && IsPaid(db.intents[id].status)
      && db.intents[id].session in db.sessions
      && db.sessions[db.intents[id].session] == SessionPaid
  }

  ghost predicate PaymentInv(s: Sys, id: Id) {
    Inv(s) && StaysPaid(s.db, id) && NonNegative(LedgerOf(s.db, id))
  }

  /** A faithful report cannot lower the confirmed sum. */
  lemma ConfirmedSumGrows(ledger: Ledger, report: Report, required: int)
    requires NonNegative(ledger) && 0.0 <= report.amount
    requires report.tx in ledger ==>
      report.amount == ledger[report.tx].amount && report.confirmations >= ledger[report.tx].confirmations
    ensures ConfirmedReceived(ledger, required) <= ConfirmedReceived(Upsert(ledger, report), required)
    ensures NonNegative(Upsert(ledger, report))
  {
    SumMonotone(ConfirmedAmounts(ledger, required), ConfirmedAmounts(Upsert(ledger, report), required));
  }

  /** What one faithful step keeps of a payment. */
  ghost predicate Sticks(db: Db, db': Db, id: Id) {
    id in db.intents ==>
      && id in db'.intents
      && SameTerms(db'.intents[id], db.intents[id])
      && ConfirmedReceived(LedgerOf(db, id), db.intents[id].required)
           <= ConfirmedReceived(LedgerOf(db', id), db.intents[id].required)
      && (db.intents[id].confirmedAt.Some? ==> db'.intents[id].confirmedAt == db.intents[id].confirmedAt)
  }

  lemma ConfirmThisSticks(db: Db, id: Id, report: Report)
    requires id in db.intents && StaysPaid(db, id) && NonNegative(LedgerOf(db, id)) && 0.0 <= report.amount
    requires report.tx in LedgerOf(db, id) ==>
      && report.amount == LedgerOf(db, id)[report.tx].amount
      && report.confirmations >= LedgerOf(db, id)[report.tx].confirmations
    ensures var db' := ConfirmTx(db, id, report);
      Sticks(db, db', id) && StaysPaid(db', id) && NonNegative(LedgerOf(db', id))
  {
    var ledger := LedgerOf(db, id);
    ConfirmedSumGrows(ledger, report, db.intents[id].required);
    assert report.tx in Upsert(ledger, report);
    TwoStageStatus(db.intents[id], Upsert(ledger, report));
  }

  lemma ConfirmOtherSticks(db: Db, id: Id, other: Id, report: Report)
    requires Linked(db) && StaysPaid(db, id) && NonNegative(LedgerOf(db, id)) && other in db.intents && other != id
    ensures var db' := ConfirmTx(db, other, report);
      Sticks(db, db', id) && StaysPaid(db', id) && NonNegative(LedgerOf(db', id))
  {
    UnpaidChangeSticks(db, ConfirmTx(db, other, report), id);
  }

  lemma ConfirmSticks(db: Db, a: Action, id: Id)
    requires DbInv(db) && StaysPaid(db, id) && NonNegative(LedgerOf(db, id))
    requires a.Confirm? && FaithfulStep(db, a, id)
    ensures var db' := ServiceStep(db, a);
      Sticks(db, db', id) && StaysPaid(db', id) && NonNegative(LedgerOf(db', id))
  {
    if Found(db, a.session, a.merchant, a.id) {
      if a.id == id { ConfirmThisSticks(db, id, a.report); } else { ConfirmOtherSticks(db, id, a.id, a.report); }
    }
  }

  /** Statuses of intents that are not paid, and sessions of such intents, may change freely. */
  lemma UnpaidChangeSticks(db: Db, db': Db, id: Id)
    requires Linked(db) && StaysPaid(db, id) && NonNegative(LedgerOf(db, id))
    requires id in db'.intents ==> id in db.intents || db'.intents[id].confirmedAt == None
    requires id in db.intents ==>
      && id in db'.intents
      && db'.intents[id] in {db.intents[id], db.intents[id].(status := db'.intents[id].status)}
      && (IsPaid(db.intents[id].status) ==> db'.intents[id].status == db.intents[id].status)
      && db.intents[id].session in db'.sessions
      && (IsPaid(db.intents[id].status) && db.sessions[db.intents[id].session] == SessionPaid ==>
            db'.sessions[db.intents[id].session] == SessionPaid)
    requires LedgerOf(db', id) == if id in db.intents then LedgerOf(db, id) else LedgerOf(db', id)
    requires id !in db.intents ==> NonNegative(LedgerOf(db', id))
    ensures Sticks(db, db', id) && StaysPaid(db', id) && NonNegative(LedgerOf(db', id))
  {}

  lemma ExpireSticks(db: Db, rows: seq<Id>, id: Id)
    requires Linked(db) && StaysPaid(db, id) && NonNegative(LedgerOf(db, id))
    requires forall i | i in rows :: i in db.intents && Overdue(db, i)
    ensures var db' := ExpireTx(db, rows); Sticks(db, db', id) && StaysPaid(db', id) && NonNegative(LedgerOf(db', id))
  {
    UnpaidChangeSticks(db, ExpireTx(db, rows), id);
  }

  lemma CreateSticks(db: Db, a: Action, id: Id)
    requires Linked(db) && StaysPaid(db, id) && NonNegative(LedgerOf(db, id))
    requires a.Create? && a.session !in db.sessions && a.id !in db.intents && NewIntent(a.intent, a.session)
    ensures var db' := CreateTx(db, a.session, a.id, a.intent);
      Sticks(db, db', id) && StaysPaid(db', id) && NonNegative(LedgerOf(db', id))
  {
    UnpaidChangeSticks(db, CreateTx(db, a.session, a.id, a.intent), id);
  }

  lemma BalanceSticks(db: Db, a: Action, id: Id)
    requires Linked(db) && StaysPaid(db, id) && NonNegative(LedgerOf(db, id))
    requires a.ObserveBalance? && a.id in db.intents && a.id != id
    ensures var db' := BalanceTx(db, a.id, a.observed);
      Sticks(db, db', id) && StaysPaid(db', id) && NonNegative(LedgerOf(db', id))
  {
    UnpaidChangeSticks(db, BalanceTx(db, a.id, a.observed), id);
  }

  lemma CancelSticks(db: Db, session: Id, id: Id)
    requires Linked(db) && StaysPaid(db, id) && NonNegative(LedgerOf(db, id)) && Cancelable(db, session)
    ensures var db' := db.(sessions := db.sessions[session := SessionCanceled]);
      Sticks(db, db', id) && StaysPaid(db', id) && NonNegative(LedgerOf(db', id))
  {
    UnpaidChangeSticks(db, db.(sessions := db.sessions[session := SessionCanceled]), id);
  }

  lemma ServiceSticks(db: Db, a: Action, id: Id)
    requires DbInv(db) && StaysPaid(db, id) && NonNegative(LedgerOf(db, id))
    requires IsService(a) && !a.Confirm? && FaithfulStep(db, a, id)
    ensures var db' := ServiceStep(db, a);
      Sticks(db, db', id) && StaysPaid(db', id) && NonNegative(LedgerOf(db', id))
  {
    var db' := ServiceStep(db, a);
    if db' != db {
      match a
      case Create(_, _, _) => CreateSticks(db, a, id);
      case ObserveBalance(_, _) => BalanceSticks(db, a, id);
      case Expire(rows) => ExpireSticks(db, rows, id);
      case Cancel(session) => CancelSticks(db, session, id);
      case Tick(to) => UnpaidChangeSticks(db, db.(now := to), id);
    }
  }

  ghost predicate PaymentsKept(db: Db, db': Db) {
    && db'.ledger == db.ledger && db'.sessions == db.sessions && db'.intents.Keys == db.intents.Keys
    && forall i | i in db.intents ::
         || db'.intents[i] == db.intents[i]
         || (Payable(db.intents[i].status) && db'.intents[i] == db.intents[i].(status := Settled))
  }

  lemma PersistLeavesPayments(db: Db, row: Row)
    ensures PaymentsKept(db, PersistTx(db, row))
  {}

  lemma WorkerKeepsPayments(s: Sys, a: Action)
    requires !IsService(a)
    ensures PaymentsKept(s.db, Step(s, a).db)
  {
    if !a.Persist? {
      WorkerLeavesPayments(s, a);
    } else if s.worker.job.Persisting? {
      PersistLeavesPayments(s.db, s.worker.job.row);
    }
  }

  lemma KeptSticks(db: Db, db': Db, id: Id)
    requires PaymentsKept(db, db') && StaysPaid(db, id) && NonNegative(LedgerOf(db, id))
    ensures Sticks(db, db', id) && StaysPaid(db', id) && NonNegative(LedgerOf(db', id))
  {}

  lemma PayoutSticks(s: Sys, a: Action, id: Id)
    requires PaymentInv(s, id) && !IsService(a)
    ensures var db' := Step(s, a).db;
      Sticks(s.db, db', id) && StaysPaid(db', id) && NonNegative(LedgerOf(db', id))
  {
    WorkerKeepsPayments(s, a);
    KeptSticks(s.db, Step(s, a).db, id);
  }

  lemma StepSticks(s: Sys, a: Action, id: Id)
    requires PaymentInv(s, id) && FaithfulStep(s.db, a, id)
    ensures PaymentInv(Step(s, a), id) && Sticks(s.db, Step(s, a).db, id)
  {
    StepKeepsInv(s, a);
    if a.Confirm? {
      ConfirmSticks(s.db, a, id);
    } else if IsService(a) {
      ServiceSticks(s.db, a, id);
    } else {
      PayoutSticks(s, a, id);
    }
  }

  lemma FaithfulPrefix(s: Sys, actions: seq<Action>, id: Id)
    requires actions != [] && Faithful(s, actions, id)
    ensures Faithful(s, actions[..|actions| - 1], id)
    ensures FaithfulStep(Run(s, actions[..|actions| - 1]).db, actions[|actions| - 1], id)
  {
    var n := |actions| - 1;
    assert forall k | 0 <= k < n :: actions[..n][..k] == actions[..k];
  }

  lemma {:induction false} RunSticks(s: Sys, actions: seq<Action>, id: Id)
    requires PaymentInv(s, id) && Faithful(s, actions, id)
    ensures PaymentInv(Run(s, actions), id) && Sticks(s.db, Run(s, actions).db, id)
  {
    if actions != [] {
      var before := Run(s, actions[..|actions| - 1]);
      FaithfulPrefix(s, actions, id);
      RunSticks(s, actions[..|actions| - 1], id);
      StepSticks(before, actions[|actions| - 1], id);
      SticksTransitive(s.db, before.db, Run(s, actions).db, id);
    }
  }

  lemma SticksTransitive(a: Db, b: Db, c: Db, id: Id)
    requires Sticks(a, b, id) && Sticks(b, c, id)
    ensures Sticks(a, c, id)
  {}

  /** From the start on, through every confirmation, expiry, cancellation and payout step: the confirmed sum never
      falls; a confirmation time never changes; and while it is set the intent is confirmed, overpaid or settled and
      its session is paid. */
  lemma ConfirmedPaymentIsSticky(before: seq<Action>, after: seq<Action>, id: Id)
    requires Faithful(Start, before + after, id)
    ensures Sticks(Run(Start, before).db, Run(Start, before + after).db, id)
    ensures StaysPaid(Run(Start, before + after).db, id)
  {
    StartInv();
    forall k | 0 <= k < |before| ensures FaithfulStep(Run(Start, before[..k]).db, before[k], id) {
      assert (before + after)[..k] == before[..k];
    }
    RunSticks(Start, before, id);
    forall k | 0 <= k < |after| ensures FaithfulStep(Run(Run(Start, before), after[..k]).db, after[k], id) {
      RunConcat(Start, before, after[..k]);
      assert (before + after)[..|before| + k] == before + after[..k];
      assert (before + after)[|before| + k] == after[k];
    }
    RunSticks(Run(Start, before), after, id);
    RunConcat(Start, before, after);
  }
}
