/** What the ledger of a payment holds in the long run, when deposits are found by scanning
    (internal/platform/workers/chain_observer.go). An address is scanned only while nothing has been received for its
    intent; after that only the recorded transaction is confirmed again, with its own amount. */
module DepositLedger {
  import opened Sums
  import opened Tables
  import opened Protocol
  import opened Invariants
  import opened Confirmation
  import opened Words
  import LogScan
  import DepositReport

  /** A Confirm of this intent comes either from a scan, made while nothing was received, with a positive amount; or
      from the recorded transactions, with the amount recorded. */
  ghost predicate Observed(db: Db, a: Action, id: Id) {
    && (a.ObserveBalance? ==> a.id != id)
    && (id in db.intents && Reaches(a, db.intents[id], id) ==>
          var ledger := LedgerOf(db, id);
          || (db.intents[id].received == 0.0 && 0.0 < a.report.amount)
          || (a.report.tx in ledger && a.report.amount == ledger[a.report.tx].amount))
  }

  ghost predicate AllObserved(s: Sys, actions: seq<Action>, id: Id) {
    forall n | 0 <= n < |actions| :: Observed(Run(s, actions[..n]).db, actions[n], id)
  }

  lemma ObservedPrefix(s: Sys, actions: seq<Action>, id: Id)
    requires actions != [] && AllObserved(s, actions, id)
    ensures AllObserved(s, actions[..|actions| - 1], id)
    ensures Observed(Run(s, actions[..|actions| - 1]).db, actions[|actions| - 1], id)
  {
    var n := |actions| - 1;
    assert forall k | 0 <= k < n :: actions[..n][..k] == actions[..k];
  }

  /** One transaction was recorded, and the intent has received its amount. */
  ghost predicate Recorded(db: Db, id: Id, tx: TxHash, amount: real) {
    && id in db.intents && 0.0 < amount
    && LedgerOf(db, id).Keys == {tx} && LedgerOf(db, id)[tx].amount == amount
    && db.intents[id].received == amount
  }

  ghost predicate NothingYet(db: Db, id: Id) {
    LedgerOf(db, id) == map[] && (id in db.intents ==> db.intents[id].received == 0.0)
  }

  ghost predicate OneAtMost(db: Db, id: Id) {
    NothingYet(db, id) || exists tx: TxHash, amount: real :: Recorded(db, id, tx, amount)
  }

  lemma TotalOfOne(ledger: Ledger, tx: TxHash)
    requires ledger.Keys == {tx}
    ensures TotalReceived(ledger) == ledger[tx].amount
  {
    SumInsert(map[], tx, ledger[tx].amount);
    assert AllAmounts(ledger) == map[][tx := ledger[tx].amount];
  }

  lemma FirstConfirm(db: Db, id: Id, report: Report)
    requires id in db.intents && NothingYet(db, id) && 0.0 < report.amount
    ensures Recorded(ConfirmTx(db, id, report), id, report.tx, report.amount)
  {
    var ledger := Upsert(LedgerOf(db, id), report);
    assert ledger == map[report.tx := Transfer(report.amount, report.confirmations)];
    TotalOfOne(ledger, report.tx);
  }

  lemma AnotherConfirm(db: Db, id: Id, report: Report, tx: TxHash, amount: real)
    requires Recorded(db, id, tx, amount) && report.tx == tx && report.amount == amount
    ensures Recorded(ConfirmTx(db, id, report), id, tx, amount)
  {
    var ledger := Upsert(LedgerOf(db, id), report);
    assert ledger.Keys == {tx};
    TotalOfOne(ledger, tx);
  }

  lemma OtherServiceLeaves(db: Db, a: Action, id: Id)
    requires id in db.intents && Linked(db) && IsService(a)
    requires !Reaches(a, db.intents[id], id) && (a.ObserveBalance? ==> a.id != id)
    ensures var db' := ServiceStep(db, a);
      && id in db'.intents && db'.intents[id].received == db.intents[id].received
      && LedgerOf(db', id) == LedgerOf(db, id)
  {}

  /** Actions other than Confirms of the intent and the balance shortcut leave ledger and received amount alone. */
  lemma OtherActionLeaves(s: Sys, a: Action, id: Id)
    requires Inv(s) && id in s.db.intents && !Reaches(a, s.db.intents[id], id) && (a.ObserveBalance? ==> a.id != id)
    ensures var db' := Step(s, a).db;
      && id in db'.intents && db'.intents[id].received == s.db.intents[id].received
      && LedgerOf(db', id) == LedgerOf(s.db, id)
  {
    if IsService(a) { OtherServiceLeaves(s.db, a, id); } else { WorkerKeepsPayments(s, a); }
  }

  lemma ServiceNotYet(db: Db, a: Action, id: Id)
    requires id !in db.intents && NothingYet(db, id) && IsService(a)
    ensures NothingYet(ServiceStep(db, a), id)
  {}

  lemma NotYetCreated(s: Sys, a: Action, id: Id)
    requires Inv(s) && id !in s.db.intents && NothingYet(s.db, id)
    ensures NothingYet(Step(s, a).db, id)
  {
    if IsService(a) { ServiceNotYet(s.db, a, id); } else { WorkerKeepsPayments(s, a); }
  }

  lemma RecordedStep(s: Sys, a: Action, id: Id, tx: TxHash, amount: real)
    requires Inv(s) && Recorded(s.db, id, tx, amount) && Observed(s.db, a, id)
    ensures Recorded(Step(s, a).db, id, tx, amount)
  {
    if Reaches(a, s.db.intents[id], id) {
      AnotherConfirm(s.db, id, a.report, tx, amount);
    } else {
      OtherActionLeaves(s, a, id);
    }
  }

  lemma ObservedStep(s: Sys, a: Action, id: Id)
    requires Inv(s) && OneAtMost(s.db, id) && Observed(s.db, a, id)
    ensures OneAtMost(Step(s, a).db, id)
  {
    if !NothingYet(s.db, id) {
      var tx: TxHash, amount: real :| Recorded(s.db, id, tx, amount);
      RecordedStep(s, a, id, tx, amount);
    } else if id !in s.db.intents {
      NotYetCreated(s, a, id);
    } else if Reaches(a, s.db.intents[id], id) {
      FirstConfirm(s.db, id, a.report);
    } else {
      OtherActionLeaves(s, a, id);
    }
  }

  /** In every reachable state the ledger is empty or holds one transaction. */
  lemma {:induction false} OneTransaction(actions: seq<Action>, id: Id)
    requires AllObserved(Start, actions, id)
    ensures OneAtMost(Run(Start, actions).db, id)
  {
    if actions != [] {
      var n := |actions| - 1;
      ObservedPrefix(Start, actions, id);
      OneTransaction(actions[..n], id);
      StartInv();
      RunKeepsInv(Start, actions[..n]);
      ObservedStep(Run(Start, actions[..n]), actions[n], id);
    }
  }

  lemma {:induction false} RecordedForever(s: Sys, after: seq<Action>, id: Id, tx: TxHash, amount: real)
    requires Inv(s) && AllObserved(s, after, id) && Recorded(s.db, id, tx, amount)
    ensures Recorded(Run(s, after).db, id, tx, amount)
  {
    if after != [] {
      var n := |after| - 1;
      ObservedPrefix(s, after, id);
      RecordedForever(s, after[..n], id, tx, amount);
      RunKeepsInv(s, after[..n]);
      RecordedStep(Run(s, after[..n]), after[n], id, tx, amount);
    }
  }

  /** Once a scan's report was accepted, its amount is all that is ever received, whatever else arrives. */
  lemma FirstReportIsFinal(before: seq<Action>, after: seq<Action>, id: Id, tx: TxHash, amount: real)
    requires AllObserved(Run(Start, before), after, id) && Recorded(Run(Start, before).db, id, tx, amount)
    ensures Recorded(Run(Start, before + after).db, id, tx, amount)
    ensures TotalReceived(LedgerOf(Run(Start, before + after).db, id)) == amount
  {
    StartInv();
    RunKeepsInv(Start, before);
    RunConcat(Start, before, after);
    RecordedForever(Run(Start, before), after, id, tx, amount);
    TotalOfOne(LedgerOf(Run(Start, before + after).db, id), tx);
  }

  /** A report of the head `head` carries what has arrived by a later block `now` exactly when it missed no older chunk
      and nothing arrived after it. */
  lemma ReportIsWholeIff(node: LogScan.Node, chainName: string, head: uint64, now: uint64,
                         windows: seq<LogScan.Window>, report: Option<DepositReport.DepositReport>)
    requires head <= now
    requires LogScan.Scanned(node, chainName, head, windows) && DepositReport.Reported(node, head, windows, report)
    ensures DepositReport.Amount(report) == Arrived(node, head, now)
            <==> && DepositReport.NoOlderChunk(node, chainName, head)
                 && DepositReport.TotalData(LogScan.Range(node, head as int + 1, now as int)) == 0
  {
    var floor := LogScan.Floor(head) as int;
    DepositReport.ReportedShare(node, chainName, head, windows, report);
    DepositReport.ReportIsCompleteIff(node, chainName, head, windows, report);
    LogScan.RangeSplit(node, floor, head as int, now as int);
    DepositReport.TotalDataConcat(LogScan.Range(node, floor, head as int),
                                  LogScan.Range(node, head as int + 1, now as int));
  }

  /** The amount that arrived between the floor of a scan made at `head` and a block `now`. */
  function Arrived(node: LogScan.Node, head: uint64, now: uint64): nat {
    DepositReport.TotalData(LogScan.Range(node, LogScan.Floor(head) as int, now as int))
  }

  /** An amount of n base units, each worth `unit`. */
  function InUnits(n: nat, unit: real): real {
    if n == 0 then 0.0 else InUnits(n - 1, unit) + unit
  }

  lemma {:induction false} InUnitsIsProduct(n: nat, unit: real)
    ensures InUnits(n, unit) == n as real * unit
  {
    if n > 0 { InUnitsIsProduct(n - 1, unit); }
  }

  lemma {:induction false} MoreUnits(a: nat, b: nat, unit: real)
    requires 0.0 < unit && a < b
    ensures InUnits(a, unit) < InUnits(b, unit)
  {
    if a < b - 1 { MoreUnits(a, b - 1, unit); }
  }

  lemma SameUnits(a: nat, b: nat, unit: real)
    requires 0.0 < unit
    ensures InUnits(a, unit) == InUnits(b, unit) <==> a == b
  {
    if a < b {
      MoreUnits(a, b, unit);
    } else if b < a {
      MoreUnits(b, a, unit);
    }
  }

  /** So, when the recorded amount is that of a scan made at block `head`, the ledger holds what has arrived by any
      later block exactly when the scan missed no older chunk and nothing arrived after it. `unit` is one base unit. */
  lemma LedgerIsWholeIff(before: seq<Action>, after: seq<Action>, id: Id, tx: TxHash, unit: real,
                         node: LogScan.Node, chainName: string, head: uint64, now: uint64,
                         windows: seq<LogScan.Window>, report: Option<DepositReport.DepositReport>)
    requires AllObserved(Run(Start, before), after, id) && 0.0 < unit && head <= now
    requires LogScan.Scanned(node, chainName, head, windows) && DepositReport.Reported(node, head, windows, report)
    requires Recorded(Run(Start, before).db, id, tx, InUnits(DepositReport.Amount(report), unit))
    ensures TotalReceived(LedgerOf(Run(Start, before + after).db, id)) == InUnits(Arrived(node, head, now), unit)
            <==> && DepositReport.NoOlderChunk(node, chainName, head)
                 && DepositReport.TotalData(LogScan.Range(node, head as int + 1, now as int)) == 0
  {
    FirstReportIsFinal(before, after, id, tx, InUnits(DepositReport.Amount(report), unit));
    ReportIsWholeIff(node, chainName, head, now, windows, report);
    SameUnits(DepositReport.Amount(report), Arrived(node, head, now), unit);
  }
}
