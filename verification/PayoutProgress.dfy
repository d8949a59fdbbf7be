/** What a payout pass achieves when nothing fails: every loaded item is executed once and completed. */
module PayoutProgress {
  import opened Tables
  import opened Protocol
  import opened Invariants
  import opened PayoutSafety

  predicate Failure(a: Action) {
    match a
    case Load(ok, _) => !ok
    case Execute(ok) => !ok
    case Persist(ok) => !ok
    case Finish(ok) => !ok
    case _ => a in {SkipRow, StopRows, RejectRow, Crash}
  }

  predicate Smooth(steps: seq<Action>) {
    forall a | a in steps :: !Failure(a)
  }

  /** The row was executed once since `base` and is completed. */
  ghost predicate Swept(s: Sys, base: seq<Call>, r: Row) {
    ItemDone(s.db, r.item) && Attempts(s.calls, r.item) == Attempts(base, r.item) + 1
  }

  ghost predicate AllSwept(s: Sys, base: seq<Call>, rows: seq<Row>) {
    forall r | r in rows :: Swept(s, base, r)
  }

  ghost predicate Untouched(s: Sys, base: seq<Call>, rest: seq<Row>) {
    forall r | r in rest :: Attempts(s.calls, r.item) == Attempts(base, r.item)
  }

  /** The pass is under way without a failure so far: every row is swept, or still to come. */
  ghost predicate UnderWay(s: Sys, base: seq<Call>, rows: seq<Row>) {
    match s.worker.job
    case Items(_, rest, failed) =>
      !failed && Untouched(s, base, rest) && forall r | r in rows :: r in rest || Swept(s, base, r)
    case Executing(_, rest, failed, row) =>
      && !failed && Untouched(s, base, rest)
      && Attempts(s.calls, row.item) == Attempts(base, row.item)
      && forall r | r in rows :: r in rest || r == row || Swept(s, base, r)
    case Persisting(_, rest, failed, row) =>
      && !failed && Untouched(s, base, rest)
      && Attempts(s.calls, row.item) == Attempts(base, row.item) + 1
      && forall r | r in rows :: r in rest || r == row || Swept(s, base, r)
    case _ => false
  }

  lemma SweptStays(s: Sys, a: Action, base: seq<Call>, r: Row)
    requires Inv(s) && Swept(s, base, r)
    ensures Swept(Step(s, a), base, r)
  {
    StepPreserves(s, a);
  }

  lemma ServiceUnderWay(s: Sys, a: Action, base: seq<Call>, rows: seq<Row>)
    requires Inv(s) && UnderWay(s, base, rows) && IsService(a)
    ensures UnderWay(Step(s, a), base, rows)
  {
    forall r | r in rows && Swept(s, base, r) { SweptStays(s, a, base, r); }
  }

  lemma ExecuteUnderWay(s: Sys, base: seq<Call>, rows: seq<Row>)
    requires Inv(s) && UnderWay(s, base, rows)
    ensures UnderWay(ExecuteStep(s, true), base, rows)
  {
    var s' := ExecuteStep(s, true);
    if s.worker.job.Executing? {
      var row := s.worker.job.row;
      forall k { AttemptsAppend(s.calls, Call(row.item, row.amount, true), k); }
    }
  }

  lemma PersistUnderWay(s: Sys, base: seq<Call>, rows: seq<Row>)
    requires Inv(s) && UnderWay(s, base, rows)
    ensures UnderWay(PersistStep(s, true), base, rows)
  {
    if s.worker.job.Persisting? {
      PersistKeepsDbInv(s.db, s.worker.job.work, s.worker.job.row);
    }
  }

  lemma BeginUnderWay(s: Sys, ok: bool, base: seq<Call>, rows: seq<Row>)
    requires Inv(s) && UnderWay(s, base, rows)
    ensures UnderWay(BeginStep(s, ok), base, rows)
  {
    var job := s.worker.job;
    if job.Items? && job.rows != [] {
      assert RowValid(s.db, job.work, job.rows[0]);
      SetItemKeepsDbInv(s.db, job.rows[0].item, ItemProcessing);
      assert forall r | r in job.rows :: r == job.rows[0] || r in job.rows[1..];
    }
  }

  lemma SmoothStep(s: Sys, a: Action, base: seq<Call>, rows: seq<Row>)
    requires Inv(s) && !Failure(a)
    requires UnderWay(s, base, rows) || AllSwept(s, base, rows)
    ensures UnderWay(Step(s, a), base, rows) || AllSwept(Step(s, a), base, rows)
  {
    if AllSwept(s, base, rows) {
      forall r | r in rows { SweptStays(s, a, base, r); }
    } else if IsService(a) {
      ServiceUnderWay(s, a, base, rows);
    } else {
      match a
      case Begin(ok) => BeginUnderWay(s, ok, base, rows);
      case Execute(_) => ExecuteUnderWay(s, base, rows);
      case Persist(_) => PersistUnderWay(s, base, rows);
      case _ =>
    }
  }

  lemma {:induction false} SmoothRun(s: Sys, steps: seq<Action>, base: seq<Call>, rows: seq<Row>)
    requires Inv(s) && Smooth(steps) && UnderWay(s, base, rows)
    ensures UnderWay(Run(s, steps), base, rows) || AllSwept(Run(s, steps), base, rows)
  {
    if steps != [] {
      var n := |steps| - 1;
      SmoothRun(s, steps[..n], base, rows);
      RunKeepsInv(s, steps[..n]);
      SmoothStep(Run(s, steps[..n]), steps[n], base, rows);
    }
  }

  /** Whatever the other services do meanwhile: if nothing fails until the worker is free again, every row it had
      loaded was executed exactly once and is completed. */
  lemma SmoothPassSweepsAll(before: seq<Action>, after: seq<Action>, work: Work, rows: seq<Row>)
    requires before <= after && Smooth(after[|before|..])
    requires Run(Start, before).worker.job == Items(work, rows, false)
    requires Run(Start, after).worker.job == Between
    ensures AllSwept(Run(Start, after), Run(Start, before).calls, rows)
  {
    var s, rest := Run(Start, before), after[|before|..];
    assert after == before + rest;
    RunConcat(Start, before, rest);
    StartInv();
    RunKeepsInv(Start, before);
    SmoothRun(s, rest, s.calls, rows);
  }
}
