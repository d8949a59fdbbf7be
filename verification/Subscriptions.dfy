/** Prepaid subscriptions (internal/platform/workers/subscription_scheduler.go and the subscription operations of
    internal/services/checkoutsvc/service.go). An account gathers the rows of one subscription: itself, its vault
    authorization (unique per subscription) and its cycles (unique per index). */
module Subscriptions {
  import opened Sums
  import opened Calendar

  type Id = int

  datatype SubscriptionStatus = Active | Paused | PastDue

  datatype CycleStatus = Due | Paid | Failed

  datatype Cycle = Cycle(start: int, end: int, dueAt: int, status: CycleStatus, amount: real, retries: nat)

  datatype Account = Account(
    merchant: Id, status: SubscriptionStatus, unit: Unit, count: int, amount: real, nextBillingAt: int,
    vaultActive: bool, remaining: real, cycles: map<int, Cycle>)

  type Accounts = map<Id, Account>

  /** One row of the scheduler's join, as it was read. */
  datatype Row = Row(sub: Id, index: int, dueAt: int, amount: real, retries: nat, unit: Unit, count: int,
                     vaultActive: bool, remaining: real)

  datatype Key = Key(sub: Id, index: int)

  // ---- One pass of the scheduler ----

  predicate DueNow(accounts: Accounts, now: int, key: Key) {
    && key.sub in accounts
    && key.index in accounts[key.sub].cycles
    && accounts[key.sub].cycles[key.index].status == Due
    && accounts[key.sub].cycles[key.index].dueAt <= now
    && accounts[key.sub].status == Active
  }

  function Read(accounts: Accounts, key: Key): Row
    requires key.sub in accounts && key.index in accounts[key.sub].cycles
  {
    var a := accounts[key.sub];
    var c := a.cycles[key.index];
    Row(key.sub, key.index, c.dueAt, c.amount, c.retries, a.unit, a.count, a.vaultActive, a.remaining)
  }

  /** INSERT .. ON CONFLICT (subscription_id, cycle_index) DO NOTHING. */
  function InsertCycle(cycles: map<int, Cycle>, index: int, cycle: Cycle): map<int, Cycle> {
    if index in cycles then cycles else cycles[index := cycle]
  }

  function NextCycle(row: Row): Cycle {
    var due := AddInterval(row.dueAt, row.unit, row.count);
    Cycle(due, AddInterval(due, row.unit, row.count), due, Due, row.amount, 0)
  }

  /** A covered row: the vault is debited, the cycle paid, and the next one appended. */
  function Debited(account: Account, row: Row, next: Cycle): Account
    requires row.index in account.cycles
  {
    var paid := account.cycles[row.index := account.cycles[row.index].(status := Paid)];
    account.(remaining := row.remaining - row.amount,
             cycles := InsertCycle(paid, row.index + 1, next),
             nextBillingAt := next.dueAt)
  }

  /** An uncovered row: the cycle fails, and from the third failure on the subscription is past due. */
  function Refused(account: Account, row: Row): Account
    requires row.index in account.cycles
  {
    var cycle := account.cycles[row.index];
    account.(cycles := account.cycles[row.index := cycle.(status := Failed, retries := row.retries + 1)],
             status := if row.retries + 1 >= 3 then PastDue else account.status)
  }

  predicate Covered(row: Row) {
    row.vaultActive && row.remaining >= row.amount
  }

  /** What the statements for one row do to its account. Everything but the account's own columns comes from the row. */
  function Charge(account: Account, row: Row): Account
    requires row.index in account.cycles
  {
    if Covered(row) then Debited(account, row, NextCycle(row)) else Refused(account, row)
  }

  function Apply(accounts: Accounts, row: Row): (after: Accounts)
    ensures after.Keys == accounts.Keys
  {
    if row.sub in accounts && row.index in accounts[row.sub].cycles
    then accounts[row.sub := Charge(accounts[row.sub], row)] else accounts
  }

  /** The scheduler's pass: all rows were read before the first was processed. */
  function StalePass(accounts: Accounts, rows: seq<Row>): (after: Accounts)
    ensures after.Keys == accounts.Keys
  {
    if rows == [] then accounts else Apply(StalePass(accounts, rows[..|rows| - 1]), rows[|rows| - 1])
  }

  /** A pass that would read every row only when it gets to it, skipping what is no longer due. */
  function FreshPass(accounts: Accounts, now: int, keys: seq<Key>): (after: Accounts)
    ensures after.Keys == accounts.Keys
  {
    if keys == [] then accounts else
      var before := FreshPass(accounts, now, keys[..|keys| - 1]);
      var key := keys[|keys| - 1];
      if DueNow(before, now, key) then Apply(before, Read(before, key)) else before
  }

  predicate Batch(accounts: Accounts, now: int, keys: seq<Key>) {
    && (forall i, j | 0 <= i < j < |keys| :: keys[i] != keys[j])
    && (forall key | key in keys :: DueNow(accounts, now, key))
  }

  function ReadAll(accounts: Accounts, keys: seq<Key>): seq<Row>
    requires forall key | key in keys :: key.sub in accounts && key.index in accounts[key.sub].cycles
  {
    seq(|keys|, i requires 0 <= i < |keys| => Read(accounts, keys[i]))
  }

  // ---- The invariant of an account ----

  /** Amounts of the paid cycles. */
  ghost function PaidAmounts(a: Account): map<int, real> {
    map k | k in a.cycles && a.cycles[k].status == Paid :: a.cycles[k].amount
  }

  /** One cycle of the chain: paid unless it is the last, and the next one starts when it ends. */
  ghost predicate Link(a: Account, k: int, last: int)
    requires k in a.cycles
  {
    var c := a.cycles[k];
    && c.start == c.dueAt
    && c.end == AddInterval(c.dueAt, a.unit, a.count)
    && c.amount == a.amount
    && c.retries == (if c.status == Failed then 1 else 0)
    && (c.status == Paid <==> k != last)
    && (k == last ==> a.nextBillingAt == c.dueAt)
    && (k != last ==> k + 1 in a.cycles && a.cycles[k + 1].dueAt == c.end)
  }

  /** Cycles are numbered 1..n without gaps; all but the last are paid; periods follow each other. */
  ghost predicate Timeline(a: Account) {
    && |a.cycles| >= 1
    && (forall k :: k in a.cycles <==> 1 <= k <= |a.cycles|)
    && (forall k {:trigger Link(a, k, |a.cycles|)} | k in a.cycles :: Link(a, k, |a.cycles|))
  }

  /** `funded` is what the vault held when the subscription was created. */
  ghost predicate Funded(a: Account, funded: real) {
    && 0.0 < a.amount && 0.0 <= a.remaining
    && a.remaining + Sum(PaidAmounts(a)) == funded
    && Sum(PaidAmounts(a)) == (|a.cycles| - 1) as real * a.amount
  }

  ghost predicate AccountInv(a: Account, funded: real) {
    Timeline(a) && Funded(a, funded) && a.status != PastDue
  }

  lemma DueIsLast(a: Account, index: int)
    requires Timeline(a) && index in a.cycles && a.cycles[index].status == Due
    ensures index == |a.cycles|
  {
    assert Link(a, index, |a.cycles|);
  }

  /** The row still describes the account it was read from. */
  predicate Current(a: Account, row: Row) {
    && row.index in a.cycles
    && row == Row(row.sub, row.index, a.cycles[row.index].dueAt, a.cycles[row.index].amount,
                  a.cycles[row.index].retries, a.unit, a.count, a.vaultActive, a.remaining)
  }

  lemma PaidChargeTimeline(a: Account, row: Row)
    requires Timeline(a) && Current(a, row) && a.cycles[row.index].status == Due
    requires Covered(row)
    ensures var b := Charge(a, row);
      && Timeline(b)
      && row.index == |a.cycles| && row.index + 1 !in a.cycles
      && b.cycles == a.cycles[row.index := a.cycles[row.index].(status := Paid)][row.index + 1 := NextCycle(row)]
  {
    DueIsLast(a, row.index);
    var b, n := Charge(a, row), row.index;
    assert Link(a, n, n);
    assert b.cycles == a.cycles[n := a.cycles[n].(status := Paid)][n + 1 := NextCycle(row)];
    assert |b.cycles| == n + 1;
    forall k | k in b.cycles ensures Link(b, k, n + 1) {
      if k < n { assert Link(a, k, n); }
    }
  }

  lemma PaidCharge(a: Account, row: Row, funded: real)
    requires AccountInv(a, funded) && Current(a, row) && a.cycles[row.index].status == Due
    requires Covered(row)
    ensures AccountInv(Charge(a, row), funded)
    ensures Charge(a, row).cycles.Keys == a.cycles.Keys + {row.index + 1} && row.index + 1 !in a.cycles
  {
    PaidChargeTimeline(a, row);
    assert Link(a, row.index, |a.cycles|);
    PaidOneMore(a, Charge(a, row), row.index, NextCycle(row));
  }

  lemma PaidOneMore(a: Account, b: Account, n: int, next: Cycle)
    requires n in a.cycles && a.cycles[n].status != Paid && n + 1 !in a.cycles && next.status != Paid
    requires b.cycles == a.cycles[n := a.cycles[n].(status := Paid)][n + 1 := next]
    ensures Sum(PaidAmounts(b)) == Sum(PaidAmounts(a)) + a.cycles[n].amount
    ensures |b.cycles| == |a.cycles| + 1
  {
    assert PaidAmounts(b) == PaidAmounts(a)[n := a.cycles[n].amount];
    SumInsert(PaidAmounts(a), n, a.cycles[n].amount);
  }

  lemma FailedChargeTimeline(a: Account, row: Row)
    requires Timeline(a) && Current(a, row) && a.cycles[row.index].status == Due
    requires !Covered(row)
    ensures Timeline(Charge(a, row)) && Charge(a, row).cycles.Keys == a.cycles.Keys
    ensures row.retries == 0
  {
    DueIsLast(a, row.index);
    var b, n := Charge(a, row), row.index;
    assert Link(a, n, n);
    assert b.cycles.Keys == a.cycles.Keys && |b.cycles| == |b.cycles.Keys| && |a.cycles| == |a.cycles.Keys|;
    forall k | k in b.cycles ensures Link(b, k, n) {
      assert Link(a, k, n);
    }
  }

  lemma FailedCharge(a: Account, row: Row, funded: real)
    requires AccountInv(a, funded) && Current(a, row) && a.cycles[row.index].status == Due
    requires !Covered(row)
    ensures AccountInv(Charge(a, row), funded)
  {
    FailedChargeTimeline(a, row);
    assert |Charge(a, row).cycles.Keys| == |a.cycles.Keys|;
    assert PaidAmounts(Charge(a, row)) == PaidAmounts(a);
  }

  // ---- A batch read at once equals a batch read one by one ----

  ghost predicate AllInv(accounts: Accounts, funded: map<Id, real>) {
    forall s | s in accounts :: s in funded && AccountInv(accounts[s], funded[s])
  }

  predicate Billed(keys: seq<Key>, sub: Id) {
    exists key :: key in keys && key.sub == sub
  }

  /** Every billed account is charged once, for its last cycle; the others are untouched. */
  function Effect(accounts: Accounts, keys: seq<Key>): Accounts
  {
    map s | s in accounts ::
      if Billed(keys, s) && |accounts[s].cycles| in accounts[s].cycles
      then Charge(accounts[s], Read(accounts, Key(s, |accounts[s].cycles|))) else accounts[s]
  }

  /** A subscription has at most one due cycle. */
  lemma OneDueCycle(accounts: Accounts, funded: map<Id, real>, now: int, k: Key, l: Key)
    requires AllInv(accounts, funded) && DueNow(accounts, now, k) && DueNow(accounts, now, l) && k.sub == l.sub
    ensures k == l && k.index == |accounts[k.sub].cycles|
  {
    DueIsLast(accounts[k.sub], k.index);
    DueIsLast(accounts[l.sub], l.index);
  }

  lemma BilledAppend(keys: seq<Key>, key: Key, s: Id)
    ensures Billed(keys + [key], s) <==> Billed(keys, s) || s == key.sub
  {
    var all := keys + [key];
    assert all[|keys|] == key;
    if k :| k in keys && k.sub == s { assert k in all; }
    if k :| k in all && k.sub == s { assert k in keys || k == key; }
  }

  lemma NotYetBilled(accounts: Accounts, funded: map<Id, real>, now: int, keys: seq<Key>, key: Key)
    requires AllInv(accounts, funded) && DueNow(accounts, now, key) && key !in keys
    requires forall k | k in keys :: DueNow(accounts, now, k)
    ensures !Billed(keys, key.sub)
  {
    forall k | k in keys ensures k.sub != key.sub {
      if k.sub == key.sub { OneDueCycle(accounts, funded, now, k, key); }
    }
  }

  lemma EffectStep(accounts: Accounts, funded: map<Id, real>, now: int, keys: seq<Key>, key: Key)
    requires AllInv(accounts, funded) && DueNow(accounts, now, key) && key !in keys
    requires forall k | k in keys :: DueNow(accounts, now, k)
    ensures forall k | k in keys + [key] :: DueNow(accounts, now, k)
    ensures Effect(accounts, keys)[key.sub] == accounts[key.sub]
    ensures Apply(Effect(accounts, keys), Read(accounts, key)) == Effect(accounts, keys + [key])
  {
    NotYetBilled(accounts, funded, now, keys, key);
    OneDueCycle(accounts, funded, now, key, key);
    ApplyIsEffect(accounts, keys, key);
  }

  lemma ApplyIsEffect(accounts: Accounts, keys: seq<Key>, key: Key)
    requires key.sub in accounts && key.index == |accounts[key.sub].cycles| && key.index in accounts[key.sub].cycles
    requires !Billed(keys, key.sub)
    ensures Apply(Effect(accounts, keys), Read(accounts, key)) == Effect(accounts, keys + [key])
  {
    var after := Apply(Effect(accounts, keys), Read(accounts, key));
    var effect := Effect(accounts, keys + [key]);
    forall s | s in accounts ensures after[s] == effect[s] {
      BilledAppend(keys, key, s);
    }
  }

  lemma ReadAllAppend(accounts: Accounts, keys: seq<Key>, key: Key)
    requires forall k | k in keys + [key] :: k.sub in accounts && k.index in accounts[k.sub].cycles
    requires forall k | k in keys :: k.sub in accounts && k.index in accounts[k.sub].cycles
    ensures var rows := ReadAll(accounts, keys + [key]);
      |rows| == |keys| + 1 && rows[..|keys|] == ReadAll(accounts, keys) && key in keys + [key]
      && rows[|keys|] == Read(accounts, key)
  {
    assert (keys + [key])[|keys|] == key;
  }

  lemma {:induction false} StalePassEffect(accounts: Accounts, funded: map<Id, real>, now: int, keys: seq<Key>)
    requires AllInv(accounts, funded) && Batch(accounts, now, keys)
    ensures StalePass(accounts, ReadAll(accounts, keys)) == Effect(accounts, keys)
  {
    if keys == [] {
      assert Effect(accounts, []) == accounts;
    } else {
      var n := |keys| - 1;
      assert keys[..n] + [keys[n]] == keys;
      StalePassEffect(accounts, funded, now, keys[..n]);
      ReadAllAppend(accounts, keys[..n], keys[n]);
      EffectStep(accounts, funded, now, keys[..n], keys[n]);
    }
  }

  lemma {:induction false} FreshPassEffect(accounts: Accounts, funded: map<Id, real>, now: int, keys: seq<Key>)
    requires AllInv(accounts, funded) && Batch(accounts, now, keys)
    ensures FreshPass(accounts, now, keys) == Effect(accounts, keys)
  {
    if keys == [] {
      assert Effect(accounts, []) == accounts;
    } else {
      var n := |keys| - 1;
      assert keys[..n] + [keys[n]] == keys;
      FreshPassEffect(accounts, funded, now, keys[..n]);
      EffectStep(accounts, funded, now, keys[..n], keys[n]);
    }
  }

  /** Charging every row from one snapshot, in any order, is charging them one at a time with fresh reads, in any
      other order: no vault is debited from a stale balance. */
  lemma StaleSnapshotIsSafe(accounts: Accounts, funded: map<Id, real>, now: int, keys: seq<Key>, others: seq<Key>)
    requires AllInv(accounts, funded) && Batch(accounts, now, keys) && Batch(accounts, now, others)
    requires forall key :: key in keys <==> key in others
    ensures StalePass(accounts, ReadAll(accounts, keys)) == FreshPass(accounts, now, others)
  {
    StalePassEffect(accounts, funded, now, keys);
    FreshPassEffect(accounts, funded, now, others);
    forall s ensures Billed(keys, s) <==> Billed(others, s) {
      if k :| k in keys && k.sub == s { assert k in others; }
      if k :| k in others && k.sub == s { assert k in keys; }
    }
    SameEffect(accounts, keys, others);
  }

  lemma SameEffect(accounts: Accounts, keys: seq<Key>, others: seq<Key>)
    requires forall s :: Billed(keys, s) <==> Billed(others, s)
    ensures Effect(accounts, keys) == Effect(accounts, others)
  {
    var a, b := Effect(accounts, keys), Effect(accounts, others);
    assert forall s :: s in a <==> s in b;
    assert forall s | s in a :: a[s] == b[s];
  }

  // ---- What a pass does, in terms of the rows ----

  /** The cycle waits for a debit: it is due, its date has come, and its subscription is active. */
  predicate Awaits(a: Account, k: int, now: int) {
    a.status == Active && k in a.cycles && a.cycles[k].status == Due && a.cycles[k].dueAt <= now
  }

  /** The cycle is paid from the vault and followed by one that starts, and falls due, when it ends; or, when the vault
      is not active or does not cover it, the cycle fails and nothing else changes. */
  ghost predicate DebitedOrFailed(a: Account, b: Account, k: int)
    requires k in a.cycles
  {
    var c := a.cycles[k];
    if a.vaultActive && c.amount <= a.remaining then
      && k + 1 !in a.cycles && k + 1 in b.cycles
      && b.cycles == a.cycles[k := c.(status := Paid)][k + 1 := b.cycles[k + 1]]
      && b.cycles[k + 1] == Cycle(c.end, AddInterval(c.end, a.unit, a.count), c.end, Due, c.amount, 0)
      && b == a.(remaining := a.remaining - c.amount, nextBillingAt := c.end, cycles := b.cycles)
    else
      b == a.(cycles := a.cycles[k := c.(status := Failed, retries := 1)])
  }

  /** Every account with a waiting cycle that is not locked is debited for it or fails; no other account changes. */
  ghost predicate WaitingCharged(before: Accounts, after: Accounts, now: int, locked: set<Key>) {
    && after.Keys == before.Keys
    && (forall s, k | s in before && Awaits(before[s], k, now) && Key(s, k) !in locked ::
          DebitedOrFailed(before[s], after[s], k))
    && (forall s | s in before && after[s] != before[s] ::
          exists k :: Awaits(before[s], k, now) && Key(s, k) !in locked)
  }

  lemma ChargeDebitsOrFails(a: Account, row: Row)
    requires Timeline(a) && Current(a, row) && a.cycles[row.index].status == Due
    ensures DebitedOrFailed(a, Charge(a, row), row.index)
  {
    DueIsLast(a, row.index);
    assert Link(a, row.index, |a.cycles|);
    if Covered(row) { PaidChargeTimeline(a, row); } else { FailedChargeTimeline(a, row); }
  }

  lemma EffectCharges(accounts: Accounts, funded: map<Id, real>, now: int, keys: seq<Key>, locked: set<Key>)
    requires AllInv(accounts, funded) && Batch(accounts, now, keys)
    requires forall key :: key in keys <==> DueNow(accounts, now, key) && key !in locked
    ensures WaitingCharged(accounts, Effect(accounts, keys), now, locked)
  {
    var after := Effect(accounts, keys);
    forall s, k | s in accounts && Awaits(accounts[s], k, now) && Key(s, k) !in locked
      ensures DebitedOrFailed(accounts[s], after[s], k)
    {
      assert Key(s, k) in keys;
      DueIsLast(accounts[s], k);
      ChargeDebitsOrFails(accounts[s], Read(accounts, Key(s, k)));
    }
    forall s | s in accounts && after[s] != accounts[s]
      ensures exists k :: Awaits(accounts[s], k, now) && Key(s, k) !in locked
    {
      var key :| key in keys && key.sub == s;
      assert Awaits(accounts[s], key.index, now) && key == Key(s, key.index);
    }
  }

  lemma EffectKeepsInv(accounts: Accounts, funded: map<Id, real>, now: int, keys: seq<Key>)
    requires AllInv(accounts, funded) && Batch(accounts, now, keys)
    ensures AllInv(Effect(accounts, keys), funded)
  {
    var after := Effect(accounts, keys);
    forall s | s in after ensures AccountInv(after[s], funded[s]) {
      if Billed(keys, s) {
        var key :| key in keys && key.sub == s;
        DueIsLast(accounts[s], key.index);
        var row := Read(accounts, key);
        if Covered(row) {
          PaidCharge(accounts[s], row, funded[s]);
        } else {
          FailedCharge(accounts[s], row, funded[s]);
        }
      }
    }
  }

  // ---- Whole runs ----

  /** What a request to create a subscription comes down to. */
  datatype Terms = Terms(merchant: Id, unit: Unit, count: int, amount: real, vaultMaxTotal: real, vaultRemaining: real,
                         firstBillingAt: int)

  datatype Action =
    | Create(sub: Id, terms: Terms)
    | Pause(sub: Id, merchant: Id)
    | Resume(sub: Id, merchant: Id)
    | Pass(now: int, keys: seq<Key>)

  /** `funded` remembers what each vault held at creation. */
  datatype Sys = Sys(accounts: Accounts, funded: map<Id, real>)

  const Start := Sys(map[], map[])

  predicate Acceptable(r: Terms) {
    0.0 < r.amount && 0.0 < r.vaultMaxTotal
  }

  function InitialRemaining(r: Terms): real {
    if r.vaultRemaining <= 0.0 then r.vaultMaxTotal else r.vaultRemaining
  }

  function NewAccount(r: Terms): Account {
    var count := AtLeastOne(r.count);
    var due := r.firstBillingAt;
    Account(r.merchant, Active, r.unit, count, r.amount, due, true, InitialRemaining(r),
            map[1 := Cycle(due, AddInterval(due, r.unit, count), due, Due, r.amount, 0)])
  }

  function Step(s: Sys, a: Action): Sys {
    match a
    case Create(sub, r) =>
      if Acceptable(r) && sub !in s.accounts
      then Sys(s.accounts[sub := NewAccount(r)], s.funded[sub := InitialRemaining(r)]) else s
    case Pause(sub, merchant) =>
      if sub in s.accounts && s.accounts[sub].merchant == merchant && s.accounts[sub].status == Active
      then s.(accounts := s.accounts[sub := s.accounts[sub].(status := Paused)]) else s
    case Resume(sub, merchant) =>
      if sub in s.accounts && s.accounts[sub].merchant == merchant && s.accounts[sub].status in {Paused, PastDue}
      then s.(accounts := s.accounts[sub := s.accounts[sub].(status := Active)]) else s
    case Pass(now, keys) =>
      if Batch(s.accounts, now, keys)
      then s.(accounts := StalePass(s.accounts, ReadAll(s.accounts, keys))) else s
  }

  function Run(s: Sys, actions: seq<Action>): Sys {
    if actions == [] then s else Step(Run(s, actions[..|actions| - 1]), actions[|actions| - 1])
  }

  lemma StatusKeepsInv(a: Account, status: SubscriptionStatus, funded: real)
    requires AccountInv(a, funded) && status != PastDue
    ensures AccountInv(a.(status := status), funded)
  {
    var b := a.(status := status);
    forall k | k in b.cycles ensures Link(b, k, |b.cycles|) {
      assert Link(a, k, |a.cycles|);
    }
    assert PaidAmounts(b) == PaidAmounts(a);
  }

  lemma NewAccountInv(r: Terms)
    requires Acceptable(r)
    ensures AccountInv(NewAccount(r), InitialRemaining(r))
  {
    assert PaidAmounts(NewAccount(r)) == map[];
    assert Link(NewAccount(r), 1, 1);
  }

  lemma StepKeepsInv(s: Sys, a: Action)
    requires AllInv(s.accounts, s.funded)
    ensures AllInv(Step(s, a).accounts, Step(s, a).funded)
    ensures forall sub | sub in s.accounts :: sub in Step(s, a).accounts && Step(s, a).funded[sub] == s.funded[sub]
  {
    match a
    case Create(sub, r) =>
      if Acceptable(r) { NewAccountInv(r); }
    case Pause(sub, _) =>
      if sub in s.accounts { StatusKeepsInv(s.accounts[sub], Paused, s.funded[sub]); }
    case Resume(sub, _) =>
      if sub in s.accounts { StatusKeepsInv(s.accounts[sub], Active, s.funded[sub]); }
    case Pass(now, keys) =>
      if Batch(s.accounts, now, keys) {
        StalePassEffect(s.accounts, s.funded, now, keys);
        EffectKeepsInv(s.accounts, s.funded, now, keys);
      }
  }

  lemma {:induction false} RunKeepsInv(s: Sys, actions: seq<Action>)
    requires AllInv(s.accounts, s.funded)
    ensures AllInv(Run(s, actions).accounts, Run(s, actions).funded)
  {
    if actions != [] {
      RunKeepsInv(s, actions[..|actions| - 1]);
      StepKeepsInv(Run(s, actions[..|actions| - 1]), actions[|actions| - 1]);
    }
  }

  lemma CountBound(paid: nat, amount: real, funded: real)
    requires 0.0 < amount && paid as real * amount <= funded
    ensures paid <= (funded / amount).Floor
  {
    assert paid as real <= funded / amount;
  }

  lemma AccountLedger(a: Account, funded: real)
    requires AccountInv(a, funded)
    ensures |a.cycles| - 1 <= (funded / a.amount).Floor
    ensures forall k | k in a.cycles :: a.cycles[k].status == Paid <==> k < |a.cycles|
  {
    CountBound(|a.cycles| - 1, a.amount, funded);
    forall k | k in a.cycles ensures a.cycles[k].status == Paid <==> k < |a.cycles| {
      assert Link(a, k, |a.cycles|);
    }
  }

  /** In every reachable state the balance and the paid cycles add up to what the vault was funded with, the balance is
      not negative, and no more cycles were paid than the funds allow. */
  lemma VaultLedger(actions: seq<Action>, sub: Id)
    requires sub in Run(Start, actions).accounts
    ensures var s := Run(Start, actions); var a := s.accounts[sub];
      && sub in s.funded
      && a.remaining + Sum(PaidAmounts(a)) == s.funded[sub]
      && 0.0 <= a.remaining
      && 0.0 < a.amount
      && |a.cycles| - 1 <= (s.funded[sub] / a.amount).Floor
      && (forall k | k in a.cycles :: a.cycles[k].status == Paid <==> k < |a.cycles|)
  {
    RunKeepsInv(Start, actions);
    var s := Run(Start, actions);
    var a := s.accounts[sub];
    AccountLedger(a, s.funded[sub]);
  }

  lemma NextDueDateIsLater(a: Account, k: int)
    requires Timeline(a) && 1 <= k < |a.cycles|
    ensures a.cycles[k].dueAt < a.cycles[k + 1].dueAt <==> Advances(a.unit, a.count)
  {
    assert Link(a, k, |a.cycles|);
    NextDateIsLaterIff(a.cycles[k].dueAt, a.unit, a.count);
  }

  lemma {:induction false} Increasing(dates: seq<int>, i: nat, j: nat)
    requires forall k | 0 <= k < |dates| - 1 :: dates[k] < dates[k + 1]
    requires i < j < |dates|
    ensures dates[i] < dates[j]
  {
    if i < j - 1 { Increasing(dates, i, j - 1); }
    assert dates[j - 1] < dates[j - 1 + 1];
  }

  ghost function DueDates(a: Account): (dates: seq<int>)
    requires forall k | 1 <= k <= |a.cycles| :: k in a.cycles
    ensures |dates| == |a.cycles| && forall i | 0 <= i < |dates| :: dates[i] == a.cycles[i + 1].dueAt
  {
    seq(|a.cycles|, i requires 0 <= i < |a.cycles| => a.cycles[i + 1].dueAt)
  }

  ghost predicate Increase(dates: seq<int>) {
    forall i, j | 0 <= i < j < |dates| :: dates[i] < dates[j]
  }

  lemma DueDatesIncrease(a: Account)
    requires Timeline(a)
    ensures Increase(DueDates(a)) <==> |a.cycles| == 1 || Advances(a.unit, a.count)
  {
    var dates := DueDates(a);
    if |dates| > 1 {
      NextDueDateIsLater(a, 1);
      assert dates[0] < dates[1] <==> Advances(a.unit, a.count);
    }
    if Advances(a.unit, a.count) { EachDateIsLater(a); }
  }

  lemma EachDateIsLater(a: Account)
    requires Timeline(a) && Advances(a.unit, a.count)
    ensures Increase(DueDates(a))
  {
    var dates := DueDates(a);
    forall i | 0 <= i < |dates| - 1 ensures dates[i] < dates[i + 1] {
      NextDueDateIsLater(a, i + 1);
    }
    forall i, j | 0 <= i < j < |dates| ensures dates[i] < dates[j] {
      Increasing(dates, i, j);
    }
  }

  lemma AccountTimeline(a: Account)
    requires Timeline(a)
    ensures forall k | 1 <= k < |a.cycles| :: a.cycles[k].status == Paid && a.cycles[k].end == a.cycles[k + 1].start
    ensures a.cycles[|a.cycles|].status != Paid && a.nextBillingAt == a.cycles[|a.cycles|].dueAt
  {
    assert Link(a, |a.cycles|, |a.cycles|);
    forall k | 1 <= k < |a.cycles| ensures a.cycles[k].status == Paid && a.cycles[k].end == a.cycles[k + 1].start {
      assert Link(a, k, |a.cycles|) && Link(a, k + 1, |a.cycles|);
    }
  }

  /** Indices are 1..n; all but the last are paid and the last is due or failed; each period ends where the next one
      starts; the next billing date is the last due date; and due dates increase exactly when the interval advances. */
  lemma CycleTimeline(actions: seq<Action>, sub: Id)
    requires sub in Run(Start, actions).accounts
    ensures var a := Run(Start, actions).accounts[sub]; var n := |a.cycles|;
      && n >= 1 && (forall k :: k in a.cycles <==> 1 <= k <= n)
      && (forall k | 1 <= k < n :: a.cycles[k].status == Paid && a.cycles[k].end == a.cycles[k + 1].start)
      && a.cycles[n].status != Paid
      && a.nextBillingAt == a.cycles[n].dueAt
      && (Increase(DueDates(a)) <==> n == 1 || Advances(a.unit, a.count))
  {
    RunKeepsInv(Start, actions);
    var a := Run(Start, actions).accounts[sub];
    AccountTimeline(a);
    DueDatesIncrease(a);
  }

  /** The insert of the next cycle never meets its ON CONFLICT clause. */
  lemma InsertNeverConflicts(actions: seq<Action>, now: int, key: Key)
    requires DueNow(Run(Start, actions).accounts, now, key)
    ensures key.index + 1 !in Run(Start, actions).accounts[key.sub].cycles
  {
    RunKeepsInv(Start, actions);
    DueIsLast(Run(Start, actions).accounts[key.sub], key.index);
  }

  // ---- Nothing is charged before its time ----

  /** A pass after the first n actions found the cycle waiting, and left it as it is in `c`. */
  ghost predicate ChargedIn(actions: seq<Action>, n: nat, sub: Id, k: int, c: Cycle)
    requires n < |actions|
  {
    var before, after := Run(Start, actions[..n]).accounts, Run(Start, actions[..n + 1]).accounts;
    && actions[n].Pass? && sub in before && sub in after
    && Awaits(before[sub], k, actions[n].now)
    && k in after[sub].cycles && after[sub].cycles[k] == c
    && c == before[sub].cycles[k].(status := c.status, retries := c.retries)
  }

  /** A cycle of `b` that is not due was one of `a`, and if it is not the same it was waiting at `now`. */
  ghost predicate ChargedWaiting(a: Account, b: Account, k: int, now: int) {
    k in b.cycles && b.cycles[k].status != Due ==>
      && k in a.cycles
      && (b.cycles[k] != a.cycles[k] ==>
            && Awaits(a, k, now)
            && b.cycles[k] == a.cycles[k].(status := b.cycles[k].status, retries := b.cycles[k].retries))
  }

  lemma PassChargesWaiting(accounts: Accounts, funded: map<Id, real>, now: int, keys: seq<Key>, sub: Id, k: int)
    requires AllInv(accounts, funded) && Batch(accounts, now, keys) && sub in accounts
    ensures ChargedWaiting(accounts[sub], Effect(accounts, keys)[sub], k, now)
  {
    if Billed(keys, sub) {
      var key :| key in keys && key.sub == sub;
      DueIsLast(accounts[sub], key.index);
      ChargeDebitsOrFails(accounts[sub], Read(accounts, key));
    }
  }

  /** One step leaves a cycle alone, adds it as a due one, or charges it in a pass that finds it waiting. */
  lemma StepChargesWaiting(s: Sys, a: Action, sub: Id, k: int)
    requires AllInv(s.accounts, s.funded)
    requires sub in Step(s, a).accounts && k in Step(s, a).accounts[sub].cycles
    requires Step(s, a).accounts[sub].cycles[k].status != Due
    ensures sub in s.accounts
    ensures if a.Pass? then ChargedWaiting(s.accounts[sub], Step(s, a).accounts[sub], k, a.now)
            else Step(s, a).accounts[sub].cycles == s.accounts[sub].cycles
  {
    if a.Pass? && Batch(s.accounts, a.now, a.keys) {
      StalePassEffect(s.accounts, s.funded, a.now, a.keys);
      PassChargesWaiting(s.accounts, s.funded, a.now, a.keys, sub, k);
    }
  }

  lemma ChargedInPrefix(actions: seq<Action>, n: nat, sub: Id, k: int, c: Cycle)
    requires actions != [] && n < |actions| - 1 && ChargedIn(actions[..|actions| - 1], n, sub, k, c)
    ensures ChargedIn(actions, n, sub, k, c)
  {
    assert actions[..|actions| - 1][..n] == actions[..n] && actions[..|actions| - 1][..n + 1] == actions[..n + 1];
  }

  /** Every cycle that is paid or failed became so in a pass, made when its date had come, that found it due and its
      subscription active; only its status and failure count were changed. */
  lemma {:induction false} ChargedWhenDue(actions: seq<Action>, sub: Id, k: int)
    requires sub in Run(Start, actions).accounts && k in Run(Start, actions).accounts[sub].cycles
    requires Run(Start, actions).accounts[sub].cycles[k].status != Due
    ensures exists n | 0 <= n < |actions| :: ChargedIn(actions, n, sub, k, Run(Start, actions).accounts[sub].cycles[k])
  {
    var n, c := |actions| - 1, Run(Start, actions).accounts[sub].cycles[k];
    var before := Run(Start, actions[..n]);
    RunKeepsInv(Start, actions[..n]);
    StepChargesWaiting(before, actions[n], sub, k);
    assert actions[..n + 1] == actions;
    if k in before.accounts[sub].cycles && before.accounts[sub].cycles[k] == c {
      ChargedWhenDue(actions[..n], sub, k);
      var m :| 0 <= m < n && ChargedIn(actions[..n], m, sub, k, c);
      ChargedInPrefix(actions, m, sub, k, c);
    } else {
      assert ChargedIn(actions, n, sub, k, c);
    }
  }

  // ---- A failed debit is final ----

  lemma NotBilledWhenFailed(accounts: Accounts, now: int, keys: seq<Key>, sub: Id)
    requires Batch(accounts, now, keys) && sub in accounts && Timeline(accounts[sub])
    requires accounts[sub].cycles[|accounts[sub].cycles|].status == Failed
    ensures !Billed(keys, sub)
  {
    if Billed(keys, sub) {
      var key :| key in keys && key.sub == sub;
      DueIsLast(accounts[sub], key.index);
    }
  }

  lemma {:induction false} FailedStays(s: Sys, actions: seq<Action>, sub: Id)
    requires AllInv(s.accounts, s.funded) && sub in s.accounts
    requires s.accounts[sub].cycles[|s.accounts[sub].cycles|].status == Failed
    ensures sub in Run(s, actions).accounts
    ensures var a, b := s.accounts[sub], Run(s, actions).accounts[sub];
      b.cycles == a.cycles && b.remaining == a.remaining
  {
    if actions != [] {
      var before, a := Run(s, actions[..|actions| - 1]), actions[|actions| - 1];
      FailedStays(s, actions[..|actions| - 1], sub);
      RunKeepsInv(s, actions[..|actions| - 1]);
      if a.Pass? && Batch(before.accounts, a.now, a.keys) {
        NotBilledWhenFailed(before.accounts, a.now, a.keys, sub);
        StalePassEffect(before.accounts, before.funded, a.now, a.keys);
      }
    }
  }

  /** Retry counts never exceed one, so no subscription ever becomes past_due; and once a debit has failed, nothing
      (not even resuming with a vault that could pay) charges that subscription again. */
  lemma FailedDebitIsFinal(before: seq<Action>, after: seq<Action>, sub: Id)
    requires sub in Run(Start, before).accounts
    ensures var a := Run(Start, before).accounts[sub];
      && a.status != PastDue
      && forall k | k in a.cycles :: a.cycles[k].retries <= 1
    ensures (exists k :: k in Run(Start, before).accounts[sub].cycles
                         && Run(Start, before).accounts[sub].cycles[k].status == Failed) ==>
      && sub in Run(Start, before + after).accounts
      && Run(Start, before + after).accounts[sub].cycles == Run(Start, before).accounts[sub].cycles
      && Run(Start, before + after).accounts[sub].remaining == Run(Start, before).accounts[sub].remaining
  {
    RunKeepsInv(Start, before);
    var s := Run(Start, before);
    var a := s.accounts[sub];
    assert AccountInv(a, s.funded[sub]);
    forall k | k in a.cycles ensures a.cycles[k].retries <= 1 {
      assert Link(a, k, |a.cycles|);
    }
    if k :| k in a.cycles && a.cycles[k].status == Failed {
      assert Link(a, k, |a.cycles|);
      FailedStays(s, after, sub);
      RunConcat(Start, before, after);
    }
  }

  lemma {:induction false} RunConcat(s: Sys, first: seq<Action>, second: seq<Action>)
    ensures Run(s, first + second) == Run(Run(s, first), second)
  {
    if second == [] {
      assert first + second == first;
    } else {
      var n := |second| - 1;
      RunConcat(s, first, second[..n]);
      assert (first + second)[..|first + second| - 1] == first + second[..n];
    }
  }
}
