/** The subscription scheduler and the operations of the checkout service that share its tables. */
module SubscriptionScheduler {
  import opened Sums
  import opened Text
  import opened Calendar
  import opened Subscriptions

  // ---- Requests and replies ----

  datatype Reply = Done(sub: Id) | InvalidArgument | NotFound | Internal

  /** The texts and numbers of a request to create a subscription; `merchant` is the id its text parses to, if it
      does. */
  datatype Request = Request(
    merchant: Option<Id>, chain: string, token: string, amount: real, unit: string, count: int,
    vaultContract: string, vaultWallet: string, vaultMaxTotal: real, vaultRemaining: real,
    firstBillingAt: string, paymentLink: string, metadata: string, vaultExpiresAt: string)

  /** What the parsers of RFC 3339 times, ids and JSON accept. */
  datatype Parsers = Parsers(time: string -> Option<int>, id: string -> bool, json: string -> bool)

  function UnitOf(text: string): Option<Unit> {
    var unit := ToLower(Trim(text));
    if unit == "" || unit == "month" then Some(Month)
    else if unit == "day" then Some(Day)
    else if unit == "week" then Some(Week)
    else None
  }

  predicate WellFormed(r: Request, p: Parsers) {
    && r.merchant.Some?
    && Trim(r.chain) != "" && Trim(r.token) != "" && 0.0 < r.amount
    && UnitOf(r.unit).Some?
    && Trim(r.vaultContract) != "" && Trim(r.vaultWallet) != "" && 0.0 < r.vaultMaxTotal
    && (Trim(r.firstBillingAt) == "" || p.time(Trim(r.firstBillingAt)).Some?)
    && (Trim(r.paymentLink) == "" || p.id(Trim(r.paymentLink)))
    && (Trim(r.metadata) == "" || p.json(r.metadata))
    && (Trim(r.vaultExpiresAt) == "" || p.time(Trim(r.vaultExpiresAt)).Some?)
  }

  /** Billing starts when the request says, or else one interval from now. */
  function TermsOf(r: Request, p: Parsers, now: int): Terms
    requires WellFormed(r, p)
  {
    var unit := UnitOf(r.unit).value;
    var first := if Trim(r.firstBillingAt) == "" then AddInterval(now, unit, AtLeastOne(r.count))
                 else p.time(Trim(r.firstBillingAt)).value;
    Terms(r.merchant.value, unit, AtLeastOne(r.count), r.amount, r.vaultMaxTotal, r.vaultRemaining, first)
  }

  /** The checks of the request, one after the other, with what they parse. */
  method ReadTerms(request: Request, parsers: Parsers, now: int) returns (terms: Option<Terms>)
    requires parsers.json("{}")
    ensures terms == if WellFormed(request, parsers) then Some(TermsOf(request, parsers, now)) else None
  {
    if request.merchant == None { return None; }
    if Trim(request.chain) == "" || Trim(request.token) == "" || request.amount <= 0.0 { return None; }
    var count := request.count;
    if count <= 0 { count := 1; }
    var unit := UnitOf(request.unit);
    if unit == None { return None; }
    if Trim(request.vaultContract) == "" || Trim(request.vaultWallet) == "" { return None; }
    if request.vaultMaxTotal <= 0.0 { return None; }
    var due := AddInterval(now, unit.value, count);
    if Trim(request.firstBillingAt) != "" {
      var parsed := parsers.time(Trim(request.firstBillingAt));
      if parsed == None { return None; }
      due := parsed.value;
    }
    if Trim(request.paymentLink) != "" && !parsers.id(Trim(request.paymentLink)) { return None; }
    var metadata := request.metadata;
    if Trim(metadata) == "" { metadata := "{}"; }
    if !parsers.json(metadata) { return None; }
    if Trim(request.vaultExpiresAt) != "" && parsers.time(Trim(request.vaultExpiresAt)) == None { return None; }
    return Some(Terms(request.merchant.value, unit.value, count, request.amount,
                      request.vaultMaxTotal, request.vaultRemaining, due));
  }

  /** The account of a new subscription, read off the request: active, with the vault's balance as given or else its
      maximum, and one due cycle, on the date asked for or else one interval from now. */
  ghost predicate OpenedAsAsked(r: Request, p: Parsers, now: int, a: Account) {
    var unit := ToLower(Trim(r.unit));
    && Some(a.merchant) == r.merchant && a.status == Active && a.amount == r.amount
    && a.count == (if r.count <= 0 then 1 else r.count)
    && (a.unit == Day <==> unit == "day") && (a.unit == Week <==> unit == "week")
    && a.vaultActive && a.remaining == (if 0.0 < r.vaultRemaining then r.vaultRemaining else r.vaultMaxTotal) > 0.0
    && Some(a.nextBillingAt) == (if Trim(r.firstBillingAt) == "" then Some(AddInterval(now, a.unit, a.count))
                                 else p.time(Trim(r.firstBillingAt)))
    && var due := a.nextBillingAt;
    && a.cycles == map[1 := Cycle(due, AddInterval(due, a.unit, a.count), due, Due, r.amount, 0)]
  }

  lemma NewAccountAsAsked(r: Request, p: Parsers, now: int)
    requires WellFormed(r, p)
    ensures OpenedAsAsked(r, p, now, NewAccount(TermsOf(r, p, now)))
  {}

  class SubscriptionTables {
    var accounts: Accounts
    ghost var funded: map<Id, real>
    ghost var trace: seq<Action>

    ghost function State(): Sys
      reads this
    {
      Sys(accounts, funded)
    }

    /** The state is the outcome of the recorded run. */
    ghost predicate Valid()
      reads this
    {
      State() == Run(Start, trace)
    }

    constructor ()
      ensures Valid() && accounts == map[] && trace == []
    {
      accounts, funded, trace := map[], map[], [];
    }

    ghost method Record(a: Action)
      requires accounts == Step(Run(Start, trace), a).accounts
      modifies this`funded, this`trace
      ensures Valid() && trace == old(trace) + [a]
    {
      assert (trace + [a])[..|trace|] == trace;
      funded := Step(Run(Start, trace), a).funded;
      trace := trace + [a];
    }

    /** Checks the request, then inserts subscription, vault and first cycle in one transaction (`committed`). */
    method CreateSubscription(request: Request, parsers: Parsers, now: int, committed: bool) returns (reply: Reply)
      requires Valid() && parsers.json("{}")
      modifies this
      ensures Valid()
      ensures reply.InvalidArgument? <==>
        || request.merchant == None
        || Trim(request.chain) == "" || Trim(request.token) == "" || request.amount <= 0.0
        || ToLower(Trim(request.unit)) !in {"", "day", "week", "month"}
        || Trim(request.vaultContract) == "" || Trim(request.vaultWallet) == "" || request.vaultMaxTotal <= 0.0
        || (Trim(request.firstBillingAt) != "" && parsers.time(Trim(request.firstBillingAt)) == None)
        || (Trim(request.paymentLink) != "" && !parsers.id(Trim(request.paymentLink)))
        || (Trim(request.metadata) != "" && !parsers.json(request.metadata))
        || (Trim(request.vaultExpiresAt) != "" && parsers.time(Trim(request.vaultExpiresAt)) == None)
      ensures if committed then reply.InvalidArgument? || reply.Done? else reply in {InvalidArgument, Internal}
      ensures reply.Done? ==>
        && reply.sub !in old(accounts) && reply.sub in accounts
        && accounts == old(accounts)[reply.sub := accounts[reply.sub]]
        && OpenedAsAsked(request, parsers, now, accounts[reply.sub])
      ensures !reply.Done? ==> unchanged(this)
    {
      var terms := ReadTerms(request, parsers, now);
      if WellFormed(request, parsers) { NewAccountAsAsked(request, parsers, now); }
      if terms == None { return InvalidArgument; }
      if !committed { return Internal; }
      var sub := InsertSubscription(terms.value);
      return Done(sub);
    }

    /** The three rows of a new subscription. */
    method InsertSubscription(terms: Terms) returns (sub: Id)
      requires Valid() && Acceptable(terms)
      modifies this
      ensures Valid() && sub !in old(accounts) && accounts == old(accounts)[sub := NewAccount(terms)]
    {
      var remaining := terms.vaultRemaining;
      if remaining <= 0.0 { remaining := terms.vaultMaxTotal; }
      var count, due := AtLeastOne(terms.count), terms.firstBillingAt;
      var cycle := Cycle(due, AddInterval(due, terms.unit, count), due, Due, terms.amount, 0);
      sub := NewId(accounts.Keys);
      accounts := accounts[sub := Account(terms.merchant, Active, terms.unit, count, terms.amount, due, true, remaining,
                                          map[1 := cycle])];
      Record(Create(sub, terms));
    }

    /** The UPDATE may fail (`executed`); otherwise the row count tells whether an active subscription was found. */
    method PauseSubscription(merchant: Option<Id>, sub: Option<Id>, executed: bool) returns (reply: Reply)
      requires Valid()
      modifies this
      ensures Valid()
      ensures reply == (
        if merchant == None || sub == None then InvalidArgument
        else if !executed then Internal
        else if sub.value in old(accounts) && old(accounts)[sub.value].merchant == merchant.value
                && old(accounts)[sub.value].status == Active then Done(sub.value)
        else NotFound)
      ensures accounts == if reply.Done? then old(accounts)[sub.value := old(accounts)[sub.value].(status := Paused)]
                          else old(accounts)
    {
      if merchant == None { return InvalidArgument; }
      if sub == None { return InvalidArgument; }
      if !executed { return Internal; }
      var id := sub.value;
      var found := id in accounts && accounts[id].merchant == merchant.value && accounts[id].status == Active;
      if found { accounts := accounts[id := accounts[id].(status := Paused)]; }
      Record(Pause(id, merchant.value));
      return if found then Done(id) else NotFound;
    }

    method ResumeSubscription(merchant: Option<Id>, sub: Option<Id>, executed: bool) returns (reply: Reply)
      requires Valid()
      modifies this
      ensures Valid()
      ensures reply == (
        if merchant == None || sub == None then InvalidArgument
        else if !executed then Internal
        else if sub.value in old(accounts) && old(accounts)[sub.value].merchant == merchant.value
                && old(accounts)[sub.value].status in {Paused, PastDue} then Done(sub.value)
        else NotFound)
      ensures accounts == if reply.Done? then old(accounts)[sub.value := old(accounts)[sub.value].(status := Active)]
                          else old(accounts)
    {
      if merchant == None { return InvalidArgument; }
      if sub == None { return InvalidArgument; }
      if !executed { return Internal; }
      var id := sub.value;
      var found := id in accounts && accounts[id].merchant == merchant.value
                   && (accounts[id].status == Paused || accounts[id].status == PastDue);
      if found { accounts := accounts[id := accounts[id].(status := Active)]; }
      Record(Resume(id, merchant.value));
      return if found then Done(id) else NotFound;
    }

    /** One pass: the rows are read first, then charged one after the other from what was read. Locked rows are passed
        over. The outcome is the one that fresh reads would have given. */
    method Process(now: int, locked: set<Key>, committed: bool)
      requires Valid()
      modifies this
      ensures Valid()
      ensures !committed ==> unchanged(this)
      ensures committed ==> exists keys ::
        && Batch(old(accounts), now, keys)
        && (forall key :: key in keys <==> DueNow(old(accounts), now, key) && key !in locked)
        && accounts == FreshPass(old(accounts), now, keys)
        && trace == old(trace) + [Pass(now, keys)]
      ensures committed ==> WaitingCharged(old(accounts), accounts, now, locked)
    {
      var keys := SelectDue(accounts, now, locked);
      var rows := ReadAll(accounts, keys);
      var next := ChargeRows(accounts, rows);
      if !committed { return; }
      RunKeepsInv(Start, trace);
      StaleSnapshotIsSafe(accounts, funded, now, keys, keys);
      StalePassEffect(accounts, funded, now, keys);
      EffectCharges(accounts, funded, now, keys, locked);
      accounts := next;
      Record(Pass(now, keys));
    }
  }

  /** The join of due cycles and active subscriptions, without the rows that another transaction holds. */
  method SelectDue(accounts: Accounts, now: int, locked: set<Key>) returns (keys: seq<Key>)
    ensures Batch(accounts, now, keys)
    ensures forall key :: key in keys <==> DueNow(accounts, now, key) && key !in locked
  {
    var selected := set s, i | s in accounts && i in accounts[s].cycles && DueNow(accounts, now, Key(s, i))
                               && Key(s, i) !in locked :: Key(s, i);
    keys := Rows(selected);
    assert forall key | DueNow(accounts, now, key) && key !in locked :: Key(key.sub, key.index) in selected;
  }

  method FollowingCycle(row: Row) returns (cycle: Cycle)
    ensures cycle == NextCycle(row)
  {
    var nextDue := AddInterval(row.dueAt, row.unit, row.count);
    var nextEnd := AddInterval(nextDue, row.unit, row.count);
    cycle := Cycle(nextDue, nextEnd, nextDue, Due, row.amount, 0);
  }

  method Debit(account: Account, row: Row, next: Cycle) returns (after: Account)
    requires row.index in account.cycles
    ensures after == Debited(account, row, next)
  {
    var newRemaining := row.remaining - row.amount;
    var cycles := account.cycles[row.index := account.cycles[row.index].(status := Paid)];
    if row.index + 1 !in cycles { cycles := cycles[row.index + 1 := next]; }
    after := account.(remaining := newRemaining, cycles := cycles, nextBillingAt := next.dueAt);
  }

  /** The statements for one row: debit and extend the chain, or count a failure. */
  method ChargeRow(account: Account, row: Row) returns (charged: Account)
    requires row.index in account.cycles
    ensures charged == Charge(account, row)
    ensures row.vaultActive && row.amount <= row.remaining ==>
      var due := AddInterval(row.dueAt, row.unit, row.count);
      var next := Cycle(due, AddInterval(due, row.unit, row.count), due, Due, row.amount, 0);
      var paid := account.cycles[row.index := account.cycles[row.index].(status := Paid)];
      charged == account.(remaining := row.remaining - row.amount, nextBillingAt := due,
                          cycles := if row.index + 1 in account.cycles then paid else paid[row.index + 1 := next])
    ensures !row.vaultActive || row.remaining < row.amount ==>
      var failed := account.cycles[row.index].(status := Failed, retries := row.retries + 1);
      charged == account.(cycles := account.cycles[row.index := failed],
                          status := if 2 <= row.retries then PastDue else account.status)
  {
    if row.vaultActive && row.remaining >= row.amount {
      var next := FollowingCycle(row);
      charged := Debit(account, row, next);
    } else {
      var newRetry := row.retries + 1;
      var cycle := account.cycles[row.index].(status := Failed, retries := newRetry);
      charged := account.(cycles := account.cycles[row.index := cycle]);
      if newRetry >= 3 { charged := charged.(status := PastDue); }
    }
  }

  /** The loop over the rows. */
  method ChargeRows(accounts: Accounts, rows: seq<Row>) returns (next: Accounts)
    requires forall r | r in rows :: r.sub in accounts && r.index in accounts[r.sub].cycles
    ensures next == StalePass(accounts, rows)
  {
    next := accounts;
    for n := 0 to |rows|
      invariant next == StalePass(accounts, rows[..n])
      invariant forall s | s in accounts :: s in next && accounts[s].cycles.Keys <= next[s].cycles.Keys
    {
      var row := rows[n];
      assert row in rows && rows[..n + 1][..n] == rows[..n];
      var charged := ChargeRow(next[row.sub], row);
      next := next[row.sub := charged];
    }
    assert rows[..|rows|] == rows;
  }
}
