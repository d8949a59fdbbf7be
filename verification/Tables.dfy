/** The rows of the checkout schema that payments and payouts share, and one value holding all the tables. */
module Tables {
  import opened Sums
  import opened Pricing

  type Id = int
  type TxHash = string

  /** What a payout is grouped by. */
  datatype Group = Group(merchant: Id, chain: string, token: string)

  datatype SessionStatus = SessionAwaiting | SessionPaid | SessionExpired | SessionFailed | SessionCanceled

  datatype Intent = Intent(
    session: Id, group: Group, expected: real, tolerance: real, required: int, expiresAt: int,
    status: IntentStatus, received: real, confirmations: int, confirmedAt: Option<int>)

  /** One row of chain_transactions. */
  datatype Transfer = Transfer(amount: real, confirmations: int)

  type Ledger = map<TxHash, Transfer>

  datatype AddressStatus = AddressActive | AddressSwept

  datatype PayoutStatus = Scheduled | Processing | Completed

  datatype Payout = Payout(group: Group, status: PayoutStatus, scheduleAt: int, total: real, attempts: nat)

  datatype ItemStatus = ItemPending | ItemProcessing | ItemCompleted | ItemFailed

  datatype Item = Item(payout: Id, intent: Id, amount: real, status: ItemStatus)

  datatype Event =
    | IntentCreated(intent: Id)
    | PaymentDetected(intent: Id, status: IntentStatus)
    | PaymentConfirmed(intent: Id)
    | PaymentExpired(intent: Id)
    | PayoutCompleted(payout: Id, group: Group, total: real)

  /** `ledger` and `addresses` are keyed by payment intent; `outbox` is in insertion order. */
  datatype Db = Db(
    now: int,
    sessions: map<Id, SessionStatus>,
    intents: map<Id, Intent>,
    ledger: map<Id, Ledger>,
    addresses: map<Id, AddressStatus>,
    payouts: map<Id, Payout>,
    items: map<Id, Item>,
    outbox: seq<Event>)

  predicate NoDuplicates<T(==)>(s: seq<T>) {
    forall i, j | 0 <= i < j < |s| :: s[i] != s[j]
  }

  // ---- The SQL aggregates ----

  ghost function AllAmounts(ledger: Ledger): map<TxHash, real> {
    map h | h in ledger :: ledger[h].amount
  }

  ghost function ConfirmedAmounts(ledger: Ledger, required: int): map<TxHash, real> {
    map h | h in ledger && ledger[h].confirmations >= required :: ledger[h].amount
  }

  /** SUM(amount). */
  ghost function TotalReceived(ledger: Ledger): real {
    Sum(AllAmounts(ledger))
  }

  /** SUM(amount) FILTER (WHERE confirmations >= required). */
  ghost function ConfirmedReceived(ledger: Ledger, required: int): real {
    Sum(ConfirmedAmounts(ledger, required))
  }

  /** `n` is MIN(confirmations) over a table that is not empty. */
  ghost predicate IsMinConfirmations(ledger: Ledger, n: int) {
    && (exists h :: h in ledger && ledger[h].confirmations == n)
    && (forall h | h in ledger :: n <= ledger[h].confirmations)
  }

  lemma {:induction false} MinExists(ledger: Ledger)
    requires ledger != map[]
    ensures exists n :: IsMinConfirmations(ledger, n)
    decreases |ledger|
  {
    var h :| h in ledger;
    var rest := ledger - {h};
    assert ledger == rest[h := ledger[h]];
    if rest == map[] {
      assert IsMinConfirmations(ledger, ledger[h].confirmations);
    } else {
      MinExists(rest);
      var n :| IsMinConfirmations(rest, n);
      var least := if n <= ledger[h].confirmations then n else ledger[h].confirmations;
      assert IsMinConfirmations(ledger, least);
    }
  }

  ghost function MinConfirmations(ledger: Ledger): (n: int)
    ensures ledger != map[] ==> IsMinConfirmations(ledger, n)
    ensures ledger == map[] ==> n == 0
  {
    if ledger == map[] then 0 else
      MinExists(ledger);
      var n :| IsMinConfirmations(ledger, n);
      n
  }

  ghost function ItemsOf(items: map<Id, Item>, payout: Id): map<Id, real> {
    map k | k in items && items[k].payout == payout :: items[k].amount
  }
}
