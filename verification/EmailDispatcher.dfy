/** The e-mail dispatcher (internal/platform/workers/email_dispatcher.go), statement by statement. Other handlers may
    run between any two of its statements. */
module EmailDispatcher {
  import opened Email
  import opened EmailDispatch

  /** The circumstances of one event's handling: whether other handlers run in between, and for each recipient whether
      its INSERT goes through, the sender accepts the message, and the UPDATE that records the answer goes through. */
  datatype Fate = Fate(quiet: bool, inserts: string -> bool, accepts: string -> bool, marks: string -> bool)

  type Notifications = map<Key, Notification>

  // ---- A handler by itself ----

  function MessageTo(f: Fate, me: Id, key: Key): Call {
    Call(key, me, f.accepts(key.recipient))
  }

  function RowAfter(f: Fate, rows: Notifications, key: Key): Notifications {
    if key in rows then rows
    else rows[key := if f.marks(key.recipient) then Marked(Notification(Pending, 0), f.accepts(key.recipient))
                     else Notification(Pending, 0)]
  }

  /** The table after the recipients, up to the first whose INSERT fails. */
  function RowsAfter(f: Fate, rows: Notifications, event: string, template: string,
                     recipients: seq<string>): Notifications
    decreases |recipients|
  {
    if recipients == [] || !f.inserts(recipients[0]) then rows
    else RowsAfter(f, RowAfter(f, rows, Key(event, template, recipients[0])), event, template, recipients[1..])
  }

  /** The calls made for them: one for each key that has no row yet. */
  function CallsMade(f: Fate, me: Id, rows: Notifications, event: string, template: string,
                     recipients: seq<string>): seq<Call>
    decreases |recipients|
  {
    if recipients == [] || !f.inserts(recipients[0]) then []
    else
      var key := Key(event, template, recipients[0]);
      (if key in rows then [] else [MessageTo(f, me, key)])
      + CallsMade(f, me, RowAfter(f, rows, key), event, template, recipients[1..])
  }

  /** The row of a recipient that was sent to: it carries the sender's answer and one attempt, or is still pending when
      the answer could not be recorded. */
  function RowFor(f: Fate, recipient: string): Notification {
    if f.marks(recipient) then Notification(if f.accepts(recipient) then Sent else Failed, 1)
    else Notification(Pending, 0)
  }

  lemma {:induction false} RowsKept(f: Fate, rows: Notifications, event: string, template: string,
                                    recipients: seq<string>)
    ensures forall k | k in rows ::
              && k in RowsAfter(f, rows, event, template, recipients)
              && RowsAfter(f, rows, event, template, recipients)[k] == rows[k]
    decreases |recipients|
  {
    if recipients != [] && f.inserts(recipients[0]) {
      RowsKept(f, RowAfter(f, rows, Key(event, template, recipients[0])), event, template, recipients[1..]);
    }
  }

  /** Every recipient without a row is called for, and gets its row. */
  lemma {:induction false} NewRowsAndCalls(f: Fate, me: Id, rows: Notifications, event: string, template: string,
                                           recipients: seq<string>, r: string)
    requires (forall x | x in recipients :: f.inserts(x)) && r in recipients && Key(event, template, r) !in rows
    ensures var key, after := Key(event, template, r), RowsAfter(f, rows, event, template, recipients);
      && key in after && after[key] == RowFor(f, r)
      && Call(key, me, f.accepts(r)) in CallsMade(f, me, rows, event, template, recipients)
    decreases |recipients|
  {
    var next := RowAfter(f, rows, Key(event, template, recipients[0]));
    assert recipients == [recipients[0]] + recipients[1..];
    if r == recipients[0] {
      RowsKept(f, next, event, template, recipients[1..]);
    } else {
      NewRowsAndCalls(f, me, next, event, template, recipients[1..], r);
    }
  }

  // ---- Among other handlers ----

  /** No row, reservation or call is ever taken back. */
  ghost predicate Grown(s: Sys, s': Sys) {
    && s.notifications.Keys <= s'.notifications.Keys
    && s.sends <= s'.sends
    && forall k | k in s.reservedBy :: k in s'.reservedBy && s'.reservedBy[k] == s.reservedBy[k]
  }

  /** For every row that this handler inserted since `s`, it has called the sender, with the sender's answer. */
  ghost predicate MineSent(f: Fate, me: Id, s: Sys, s': Sys) {
    forall k | k in s'.reservedBy && k !in s.reservedBy && s'.reservedBy[k] == me :: MessageTo(f, me, k) in s'.sends
  }

  lemma MineSentLater(f: Fate, me: Id, s: Sys, mid: Sys, s': Sys)
    requires MineSent(f, me, s, mid) && MineSent(f, me, mid, s') && Grown(s, mid) && Grown(mid, s')
    ensures MineSent(f, me, s, s') && Grown(s, s')
  {}

  /** The outcome of one recipient. A row that this handler inserts is sent to, with the sender's answer; when nothing
      interferes that is every row there was not, and nothing else happens. */
  ghost predicate Handled(f: Fate, me: Id, key: Key, s: Sys, s': Sys) {
    && Grown(s, s') && MineSent(f, me, s, s')
    && (f.inserts(key.recipient) ==> key in s'.notifications)
    && (f.quiet && !f.inserts(key.recipient) ==>
          s'.notifications == s.notifications && s'.sends == s.sends && s'.reservedBy == s.reservedBy)
    && (f.quiet && f.inserts(key.recipient) ==>
          && s'.notifications == RowAfter(f, s.notifications, key)
          && s'.sends == s.sends + (if key in s.notifications then [] else [MessageTo(f, me, key)])
          && s'.reservedBy == if key in s.notifications then s.reservedBy else s.reservedBy[key := me])
  }

  /** The outcome of all recipients but those in `rest`: each has a row, what this handler inserted it has sent to, and
      when nothing interferes the table and the calls are on their way to those of RowsAfter and CallsMade. */
  ghost predicate HandledUpTo(f: Fate, me: Id, event: string, template: string, recipients: seq<string>,
                              rest: seq<string>, s: Sys, s': Sys)
  {
    && Grown(s, s') && MineSent(f, me, s, s')
    && (forall r | r in recipients :: r in rest || (f.inserts(r) && Key(event, template, r) in s'.notifications))
    && (f.quiet ==>
          && RowsAfter(f, s'.notifications, event, template, rest)
             == RowsAfter(f, s.notifications, event, template, recipients)
          && s'.sends + CallsMade(f, me, s'.notifications, event, template, rest)
             == s.sends + CallsMade(f, me, s.notifications, event, template, recipients)
          && forall k | k in s'.reservedBy && k !in s.reservedBy :: s'.reservedBy[k] == me)
  }

  lemma OneMoreHandled(f: Fate, me: Id, event: string, template: string, recipients: seq<string>, rest: seq<string>,
                       s: Sys, mid: Sys, s': Sys)
    requires rest != [] && f.inserts(rest[0])
    requires HandledUpTo(f, me, event, template, recipients, rest, s, mid)
    requires Handled(f, me, Key(event, template, rest[0]), mid, s')
    ensures HandledUpTo(f, me, event, template, recipients, rest[1..], s, s')
  {
    MineSentLater(f, me, s, mid, s');
    assert rest == [rest[0]] + rest[1..];
  }

  /** The loop was left at the first recipient of `rest`, whose INSERT failed. */
  lemma LeftAtFailure(f: Fate, me: Id, event: string, template: string, recipients: seq<string>, rest: seq<string>,
                      s: Sys, mid: Sys, s': Sys)
    requires rest != [] && !f.inserts(rest[0])
    requires HandledUpTo(f, me, event, template, recipients, rest, s, mid)
    requires Handled(f, me, Key(event, template, rest[0]), mid, s')
    ensures Dispatched(f, me, event, template, recipients, s, s')
  {
    MineSentLater(f, me, s, mid, s');
  }

  /** The outcome of the whole loop. */
  ghost predicate Dispatched(f: Fate, me: Id, event: string, template: string, recipients: seq<string>,
                             s: Sys, s': Sys)
  {
    && Grown(s, s') && MineSent(f, me, s, s')
    && (f.quiet ==>
          && s'.notifications == RowsAfter(f, s.notifications, event, template, recipients)
          && s'.sends == s.sends + CallsMade(f, me, s.notifications, event, template, recipients)
          && forall k | k in s'.reservedBy && k !in s.reservedBy :: s'.reservedBy[k] == me)
  }

  /** What other handlers do leaves this one where it is and inserts nothing in its name. */
  ghost predicate LeftAlone(s: Sys, s': Sys, me: Id) {
    && Grown(s, s')
    && (me in s.handlers <==> me in s'.handlers)
    && (me in s.handlers ==> s'.handlers[me] == s.handlers[me])
    && forall k | k in s'.reservedBy && k !in s.reservedBy :: s'.reservedBy[k] != me
  }

  lemma OtherStep(s: Sys, a: Action, me: Id)
    requires s.reservedBy.Keys == s.notifications.Keys && a.handler != me
    ensures LeftAlone(s, Step(s, a), me) && Step(s, a).reservedBy.Keys == Step(s, a).notifications.Keys
  {}

  lemma {:induction false} OtherSteps(s: Sys, others: seq<Action>, me: Id)
    requires s.reservedBy.Keys == s.notifications.Keys && forall a | a in others :: a.handler != me
    ensures LeftAlone(s, Run(s, others), me) && Run(s, others).reservedBy.Keys == Run(s, others).notifications.Keys
  {
    if others != [] {
      var n := |others| - 1;
      OtherSteps(s, others[..n], me);
      OtherStep(Run(s, others[..n]), others[n], me);
    }
  }

  /** Every address has a row, reserved by this handler or another, and what that means for a new one. */
  ghost predicate PartyNotified(f: Fate, me: Id, event: string, template: string, address: string, s: Sys, s': Sys) {
    var key := Key(event, template, Normalize(address));
    && key in s'.notifications && key in s'.reservedBy
    && (key !in s.notifications && (f.quiet || s'.reservedBy[key] == me) ==>
          Call(key, me, f.accepts(Normalize(address))) in s'.sends)
  }

  lemma PartyIsNotified(f: Fate, me: Id, event: string, template: string, addresses: seq<string>, n: nat,
                        s: Sys, s': Sys)
    requires s.reservedBy.Keys == s.notifications.Keys && s'.reservedBy.Keys == s'.notifications.Keys
    requires Dispatched(f, me, event, template, Unique(addresses), s, s')
    requires forall r | r in Unique(addresses) :: Key(event, template, r) in s'.notifications
    requires n < |addresses| && Normalize(addresses[n]) != ""
    ensures PartyNotified(f, me, event, template, addresses[n], s, s')
  {
    UniqueRecipients(addresses);
    assert Names(addresses, n, Normalize(addresses[n]));
    assert Normalize(addresses[n]) in Unique(addresses);
  }

  class EmailDispatcher {
    var notifications: Notifications
    ghost var sends: seq<Call>
    ghost var handlers: map<Id, Handler>
    ghost var reservedBy: map<Key, Id>
    ghost var trace: seq<Action>

    ghost function State(): Sys
      reads this
    {
      Sys(notifications, handlers, sends, reservedBy)
    }

    ghost predicate Valid()
      reads this
    {
      State() == Run(Start, trace)
    }

    constructor ()
      ensures Valid() && trace == []
    {
      notifications, sends, handlers, reservedBy, trace := map[], [], map[], map[], [];
    }

    ghost method Record(before: Sys, a: Action)
      requires before == Run(Start, trace) && notifications == Step(before, a).notifications
      modifies this`sends, this`handlers, this`reservedBy, this`trace
      ensures Valid() && trace == old(trace) + [a] && State() == Step(before, a)
    {
      assert (trace + [a])[..|trace|] == trace;
      var next := Step(before, a);
      sends, handlers, reservedBy := next.sends, next.handlers, next.reservedBy;
      trace := trace + [a];
    }

    /** Between two statements the other handlers may do anything. A caller knows only what this contract says. */
    method Interference(ghost me: Id) returns (ghost others: seq<Action>)
      requires Valid()
      modifies this
      ensures Valid() && trace == old(trace) + others && forall a | a in others :: a.handler != me
    {
      others := [];
    }

    /** Unless the handling is quiet, other handlers run here. */
    method Meanwhile(ghost me: Id, f: Fate)
      requires Valid()
      modifies this
      ensures Valid() && old(trace) <= trace && (f.quiet ==> unchanged(this))
      ensures LeftAlone(old(State()), State(), me) && reservedBy.Keys == notifications.Keys
    {
      RunKeepsInv(Start, trace);
      if !f.quiet {
        ghost var others := Interference(me);
        RunConcat(Start, old(trace), others);
        OtherSteps(old(State()), others, me);
      }
    }

    /** An event reaches a new handler. */
    ghost method DeliverMessage(me: Id, event: string, template: string, recipients: seq<string>)
      requires Valid() && me !in handlers
      modifies this`sends, this`handlers, this`reservedBy, this`trace
      ensures Valid() && old(trace) <= trace && reservedBy.Keys == notifications.Keys
      ensures sends == old(sends) && reservedBy == old(reservedBy)
      ensures handlers == old(handlers)[me := Handler(event, template, recipients, AtRecipient)]
    {
      RunKeepsInv(Start, trace);
      Record(State(), Deliver(me, event, template, recipients));
    }

    /** INSERT .. ON CONFLICT DO NOTHING; the answer says whether a row was inserted. */
    method ReserveNotification(ghost me: Id, key: Key, ok: bool) returns (reserved: bool)
      requires Valid() && me in handlers && Busy(handlers[me])
      requires handlers[me].phase == AtRecipient && Current(handlers[me]) == key
      modifies this
      ensures Valid() && trace == old(trace) + [Reserve(me, ok)] && sends == old(sends)
      ensures reserved <==> ok && key !in old(notifications)
      ensures notifications
              == if reserved then old(notifications)[key := Notification(Pending, 0)] else old(notifications)
      ensures reservedBy == if reserved then old(reservedBy)[key := me] else old(reservedBy)
      ensures handlers == if !ok then old(handlers) - {me}
        else if reserved then old(handlers)[me := old(handlers)[me].(phase := Reserved)]
        else old(handlers)[me := Advance(old(handlers)[me])]
    {
      ghost var before := State();
      reserved := ok && key !in notifications;
      if reserved { notifications := notifications[key := Notification(Pending, 0)]; }
      Record(before, Reserve(me, ok));
    }

    /** The sender answers (`ok`). */
    method SendEmail(ghost me: Id, key: Key, ok: bool)
      requires Valid() && me in handlers && Busy(handlers[me])
      requires handlers[me].phase == Reserved && Current(handlers[me]) == key
      modifies this
      ensures Valid() && trace == old(trace) + [Send(me, ok)]
      ensures sends == old(sends) + [Call(key, me, ok)]
      ensures notifications == old(notifications) && reservedBy == old(reservedBy)
      ensures handlers == old(handlers)[me := old(handlers)[me].(phase := Answered(ok))]
    {
      Record(State(), Send(me, ok));
    }

    /** markNotificationSent or markNotificationFailed; an error here is only logged. */
    method MarkNotification(ghost me: Id, key: Key, sent: bool, ok: bool)
      requires Valid() && me in handlers && Busy(handlers[me])
      requires handlers[me].phase == Answered(sent) && Current(handlers[me]) == key
      modifies this
      ensures Valid() && trace == old(trace) + [Mark(me, ok)]
      ensures sends == old(sends) && reservedBy == old(reservedBy)
      ensures notifications == if ok && key in old(notifications)
        then old(notifications)[key :=
               Notification(if sent then Sent else Failed, old(notifications)[key].attempts + 1)]
        else old(notifications)
      ensures handlers == old(handlers)[me := Advance(old(handlers)[me])]
    {
      ghost var before := State();
      if ok && key in notifications { notifications := notifications[key := Marked(notifications[key], sent)]; }
      Record(before, Mark(me, ok));
    }

    /** One recipient: reserve, send, mark. */
    method DispatchOne(ghost me: Id, key: Key, f: Fate)
      requires Valid() && me in handlers && Busy(handlers[me])
      requires handlers[me].phase == AtRecipient && Current(handlers[me]) == key
      modifies this
      ensures Valid() && old(trace) <= trace && Handled(f, me, key, old(State()), State())
      ensures f.quiet ==>
        if f.inserts(key.recipient) && key !in old(notifications) then
          && sends == old(sends) + [Call(key, me, f.accepts(key.recipient))]
          && notifications == old(notifications)[key := RowFor(f, key.recipient)]
        else
          sends == old(sends) && notifications == old(notifications)
      ensures if f.inserts(key.recipient)
        then me in handlers && handlers[me] == Advance(old(handlers)[me]) else me !in handlers
    {
      Meanwhile(me, f);
      var reserved := ReserveNotification(me, key, f.inserts(key.recipient));
      if reserved { SendReserved(me, key, f); }
    }

    /** Sending to a row just inserted, and recording the answer. */
    method SendReserved(ghost me: Id, key: Key, f: Fate)
      requires Valid() && me in handlers && Busy(handlers[me]) && key in notifications
      requires handlers[me].phase == Reserved && Current(handlers[me]) == key
      modifies this
      ensures Valid() && old(trace) <= trace
      ensures Grown(old(State()), State()) && MessageTo(f, me, key) in sends
      ensures forall k | k in reservedBy && k !in old(reservedBy) :: reservedBy[k] != me
      ensures me in handlers && handlers[me] == Advance(old(handlers)[me])
      ensures f.quiet ==>
        && sends == old(sends) + [MessageTo(f, me, key)] && reservedBy == old(reservedBy)
        && notifications == if f.marks(key.recipient)
                            then old(notifications)[key := Marked(old(notifications)[key], f.accepts(key.recipient))]
                            else old(notifications)
    {
      var sent := f.accepts(key.recipient);
      Meanwhile(me, f);
      SendEmail(me, key, sent);
      assert MessageTo(f, me, key) in sends;
      Meanwhile(me, f);
      MarkNotification(me, key, sent, f.marks(key.recipient));
    }

    /** The loop over the recipients. It stops early only when an INSERT fails. No key is sent to twice; every recipient
        it got through has a row; and where this handler inserted the row, it has called the sender. When nothing
        interferes, the calls and the table are those of CallsMade and RowsAfter. */
    method Dispatch(ghost me: Id, event: string, template: string, recipients: seq<string>, f: Fate) returns (ok: bool)
      requires Valid() && me in handlers && handlers[me] == Handler(event, template, recipients, AtRecipient)
      modifies this
      ensures Valid() && old(trace) <= trace
      ensures forall key :: Count(sends, key) <= 1
      ensures ok <==> forall r | r in recipients :: f.inserts(r)
      ensures ok ==> me in handlers && handlers[me] == Handler(event, template, [], AtRecipient)
      ensures ok ==> forall r | r in recipients :: Key(event, template, r) in notifications
      ensures Dispatched(f, me, event, template, recipients, old(State()), State())
      ensures ok && f.quiet ==>
        && (forall k | k in old(notifications) :: k in notifications && notifications[k] == old(notifications)[k])
        && forall r | r in recipients && Key(event, template, r) !in old(notifications) ::
             && notifications[Key(event, template, r)] == RowFor(f, r)
             && Call(Key(event, template, r), me, f.accepts(r)) in sends
    {
      ghost var before := notifications;
      ok := DispatchAll(me, event, template, recipients, f);
      forall key ensures Count(sends, key) <= 1 {
        SentAtMostOnce(trace, key);
      }
      if ok && f.quiet {
        RowsKept(f, before, event, template, recipients);
        forall r | r in recipients && Key(event, template, r) !in before {
          NewRowsAndCalls(f, me, before, event, template, recipients, r);
        }
      }
    }

    method DispatchAll(ghost me: Id, event: string, template: string, recipients: seq<string>, f: Fate)
      returns (ok: bool)
      requires Valid() && me in handlers && handlers[me] == Handler(event, template, recipients, AtRecipient)
      modifies this
      ensures Valid() && old(trace) <= trace
      ensures ok <==> forall r | r in recipients :: f.inserts(r)
      ensures ok ==> me in handlers && handlers[me] == Handler(event, template, [], AtRecipient)
      ensures ok ==> forall r | r in recipients :: Key(event, template, r) in notifications
      ensures Dispatched(f, me, event, template, recipients, old(State()), State())
    {
      ghost var s := State();
      var rest := recipients;
      while rest != []
        invariant Valid() && old(trace) <= trace
        invariant me in handlers && handlers[me] == Handler(event, template, rest, AtRecipient)
        invariant forall r | r in rest :: r in recipients
        invariant HandledUpTo(f, me, event, template, recipients, rest, s, State())
        decreases |rest|
      {
        ghost var mid := State();
        var recipient := rest[0];
        DispatchOne(me, Key(event, template, recipient), f);
        if !f.inserts(recipient) {
          LeftAtFailure(f, me, event, template, recipients, rest, s, mid, State());
          return false;
        }
        OneMoreHandled(f, me, event, template, recipients, rest, s, mid, State());
        rest := rest[1..];
      }
      return true;
    }

    /** The e-mails of a payment event: to the customer and the merchant, once if they are the same person. Each of them
        has a row in the end, and one that had none has been sent to, if nothing interfered; otherwise it has been sent
        to by this handler, or another one inserted the row. */
    method NotifyParties(ghost me: Id, event: string, template: string, customer: string, merchant: string, f: Fate)
      returns (ok: bool)
      requires Valid() && me !in handlers
      modifies this
      ensures Valid() && old(trace) <= trace
      ensures forall key :: Count(sends, key) <= 1
      ensures (forall r :: f.inserts(r)) ==> ok
      ensures ok && Normalize(customer) != "" ==> PartyNotified(f, me, event, template, customer, old(State()), State())
      ensures ok && Normalize(merchant) != "" ==> PartyNotified(f, me, event, template, merchant, old(State()), State())
    {
      var addresses := [customer, merchant];
      var recipients := UniqueEmails(addresses);
      ghost var s := State();
      DeliverMessage(me, event, template, recipients);
      ok := Dispatch(me, event, template, recipients, f);
      RunKeepsInv(Start, trace);
      if ok && Normalize(customer) != "" { PartyIsNotified(f, me, event, template, addresses, 0, s, State()); }
      if ok && Normalize(merchant) != "" { PartyIsNotified(f, me, event, template, addresses, 1, s, State()); }
    }
  }
}
