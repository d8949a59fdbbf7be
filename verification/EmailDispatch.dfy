/** Dispatching one event's e-mails (internal/platform/workers/email_dispatcher.go) by reservation on the unique key
    (event, template, recipient). Any number of handlers run at once, for the same event or different ones, and any of
    them may stop half-way. */
module EmailDispatch {
  import Sums
  import opened Email

  datatype Key = Key(event: string, template: string, recipient: string)

  datatype Status = Pending | Sent | Failed

  datatype Notification = Notification(status: Status, attempts: nat)

  datatype Phase = AtRecipient | Reserved | Answered(ok: bool)

  /** `recipients` are those still to handle; the phase concerns the first of them. */
  datatype Handler = Handler(event: string, template: string, recipients: seq<string>, phase: Phase)

  /** One call of the sender, the handler that made it, and whether the sender accepted the message. */
  datatype Call = Call(key: Key, caller: Id, ok: bool)

  /** `sends` is every call of the sender, in order; `reservedBy` remembers which handler inserted a row. */
  datatype Sys = Sys(notifications: map<Key, Notification>, handlers: map<Id, Handler>, sends: seq<Call>,
                     reservedBy: map<Key, Id>)

  const Start := Sys(map[], map[], [], map[])

  datatype Action =
    | Deliver(handler: Id, event: string, template: string, recipients: seq<string>)
    | Reserve(handler: Id, ok: bool)
    | Send(handler: Id, ok: bool)
    | Mark(handler: Id, ok: bool)
    | Stop(handler: Id)

  predicate Busy(h: Handler) {
    h.recipients != []
  }

  function Current(h: Handler): Key
    requires Busy(h)
  {
    Key(h.event, h.template, h.recipients[0])
  }

  function Advance(h: Handler): Handler
    requires Busy(h)
  {
    h.(recipients := h.recipients[1..], phase := AtRecipient)
  }

  function Marked(n: Notification, ok: bool): Notification {
    Notification(if ok then Sent else Failed, n.attempts + 1)
  }

  function Step(s: Sys, a: Action): Sys {
    if a.Deliver? then
      if a.handler in s.handlers then s
      else s.(handlers := s.handlers[a.handler := Handler(a.event, a.template, a.recipients, AtRecipient)])
    else if a.handler !in s.handlers then s
    else
      var h := s.handlers[a.handler];
      match a
      case Reserve(id, ok) =>
        if !Busy(h) || h.phase != AtRecipient then s
        else if !ok then s.(handlers := s.handlers - {id})
        else if Current(h) in s.notifications then s.(handlers := s.handlers[id := Advance(h)])
        else s.(notifications := s.notifications[Current(h) := Notification(Pending, 0)],
                handlers := s.handlers[id := h.(phase := Reserved)],
                reservedBy := s.reservedBy[Current(h) := id])
      case Send(id, ok) =>
        if !Busy(h) || h.phase != Reserved then s
        else s.(sends := s.sends + [Call(Current(h), id, ok)], handlers := s.handlers[id := h.(phase := Answered(ok))])
      case Mark(id, ok) =>
        if !Busy(h) || !h.phase.Answered? then s
        else
          var advanced := s.(handlers := s.handlers[id := Advance(h)]);
          if ok && Current(h) in s.notifications then
            var marked := Marked(s.notifications[Current(h)], h.phase.ok);
            advanced.(notifications := s.notifications[Current(h) := marked])
          else advanced
      case Stop(id) => s.(handlers := s.handlers - {id})
  }

  function Run(s: Sys, actions: seq<Action>): Sys {
    if actions == [] then s else Step(Run(s, actions[..|actions| - 1]), actions[|actions| - 1])
  }

  /** How often the sender was called for a key. */
  function Count(sends: seq<Call>, key: Key): nat {
    if sends == [] then 0 else Count(sends[..|sends| - 1], key) + if sends[|sends| - 1].key == key then 1 else 0
  }

  /** The sender accepted a message for the key. */
  predicate Accepted(sends: seq<Call>, key: Key) {
    exists c | c in sends :: c.key == key && c.ok
  }

  lemma CallAppend(sends: seq<Call>, c: Call, key: Key)
    ensures Count(sends + [c], key) == Count(sends, key) + if c.key == key then 1 else 0
    ensures Accepted(sends + [c], key) <==> Accepted(sends, key) || (c.key == key && c.ok)
  {
    assert (sends + [c])[..|sends|] == sends;
    assert forall d :: d in sends + [c] <==> d in sends || d == c;
  }

  /** The handler holds the key: it reserved it and has not finished with it. */
  predicate Holds(h: Handler, key: Key) {
    Busy(h) && h.phase != AtRecipient && Current(h) == key
  }

  /** What the sender has been asked and has answered for a row in some state of handling. */
  ghost predicate RowInv(s: Sys, k: Key)
    requires k in s.notifications
  {
    && s.notifications[k].attempts == (if s.notifications[k].status == Pending then 0 else 1)
    && (s.notifications[k].status != Pending ==>
          Count(s.sends, k) == 1 && (Accepted(s.sends, k) <==> s.notifications[k].status == Sent))
  }

  ghost predicate HolderInv(s: Sys, h: Handler, k: Key) {
    && k in s.notifications && s.notifications[k] == Notification(Pending, 0)
    && Count(s.sends, k) == (if h.phase == Reserved then 0 else 1)
    && (Accepted(s.sends, k) <==> h.phase == Answered(true))
  }

  ghost predicate Inv(s: Sys) {
    && s.reservedBy.Keys == s.notifications.Keys
    && (forall i, j, k | i in s.handlers && j in s.handlers && Holds(s.handlers[i], k) && Holds(s.handlers[j], k) ::
          i == j)
    && (forall i, k | i in s.handlers && Holds(s.handlers[i], k) :: HolderInv(s, s.handlers[i], k))
    && (forall k :: Count(s.sends, k) <= if k in s.notifications then 1 else 0)
    && (forall k | Count(s.sends, k) == 0 :: !Accepted(s.sends, k))
    && (forall k | k in s.notifications :: RowInv(s, k))
  }

  /** The call concerns its own key only. */
  lemma SentCounts(s: Sys, id: Id, ok: bool)
    requires id in s.handlers && Busy(s.handlers[id]) && s.handlers[id].phase == Reserved
    ensures var s', key := Step(s, Send(id, ok)), Current(s.handlers[id]);
      && (forall k :: Count(s'.sends, k) == Count(s.sends, k) + if k == key then 1 else 0)
      && (forall k :: Accepted(s'.sends, k) <==> Accepted(s.sends, k) || (k == key && ok))
  {
    var key := Current(s.handlers[id]);
    forall k
      ensures Count(s.sends + [Call(key, id, ok)], k) == Count(s.sends, k) + if k == key then 1 else 0
      ensures Accepted(s.sends + [Call(key, id, ok)], k) <==> Accepted(s.sends, k) || (k == key && ok)
    {
      CallAppend(s.sends, Call(key, id, ok), k);
    }
  }

  lemma SendKeepsInv(s: Sys, a: Action)
    requires Inv(s) && a.Send?
    ensures Inv(Step(s, a))
  {
    if a.handler in s.handlers && Busy(s.handlers[a.handler]) && s.handlers[a.handler].phase == Reserved {
      var h, s' := s.handlers[a.handler], Step(s, a);
      SentCounts(s, a.handler, a.ok);
      assert Holds(h, Current(h)) && HolderInv(s, h, Current(h));
      forall i, k | i in s'.handlers ensures Holds(s'.handlers[i], k) <==> Holds(s.handlers[i], k) {}
      forall i, k | i in s'.handlers && Holds(s'.handlers[i], k) ensures HolderInv(s', s'.handlers[i], k) {
        assert HolderInv(s, s.handlers[i], k) && (i == a.handler <==> k == Current(h));
      }
      forall k | k in s'.notifications ensures RowInv(s', k) {
        assert RowInv(s, k);
      }
    }
  }

  lemma ReservedKeepsInv(s: Sys, id: Id)
    requires Inv(s) && id in s.handlers && Busy(s.handlers[id]) && s.handlers[id].phase == AtRecipient
    requires Current(s.handlers[id]) !in s.notifications
    ensures Inv(Step(s, Reserve(id, true)))
  {
    var h, s' := s.handlers[id], Step(s, Reserve(id, true));
    forall i, k | i in s'.handlers
      ensures Holds(s'.handlers[i], k) <==> Holds(s.handlers[i], k) || (i == id && k == Current(h))
    {}
  }

  lemma ReserveKeepsInv(s: Sys, a: Action)
    requires Inv(s) && a.Reserve?
    ensures Inv(Step(s, a))
  {
    if a.handler in s.handlers && Busy(s.handlers[a.handler]) && s.handlers[a.handler].phase == AtRecipient {
      if a.ok && Current(s.handlers[a.handler]) !in s.notifications {
        ReservedKeepsInv(s, a.handler);
      } else {
        var s' := Step(s, a);
        forall i, k | i in s'.handlers ensures Holds(s'.handlers[i], k) <==> Holds(s.handlers[i], k) {}
      }
    }
  }

  lemma MarkedRow(s: Sys, id: Id, ok: bool)
    requires Inv(s) && id in s.handlers && Busy(s.handlers[id]) && s.handlers[id].phase.Answered?
    ensures forall k | k in Step(s, Mark(id, ok)).notifications :: RowInv(Step(s, Mark(id, ok)), k)
  {
    var h := s.handlers[id];
    assert Holds(h, Current(h)) && HolderInv(s, h, Current(h));
  }

  lemma MarkKeepsInv(s: Sys, a: Action)
    requires Inv(s) && a.Mark?
    ensures Inv(Step(s, a))
  {
    if a.handler in s.handlers && Busy(s.handlers[a.handler]) && s.handlers[a.handler].phase.Answered? {
      var h, s' := s.handlers[a.handler], Step(s, a);
      MarkedRow(s, a.handler, a.ok);
      assert Holds(h, Current(h));
      forall i, k | i in s'.handlers
        ensures Holds(s'.handlers[i], k) <==> Holds(s.handlers[i], k) && i != a.handler
      {}
      forall i, k | i in s'.handlers && Holds(s'.handlers[i], k) ensures HolderInv(s', s'.handlers[i], k) {
        assert HolderInv(s, s.handlers[i], k) && k != Current(h);
      }
    }
  }

  lemma StepKeepsInv(s: Sys, a: Action)
    requires Inv(s)
    ensures Inv(Step(s, a))
  {
    match a
    case Reserve(_, _) => ReserveKeepsInv(s, a);
    case Send(_, _) => SendKeepsInv(s, a);
    case Mark(_, _) => MarkKeepsInv(s, a);
    case _ =>
      var s' := Step(s, a);
      forall i, k | i in s'.handlers && Holds(s'.handlers[i], k) ensures i in s.handlers && Holds(s.handlers[i], k) {}
  }

  lemma {:induction false} RunKeepsInv(s: Sys, actions: seq<Action>)
    requires Inv(s)
    ensures Inv(Run(s, actions))
  {
    if actions != [] {
      RunKeepsInv(s, actions[..|actions| - 1]);
      StepKeepsInv(Run(s, actions[..|actions| - 1]), actions[|actions| - 1]);
    }
  }

  /** However deliveries are duplicated and interleaved, the sender is called at most once per key; and a row marked
      sent or failed was attempted exactly once, with that answer. */
  lemma SentAtMostOnce(actions: seq<Action>, key: Key)
    ensures var s := Run(Start, actions);
      && Count(s.sends, key) <= 1
      && (Count(s.sends, key) == 1 ==> key in s.notifications)
      && (key in s.notifications && s.notifications[key].status != Pending ==>
            && Count(s.sends, key) == 1 && s.notifications[key].attempts == 1
            && (Accepted(s.sends, key) <==> s.notifications[key].status == Sent))
  {
    RunKeepsInv(Start, actions);
  }

  // ---- Which e-mails still go out ----

  /** Somebody can still call the sender for the key: it has no row, or a live handler has reserved it. */
  ghost predicate Awaits(s: Sys, key: Key) {
    || key !in s.notifications
    || exists i :: i in s.handlers && Holds(s.handlers[i], key) && s.handlers[i].phase == Reserved
  }

  lemma SettledStep(s: Sys, a: Action, key: Key)
    requires !Awaits(s, key)
    ensures !Awaits(Step(s, a), key)
    ensures Accepted(Step(s, a).sends, key) <==> Accepted(s.sends, key)
  {
    var s' := Step(s, a);
    if a.Send? && a.handler in s.handlers && Busy(s.handlers[a.handler]) && s.handlers[a.handler].phase == Reserved {
      assert Holds(s.handlers[a.handler], Current(s.handlers[a.handler]));
      CallAppend(s.sends, Call(Current(s.handlers[a.handler]), a.handler, a.ok), key);
    }
    forall i | i in s'.handlers && Holds(s'.handlers[i], key) ensures s'.handlers[i].phase != Reserved {
      assert i in s.handlers;
    }
  }

  lemma {:induction false} SettledForever(s: Sys, actions: seq<Action>, key: Key)
    requires !Awaits(s, key)
    ensures !Awaits(Run(s, actions), key)
    ensures Accepted(Run(s, actions).sends, key) <==> Accepted(s.sends, key)
  {
    if actions != [] {
      SettledForever(s, actions[..|actions| - 1], key);
      SettledStep(Run(s, actions[..|actions| - 1]), actions[|actions| - 1], key);
    }
  }

  lemma {:induction false} RunConcat(s: Sys, first: seq<Action>, second: seq<Action>)
    ensures Run(s, first + second) == Run(Run(s, first), second)
  {
    if second == [] {
      assert first + second == first;
    } else {
      var n := |second| - 1;
      RunConcat(s, first, second[..n]);
      assert (first + second)[..|first + second| - 1] == first + second[..n];
    }
  }

  lemma RunOne(s: Sys, a: Action)
    ensures Run(s, [a]) == Step(s, a)
  {
    assert [a][..0] == [];
  }

  lemma RunThree(s: Sys, a: Action, b: Action, c: Action)
    ensures Run(s, [a, b, c]) == Step(Step(Step(s, a), b), c)
  {
    RunOne(s, a);
    RunOne(Step(s, a), b);
    RunOne(Step(Step(s, a), b), c);
    RunConcat(s, [a], [b]);
    RunConcat(s, [a] + [b], [c]);
    assert [a] + [b] + [c] == [a, b, c];
  }

  /** A key that a live handler has reserved can still be sent to. */
  lemma HolderSends(s: Sys, key: Key, id: Id)
    requires id in s.handlers && Holds(s.handlers[id], key) && s.handlers[id].phase == Reserved
    ensures exists actions :: Accepted(Run(s, actions).sends, key)
  {
    RunOne(s, Send(id, true));
    CallAppend(s.sends, Call(key, id, true), key);
    assert Accepted(Run(s, [Send(id, true)]).sends, key);
  }

  lemma DeliverAndReserve(s: Sys, key: Key, id: Id)
    requires id !in s.handlers && key !in s.notifications
    ensures var s' := Step(Step(s, Deliver(id, key.event, key.template, [key.recipient])), Reserve(id, true));
      id in s'.handlers && Holds(s'.handlers[id], key) && s'.handlers[id].phase == Reserved
  {
    assert Current(Step(s, Deliver(id, key.event, key.template, [key.recipient])).handlers[id]) == key;
  }

  /** What a state can still lead to, its predecessor can. */
  lemma AcceptedFromBefore(s: Sys, a: Action, key: Key)
    requires exists actions :: Accepted(Run(Step(s, a), actions).sends, key)
    ensures exists actions :: Accepted(Run(s, actions).sends, key)
  {
    var actions :| Accepted(Run(Step(s, a), actions).sends, key);
    RunOne(s, a);
    RunConcat(s, [a], actions);
    assert Accepted(Run(s, [a] + actions).sends, key);
  }

  /** So can a key without a row: by a new delivery. */
  lemma NewDeliverySends(s: Sys, key: Key)
    requires key !in s.notifications
    ensures exists actions :: Accepted(Run(s, actions).sends, key)
  {
    var id := Sums.Fresh(s.handlers.Keys);
    var deliver := Deliver(id, key.event, key.template, [key.recipient]);
    DeliverAndReserve(s, key, id);
    HolderSends(Step(Step(s, deliver), Reserve(id, true)), key, id);
    AcceptedFromBefore(Step(s, deliver), Reserve(id, true), key);
    AcceptedFromBefore(s, deliver, key);
  }

  lemma AwaitedCanBeSent(s: Sys, key: Key)
    requires Awaits(s, key)
    ensures exists actions :: Accepted(Run(s, actions).sends, key)
  {
    if key !in s.notifications {
      NewDeliverySends(s, key);
    } else {
      var id :| id in s.handlers && Holds(s.handlers[id], key) && s.handlers[id].phase == Reserved;
      HolderSends(s, key, id);
    }
  }

  /** In every reachable state: an e-mail has been accepted by the sender or still can be, exactly when it has been
      accepted or somebody can still call the sender for it. Otherwise no delivery ever brings it back. */
  lemma DeliverableIff(before: seq<Action>, key: Key)
    ensures (exists after :: Accepted(Run(Start, before + after).sends, key))
            <==> Accepted(Run(Start, before).sends, key) || Awaits(Run(Start, before), key)
  {
    var s := Run(Start, before);
    if after :| Accepted(Run(Start, before + after).sends, key) {
      RunConcat(Start, before, after);
      if !Awaits(s, key) { SettledForever(s, after, key); }
    }
    if Accepted(s.sends, key) {
      assert before + [] == before;
      assert Accepted(Run(Start, before + []).sends, key);
    } else if Awaits(s, key) {
      AwaitedCanBeSent(s, key);
      var after :| Accepted(Run(s, after).sends, key);
      RunConcat(Start, before, after);
      assert Accepted(Run(Start, before + after).sends, key);
    }
  }

  /** The row exists, the sender was never called, and no live handler holds it. */
  ghost predicate Abandoned(s: Sys, key: Key) {
    && key in s.notifications && Count(s.sends, key) == 0
    && forall i | i in s.handlers :: !Holds(s.handlers[i], key)
  }

  /** The only call for the key was answered with an error. */
  ghost predicate Refused(s: Sys, key: Key) {
    Count(s.sends, key) == 1 && !Accepted(s.sends, key)
  }

  /** So an e-mail is lost in exactly two ways: its handler stopped between reserving and
      sending, or its send failed. */
  lemma LostIff(before: seq<Action>, key: Key)
    ensures (forall after :: !Accepted(Run(Start, before + after).sends, key))
            <==> Abandoned(Run(Start, before), key) || Refused(Run(Start, before), key)
  {
    var s := Run(Start, before);
    RunKeepsInv(Start, before);
    DeliverableIff(before, key);
    if !Accepted(s.sends, key) && !Awaits(s, key) && Count(s.sends, key) == 0 {
      forall i | i in s.handlers ensures !Holds(s.handlers[i], key) {
        assert Holds(s.handlers[i], key) ==> HolderInv(s, s.handlers[i], key);
      }
    }
    if i :| i in s.handlers && Holds(s.handlers[i], key) { assert HolderInv(s, s.handlers[i], key); }
  }

  /** The first happens: any e-mail is lost when its handler stops right after reserving it. */
  lemma StoppedAfterReserving(key: Key)
    ensures var s := Run(Start, [Deliver(0, key.event, key.template, [key.recipient]), Reserve(0, true), Stop(0)]);
      Abandoned(s, key)
  {
    RunThree(Start, Deliver(0, key.event, key.template, [key.recipient]), Reserve(0, true), Stop(0));
    var delivered := Step(Start, Deliver(0, key.event, key.template, [key.recipient]));
    assert Current(delivered.handlers[0]) == key;
  }

  /** So does the second: the sender fails once, the row is marked failed, and that is final, although no handler
      stopped. */
  lemma FailedSendIsFinal(key: Key, after: seq<Action>)
    ensures var deliver := Deliver(0, key.event, key.template, [key.recipient]);
      var s := Run(Start, [deliver, Reserve(0, true), Send(0, false)]);
      && Refused(s, key) && 0 in s.handlers
      && Step(s, Mark(0, true)).notifications == map[key := Notification(Failed, 1)]
      && !Accepted(Run(Step(s, Mark(0, true)), after).sends, key)
  {
    var deliver := Deliver(0, key.event, key.template, [key.recipient]);
    RunThree(Start, deliver, Reserve(0, true), Send(0, false));
    var s := Run(Start, [deliver, Reserve(0, true), Send(0, false)]);
    assert Current(Step(Start, deliver).handlers[0]) == key;
    CallAppend([], Call(key, 0, false), key);
    SettledForever(Step(s, Mark(0, true)), after, key);
  }
}
