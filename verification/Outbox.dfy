/** The transactional outbox relay (internal/platform/workers/outbox_relay.go): at-least-once publication with
    whole-batch rollback. */
module Outbox {
  import Sums
  import opened Text

  type Id = int

  datatype Status = Pending | Published | Failed

  datatype Entry = Entry(eventType: string, payload: string, createdAt: int,
                         status: Status, retries: nat, availableAt: int)

  /** A message on the bus; `id` is the event it was made from. */
  datatype Message = Message(id: Id, subject: string, payload: string)

  type Entries = map<Id, Entry>

  const LIMIT := 100

  function MessageFor(id: Id, e: Entry): Message {
    Message(id, "events." + Trim(e.eventType), e.payload)
  }

  predicate Relayable(entries: Entries, now: int, id: Id) {
    id in entries && entries[id].status != Published && entries[id].availableAt <= now
  }

  /** What the locking query may return: some relayable entries, oldest first, at most a hundred. */
  predicate Batch(entries: Entries, now: int, batch: seq<Id>) {
    && |batch| <= LIMIT
    && (forall id | id in batch :: Relayable(entries, now, id))
    && (forall i, j | 0 <= i < j < |batch| ::
          batch[i] != batch[j] && (batch[j] in entries && batch[i] in entries ==>
            entries[batch[i]].createdAt <= entries[batch[j]].createdAt))
  }

  /** The bus accepts the message; the UPDATE that follows succeeds. */
  datatype Answer = Answer(sent: bool, written: bool)

  /** The transaction in progress. Once a statement fails every later one does; after a failed "mark published" the
      loop is left. `failed` counts the publish failures written in this transaction. */
  datatype Progress = Progress(entries: Entries, bus: seq<Message>, failed: multiset<Id>, aborted: bool, stopped: bool)

  function MarkFailed(e: Entry, now: int): Entry {
    e.(status := Failed, retries := e.retries + 1, availableAt := now + (e.retries + 1) * 2)
  }

  function Publish(p: Progress, now: int, id: Id, answer: Answer): Progress
    requires id in p.entries
  {
    if p.stopped then p
    else
      var works := answer.written && !p.aborted;
      if !answer.sent then
        if works then p.(entries := p.entries[id := MarkFailed(p.entries[id], now)], failed := p.failed + multiset{id})
        else p.(aborted := true)
      else
        var sent := p.(bus := p.bus + [MessageFor(id, p.entries[id])]);
        if works then sent.(entries := p.entries[id := p.entries[id].(status := Published)])
        else sent.(aborted := true, stopped := true)
  }

  function PublishAll(entries: Entries, bus: seq<Message>, now: int, batch: seq<Id>, answers: seq<Answer>)
    : (p: Progress)
    requires |answers| == |batch| && forall id | id in batch :: id in entries
    ensures p.entries.Keys == entries.Keys
  {
    if batch == [] then Progress(entries, bus, multiset{}, false, false) else
      var n := |batch| - 1;
      Publish(PublishAll(entries, bus, now, batch[..n], answers[..n]), now, batch[n], answers[n])
  }

  /** `rolledBack` counts, per event, the batches containing it that were rolled back; `failures` the publish failures
      that were committed. */
  datatype Sys = Sys(entries: Entries, bus: seq<Message>, rolledBack: multiset<Id>, failures: multiset<Id>)

  const Start := Sys(map[], [], multiset{}, multiset{})

  datatype Action =
    | Enqueue(id: Id, eventType: string, payload: string, now: int)
    | Relay(now: int, batch: seq<Id>, answers: seq<Answer>, commits: bool)

  /** What the transaction and its commit, or rollback, leave. */
  function Ended(s: Sys, p: Progress, batch: seq<Id>, commits: bool): Sys {
    if commits && !p.aborted then Sys(p.entries, p.bus, s.rolledBack, s.failures + p.failed)
    else s.(bus := p.bus, rolledBack := s.rolledBack + multiset(batch))
  }

  function Step(s: Sys, a: Action): Sys {
    match a
    case Enqueue(id, eventType, payload, now) =>
      if id in s.entries then s
      else s.(entries := s.entries[id := Entry(eventType, payload, now, Pending, 0, now)])
    case Relay(now, batch, answers, commits) =>
      if !Batch(s.entries, now, batch) || |answers| != |batch| then s
      else Ended(s, PublishAll(s.entries, s.bus, now, batch, answers), batch, commits)
  }

  function Run(s: Sys, actions: seq<Action>): Sys {
    if actions == [] then s else Step(Run(s, actions[..|actions| - 1]), actions[|actions| - 1])
  }

  // ---- Counting copies ----

  function Copies(bus: seq<Message>, id: Id): nat {
    if bus == [] then 0 else Copies(bus[..|bus| - 1], id) + if bus[|bus| - 1].id == id then 1 else 0
  }

  lemma CopiesAppend(bus: seq<Message>, m: Message, id: Id)
    ensures Copies(bus + [m], id) == Copies(bus, id) + if m.id == id then 1 else 0
  {
    assert (bus + [m])[..|bus|] == bus;
  }

  ghost predicate SameEvent(e: Entry, f: Entry) {
    e.eventType == f.eventType && e.payload == f.payload && e.createdAt == f.createdAt
  }

  /** What became of one event of the batch when no statement failed: published once, or a failure was written. */
  ghost predicate Handled(before: Entries, bus: seq<Message>, p: Progress, now: int, id: Id)
    requires id in before && id in p.entries
  {
    || (&& p.entries[id] == before[id].(status := Published)
        && Copies(p.bus, id) == Copies(bus, id) + 1 && p.failed[id] == 0)
    || (&& p.entries[id] == MarkFailed(before[id], now)
        && Copies(p.bus, id) == Copies(bus, id) && p.failed[id] == 1)
  }

  ghost predicate Untouched(before: Entries, bus: seq<Message>, p: Progress, id: Id) {
    && (id in before ==> id in p.entries && p.entries[id] == before[id])
    && Copies(p.bus, id) == Copies(bus, id) && p.failed[id] == 0
  }

  ghost predicate BatchOutcome(before: Entries, bus: seq<Message>, now: int, batch: seq<Id>, p: Progress) {
    && p.entries.Keys == before.Keys
    && bus <= p.bus
    && (p.stopped ==> p.aborted)
    && (forall id | id !in batch :: Untouched(before, bus, p, id))
    && (forall id | id in batch && id in before ::
          && SameEvent(p.entries[id], before[id])
          && Copies(p.bus, id) <= Copies(bus, id) + 1
          && (!p.aborted ==> Handled(before, bus, p, now, id)))
    && (forall m | m in p.bus :: m in bus || (m.id in before && m == MessageFor(m.id, before[m.id])))
  }

  /** Publishing one event concerns no other. */
  lemma PublishOthers(p: Progress, now: int, id: Id, answer: Answer, k: Id)
    requires id in p.entries && k != id
    ensures var q := Publish(p, now, id, answer);
      && (k in p.entries ==> q.entries[k] == p.entries[k])
      && Copies(q.bus, k) == Copies(p.bus, k) && q.failed[k] == p.failed[k]
  {
    CopiesAppend(p.bus, MessageFor(id, p.entries[id]), k);
  }

  lemma PublishThis(before: Entries, bus: seq<Message>, now: int, p: Progress, id: Id, answer: Answer)
    requires id in before && Untouched(before, bus, p, id) && (p.stopped ==> p.aborted)
    ensures var q := Publish(p, now, id, answer);
      && id in q.entries && SameEvent(q.entries[id], before[id])
      && Copies(q.bus, id) <= Copies(bus, id) + 1
      && (!q.aborted ==> !p.aborted && Handled(before, bus, q, now, id))
  {
    CopiesAppend(p.bus, MessageFor(id, p.entries[id]), id);
  }

  lemma PublishOne(before: Entries, bus: seq<Message>, now: int, done: seq<Id>, p: Progress, id: Id, answer: Answer)
    requires BatchOutcome(before, bus, now, done, p) && id in before && id !in done
    ensures BatchOutcome(before, bus, now, done + [id], Publish(p, now, id, answer))
  {
    var q := Publish(p, now, id, answer);
    assert Untouched(before, bus, p, id);
    PublishThis(before, bus, now, p, id, answer);
    forall k | k != id { PublishOthers(p, now, id, answer, k); }
    forall k | k !in done + [id] ensures Untouched(before, bus, q, k) {
      assert k !in done && k != id;
      assert Untouched(before, bus, p, k);
    }
    forall k | k in done + [id] && k in before
      ensures SameEvent(q.entries[k], before[k])
      ensures Copies(q.bus, k) <= Copies(bus, k) + 1
      ensures !q.aborted ==> Handled(before, bus, q, now, k)
    {
      if k != id {
        assert k in done;
        PublishOthers(p, now, id, answer, k);
      }
    }
  }

  lemma {:induction false} PublishAllOutcome(entries: Entries, bus: seq<Message>, now: int, batch: seq<Id>,
                                             answers: seq<Answer>)
    requires |answers| == |batch| && Batch(entries, now, batch)
    ensures BatchOutcome(entries, bus, now, batch, PublishAll(entries, bus, now, batch, answers))
  {
    if batch != [] {
      var n := |batch| - 1;
      PublishAllOutcome(entries, bus, now, batch[..n], answers[..n]);
      assert batch[n] in batch;
      PublishOne(entries, bus, now, batch[..n], PublishAll(entries, bus, now, batch[..n], answers[..n]),
                 batch[n], answers[n]);
      assert batch[..n] + [batch[n]] == batch;
    }
  }

  // ---- The guarantees ----

  ghost predicate Inv(s: Sys) {
    && (forall m | m in s.bus :: m.id in s.entries && m == MessageFor(m.id, s.entries[m.id]))
    && (forall id | id in s.entries ::
          && s.entries[id].retries == s.failures[id]
          && (s.entries[id].status == Published ==> 1 <= Copies(s.bus, id))
          && Copies(s.bus, id) <= (if s.entries[id].status == Published then 1 else 0) + s.rolledBack[id])
    && (forall id | id !in s.entries :: s.failures[id] == 0 && s.rolledBack[id] == 0 && Copies(s.bus, id) == 0)
  }

  /** What one step preserves of the entries that exist. */
  ghost predicate Preserves(s: Sys, s': Sys) {
    forall id | id in s.entries ::
      && id in s'.entries
      && SameEvent(s'.entries[id], s.entries[id])
      && (s.entries[id].status == Published ==>
            s'.entries[id] == s.entries[id] && Copies(s'.bus, id) == Copies(s.bus, id))
  }

  lemma {:induction false} BatchMultiset(batch: seq<Id>, id: Id)
    requires forall i, j | 0 <= i < j < |batch| :: batch[i] != batch[j]
    ensures multiset(batch)[id] == if id in batch then 1 else 0
  {
    if batch != [] {
      var n := |batch| - 1;
      BatchMultiset(batch[..n], id);
      assert batch == batch[..n] + [batch[n]];
    }
  }

  lemma RelayKeepsInv(s: Sys, a: Action)
    requires Inv(s) && a.Relay? && Batch(s.entries, a.now, a.batch) && |a.answers| == |a.batch|
    ensures Inv(Step(s, a)) && Preserves(s, Step(s, a))
  {
    var p := PublishAll(s.entries, s.bus, a.now, a.batch, a.answers);
    var s' := Step(s, a);
    PublishAllOutcome(s.entries, s.bus, a.now, a.batch, a.answers);
    forall id {  BatchMultiset(a.batch, id); }
    forall id | id in s.entries
      ensures SameEvent(s'.entries[id], s.entries[id])
      ensures s.entries[id].status == Published ==>
        s'.entries[id] == s.entries[id] && Copies(s'.bus, id) == Copies(s.bus, id)
      ensures s'.entries[id].retries == s'.failures[id]
      ensures s'.entries[id].status == Published ==> 1 <= Copies(s'.bus, id)
      ensures Copies(s'.bus, id) <= (if s'.entries[id].status == Published then 1 else 0) + s'.rolledBack[id]
    {
      if id in a.batch {
        assert Relayable(s.entries, a.now, id);
      } else {
        assert Untouched(s.entries, s.bus, p, id);
      }
    }
    forall id | id !in s.entries
      ensures s'.failures[id] == 0 && s'.rolledBack[id] == 0 && Copies(s'.bus, id) == 0
    {
      assert id !in a.batch;
      assert Untouched(s.entries, s.bus, p, id);
    }
    forall m | m in s'.bus ensures m.id in s'.entries && m == MessageFor(m.id, s'.entries[m.id]) {
      assert m in p.bus;
    }
  }

  lemma StepKeepsInv(s: Sys, a: Action)
    requires Inv(s)
    ensures Inv(Step(s, a)) && Preserves(s, Step(s, a))
  {
    if a.Relay? && Batch(s.entries, a.now, a.batch) && |a.answers| == |a.batch| {
      RelayKeepsInv(s, a);
    }
  }

  lemma {:induction false} RunKeepsInv(s: Sys, actions: seq<Action>)
    requires Inv(s)
    ensures Inv(Run(s, actions)) && Preserves(s, Run(s, actions))
  {
    if actions != [] {
      RunKeepsInv(s, actions[..|actions| - 1]);
      StepKeepsInv(Run(s, actions[..|actions| - 1]), actions[|actions| - 1]);
    }
  }

  lemma {:induction false} CopyWitness(bus: seq<Message>, id: Id)
    requires Copies(bus, id) > 0
    ensures exists m :: m in bus && m.id == id
  {
    var n := |bus| - 1;
    if bus[n].id == id {
      assert bus[n] in bus;
    } else {
      CopyWitness(bus[..n], id);
      var m :| m in bus[..n] && m.id == id;
      assert m in bus;
    }
  }

  /** The message goes to the entry's own subject and carries its own payload. */
  predicate Carries(m: Message, e: Entry) {
    m.subject == "events." + Trim(e.eventType) && m.payload == e.payload
  }

  /** Over any run, with batches rolled back after any prefix: no entry is lost or altered; a published entry was put
      on the bus, and whatever was put on the bus for an entry went to its subject with its payload; there are at most
      as many copies as one plus the rolled-back batches that contained it; and retry_count is the number of publish
      failures that were committed. */
  lemma RelayGuarantees(actions: seq<Action>, id: Id)
    requires id in Run(Start, actions).entries
    ensures var s := Run(Start, actions); var e := s.entries[id];
      && (e.status == Published ==> exists m :: m in s.bus && m.id == id)
      && (forall m | m in s.bus && m.id == id ::
            m.subject == "events." + Trim(e.eventType) && m.payload == e.payload)
      && Copies(s.bus, id) <= (if e.status == Published then 1 else 0) + s.rolledBack[id]
      && e.retries == s.failures[id]
  {
    RunKeepsInv(Start, actions);
    var s := Run(Start, actions);
    if s.entries[id].status == Published {
      CopyWitness(s.bus, id);
    }
  }

  /** For instance a payment.confirmed event that is enqueued, relayed and committed. */
  lemma ConfirmedEventIsRelayed()
    ensures var s := Run(Start, [Enqueue(7, "payment.confirmed", "{\"id\":1}", 0),
                                 Relay(0, [7], [Answer(true, true)], true)]);
      && s.bus == [Message(7, "events.payment.confirmed", "{\"id\":1}")]
      && s.entries == map[7 := Entry("payment.confirmed", "{\"id\":1}", 0, Published, 0, 0)]
  {
    var enqueue, relay := Enqueue(7, "payment.confirmed", "{\"id\":1}", 0), Relay(0, [7], [Answer(true, true)], true);
    assert [enqueue, relay][..1] == [enqueue] && [enqueue][..0] == [];
    var s := Step(Start, enqueue);
    assert [7][..0] == [] && Batch(s.entries, 0, [7]);
    TrimIdentity("payment.confirmed");
    assert "events." + "payment.confirmed" == "events.payment.confirmed";
    assert PublishAll(s.entries, [], 0, [], []) == Progress(s.entries, [], multiset{}, false, false);
    assert [Answer(true, true)][..0] == [];
  }

  /** Once an entry is committed as published it is never put on the bus again, and no entry ever disappears. */
  lemma PublishedIsFinal(before: seq<Action>, after: seq<Action>, id: Id)
    requires id in Run(Start, before).entries
    ensures var s, s' := Run(Start, before), Run(Run(Start, before), after);
      && id in s'.entries
      && SameEvent(s'.entries[id], s.entries[id])
      && (s.entries[id].status == Published ==>
            s'.entries[id] == s.entries[id] && Copies(s'.bus, id) == Copies(s.bus, id))
  {
    RunKeepsInv(Start, before);
    RunKeepsInv(Run(Start, before), after);
  }

  // ---- The worker ----

  /** What the pass did with a batch that was committed: each event was sent or not, as the bus answered, and its row
      says so; no other row changed. */
  ghost predicate BatchWritten(before: Entries, after: Entries, now: int, batch: seq<Id>, sends: Id -> bool) {
    && after.Keys == before.Keys
    && (forall id | id in before && id !in batch :: after[id] == before[id])
    && forall id | id in before && id in batch ::
         after[id] == if sends(id) then before[id].(status := Published)
                      else before[id].(status := Failed, retries := before[id].retries + 1,
                                       availableAt := now + 2 * (before[id].retries + 1))
  }

  /** The statements for the events in `done`: the transaction is aborted exactly when an UPDATE failed; if it is not,
      the rows are written; and each new message on the bus is one that the bus accepted, of an event of the batch. */
  ghost predicate WrittenSoFar(before: Entries, bus: seq<Message>, now: int, done: seq<Id>, p: Progress,
                               sends: Id -> bool, writes: Id -> bool)
  {
    && p.entries.Keys == before.Keys
    && (p.stopped ==> p.aborted)
    && (p.aborted <==> exists id :: id in done && !writes(id))
    && (forall id | id in before && id !in done :: p.entries[id] == before[id])
    && (!p.aborted ==> BatchWritten(before, p.entries, now, done, sends))
    && NewMessages(before, bus, p.bus, done, sends)
  }

  ghost predicate NewMessages(before: Entries, bus: seq<Message>, bus': seq<Message>, batch: seq<Id>,
                              sends: Id -> bool)
  {
    && bus <= bus'
    && forall n | |bus| <= n < |bus'| ::
         bus'[n].id in batch && sends(bus'[n].id) && bus'[n].id in before && Carries(bus'[n], before[bus'[n].id])
  }

  lemma WriteOneMore(before: Entries, bus: seq<Message>, now: int, done: seq<Id>, p: Progress, id: Id,
                     sends: Id -> bool, writes: Id -> bool)
    requires WrittenSoFar(before, bus, now, done, p, sends, writes) && id in before && id !in done
    ensures WrittenSoFar(before, bus, now, done + [id], Publish(p, now, id, Answer(sends(id), writes(id))),
                         sends, writes)
  {
    var q := Publish(p, now, id, Answer(sends(id), writes(id)));
    assert forall k :: k in done + [id] <==> k in done || k == id;
    assert !q.aborted ==> !p.aborted && writes(id);
  }

  lemma PublishLast(entries: Entries, bus: seq<Message>, now: int, init: seq<Id>, id: Id,
                    sends: Id -> bool, writes: Id -> bool)
    requires id in entries && forall k | k in init :: k in entries
    ensures forall k | k in init + [id] :: k in entries
    ensures PublishAll(entries, bus, now, init + [id], Answers(init + [id], sends, writes))
            == Publish(PublishAll(entries, bus, now, init, Answers(init, sends, writes)), now, id,
                       Answer(sends(id), writes(id)))
  {
    assert (init + [id])[..|init|] == init;
    assert Answers(init + [id], sends, writes)[..|init|] == Answers(init, sends, writes);
  }

  lemma {:induction false} PublishAllWrites(entries: Entries, bus: seq<Message>, now: int, batch: seq<Id>,
                                            sends: Id -> bool, writes: Id -> bool)
    requires forall id | id in batch :: id in entries
    requires forall i, j | 0 <= i < j < |batch| :: batch[i] != batch[j]
    ensures WrittenSoFar(entries, bus, now, batch, PublishAll(entries, bus, now, batch, Answers(batch, sends, writes)),
                         sends, writes)
  {
    if batch != [] {
      var init, id := batch[..|batch| - 1], batch[|batch| - 1];
      assert batch == init + [id];
      PublishAllWrites(entries, bus, now, init, sends, writes);
      PublishLast(entries, bus, now, init, id, sends, writes);
      WriteOneMore(entries, bus, now, init, PublishAll(entries, bus, now, init, Answers(init, sends, writes)), id,
                   sends, writes);
    }
  }

  /** The batch is the oldest hundred, or all, of the rows that are pending or failed, available and not locked; it is
      in order of age. */
  ghost predicate BatchChosen(entries: Entries, now: int, locked: set<Id>, batch: seq<Id>) {
    && |batch| <= 100
    && (forall i, j | 0 <= i < j < |batch| :: batch[i] != batch[j])
    && (forall id | id in batch ::
          id in entries && id !in locked && entries[id].status in {Pending, Failed} && entries[id].availableAt <= now)
    && (forall i, j | 0 <= i < j < |batch| :: batch[j] in entries && batch[i] in entries ==>
          entries[batch[i]].createdAt <= entries[batch[j]].createdAt)
    && forall id | id in entries && id !in locked && entries[id].status in {Pending, Failed}
                   && entries[id].availableAt <= now && id !in batch ::
         |batch| == 100 && forall b | b in batch && b in entries :: entries[b].createdAt <= entries[id].createdAt
  }

  /** The outcome of a pass over the batch. Only events that the bus accepted were put on it, each at most once. If all
      UPDATEs and the commit went through, each of those was, and the rows say what happened; otherwise they stay as
      they were. */
  ghost predicate Relayed(s: Sys, s': Sys, now: int, batch: seq<Id>, sends: Id -> bool, committed: bool) {
    && NewMessages(s.entries, s.bus, s'.bus, batch, sends)
    && (forall id :: Copies(s'.bus, id) <= Copies(s.bus, id) + 1)
    && if committed then
         && BatchWritten(s.entries, s'.entries, now, batch, sends)
         && forall id | id in batch && sends(id) :: Copies(s'.bus, id) == Copies(s.bus, id) + 1
       else
         s'.entries == s.entries
  }

  lemma CopiesOfBatch(before: Entries, bus: seq<Message>, now: int, batch: seq<Id>, p: Progress, sends: Id -> bool)
    requires BatchOutcome(before, bus, now, batch, p) && forall id | id in batch :: id in before
    requires !p.aborted ==> BatchWritten(before, p.entries, now, batch, sends)
    ensures forall id :: Copies(p.bus, id) <= Copies(bus, id) + 1
    ensures !p.aborted ==> forall id | id in batch && sends(id) :: Copies(p.bus, id) == Copies(bus, id) + 1
  {
    forall id ensures Copies(p.bus, id) <= Copies(bus, id) + 1 {
      if id !in batch { assert Untouched(before, bus, p, id); }
    }
    if !p.aborted {
      forall id | id in batch && sends(id) ensures Copies(p.bus, id) == Copies(bus, id) + 1 {
        assert Handled(before, bus, p, now, id);
      }
    }
  }

  lemma EndedRelayed(s: Sys, p: Progress, now: int, batch: seq<Id>, sends: Id -> bool, writes: Id -> bool,
                     commits: bool)
    requires WrittenSoFar(s.entries, s.bus, now, batch, p, sends, writes)
    requires BatchOutcome(s.entries, s.bus, now, batch, p) && forall id | id in batch :: id in s.entries
    ensures Relayed(s, Ended(s, p, batch, commits), now, batch, sends, commits && AllWritten(batch, writes))
  {
    CopiesOfBatch(s.entries, s.bus, now, batch, p, sends);
  }

  lemma RelayOutcome(s: Sys, now: int, batch: seq<Id>, sends: Id -> bool, writes: Id -> bool, commits: bool)
    requires Batch(s.entries, now, batch)
    ensures var p := PublishAll(s.entries, s.bus, now, batch, Answers(batch, sends, writes));
      Relayed(s, Ended(s, p, batch, commits), now, batch, sends, commits && AllWritten(batch, writes))
  {
    PublishAllWrites(s.entries, s.bus, now, batch, sends, writes);
    PublishAllOutcome(s.entries, s.bus, now, batch, Answers(batch, sends, writes));
    EndedRelayed(s, PublishAll(s.entries, s.bus, now, batch, Answers(batch, sends, writes)), now, batch, sends, writes,
                 commits);
  }

  predicate Candidate(entries: Entries, now: int, locked: set<Id>, id: Id) {
    Relayable(entries, now, id) && id !in locked
  }

  /** The oldest hundred of the relayable entries that no other transaction holds, or all of them. */
  ghost predicate OldestUnlocked(entries: Entries, now: int, locked: set<Id>, batch: seq<Id>) {
    && (forall id | id in batch :: Candidate(entries, now, locked, id))
    && (forall id | Candidate(entries, now, locked, id) && id !in batch ::
          |batch| == LIMIT && forall b | b in batch :: entries[b].createdAt <= entries[id].createdAt)
  }

  lemma ChosenBatch(entries: Entries, now: int, locked: set<Id>, batch: seq<Id>)
    requires Batch(entries, now, batch) && OldestUnlocked(entries, now, locked, batch)
    ensures BatchChosen(entries, now, locked, batch)
  {
    forall id | id in entries && id !in locked && entries[id].status in {Pending, Failed}
                && entries[id].availableAt <= now && id !in batch
      ensures |batch| == 100 && forall b | b in batch && b in entries :: entries[b].createdAt <= entries[id].createdAt
    {
      assert Candidate(entries, now, locked, id);
    }
  }

  method Oldest(entries: Entries, ids: set<Id>) returns (oldest: Id)
    requires ids != {} && ids <= entries.Keys
    ensures oldest in ids && forall id | id in ids :: entries[oldest].createdAt <= entries[id].createdAt
  {
    var rows := Sums.Rows(ids);
    oldest := rows[0];
    for i := 1 to |rows|
      invariant oldest in ids && forall k | 0 <= k < i :: entries[oldest].createdAt <= entries[rows[k]].createdAt
    {
      assert rows[i] in ids;
      if entries[rows[i]].createdAt < entries[oldest].createdAt { oldest := rows[i]; }
    }
  }

  lemma AppendYounger(entries: Entries, now: int, batch: seq<Id>, id: Id)
    requires Batch(entries, now, batch) && |batch| < LIMIT && Relayable(entries, now, id) && id !in batch
    requires forall b | b in batch :: b in entries && entries[b].createdAt <= entries[id].createdAt
    ensures Batch(entries, now, batch + [id])
  {
    assert forall i | 0 <= i < |batch| :: batch[i] in batch;
  }

  /** ORDER BY created_at LIMIT 100 FOR UPDATE SKIP LOCKED. */
  method Select(entries: Entries, now: int, locked: set<Id>) returns (batch: seq<Id>)
    ensures Batch(entries, now, batch)
    ensures OldestUnlocked(entries, now, locked, batch)
  {
    batch := [];
    var rest := set id | id in entries && Candidate(entries, now, locked, id);
    while rest != {} && |batch| < LIMIT
      invariant Batch(entries, now, batch) && rest <= entries.Keys
      invariant forall id :: Candidate(entries, now, locked, id) <==> id in rest || id in batch
      invariant forall id | id in rest :: id !in batch
      invariant forall b, id | b in batch && id in rest :: entries[b].createdAt <= entries[id].createdAt
      decreases |rest|
    {
      var id := Oldest(entries, rest);
      rest := rest - {id};
      AppendYounger(entries, now, batch, id);
      batch := batch + [id];
    }
  }

  predicate AllWritten(batch: seq<Id>, writes: Id -> bool) {
    forall id | id in batch :: writes(id)
  }

  function Answers(batch: seq<Id>, sends: Id -> bool, writes: Id -> bool): (answers: seq<Answer>)
    ensures |answers| == |batch|
  {
    seq(|batch|, i requires 0 <= i < |batch| => Answer(sends(batch[i]), writes(batch[i])))
  }

  /** After the loop was left nothing more happens. */
  lemma {:induction false} StoppedStays(entries: Entries, bus: seq<Message>, now: int, batch: seq<Id>,
                                        answers: seq<Answer>, n: nat)
    requires n <= |batch| == |answers| && forall id | id in batch :: id in entries
    requires PublishAll(entries, bus, now, batch[..n], answers[..n]).stopped
    ensures PublishAll(entries, bus, now, batch, answers) == PublishAll(entries, bus, now, batch[..n], answers[..n])
  {
    var k := |batch|;
    if n < k {
      assert batch[..k - 1][..n] == batch[..n] && answers[..k - 1][..n] == answers[..n];
      StoppedStays(entries, bus, now, batch[..k - 1], answers[..k - 1], n);
    } else {
      assert batch[..n] == batch && answers[..n] == answers;
    }
  }

  class OutboxRelay {
    var entries: Entries
    var bus: seq<Message>
    ghost var rolledBack: multiset<Id>
    ghost var failures: multiset<Id>

    ghost function State(): Sys
      reads this
    {
      Sys(entries, bus, rolledBack, failures)
    }

    /** The loop over the batch, inside the transaction: `working` is what the transaction would commit. `sends` and
        `writes` say which publications and which updates succeed. */
    method PublishBatch(now: int, batch: seq<Id>, sends: Id -> bool, writes: Id -> bool)
      returns (working: Entries, aborted: bool, ghost failed: multiset<Id>)
      requires forall id | id in batch :: id in entries
      modifies this`bus
      ensures var p := PublishAll(entries, old(bus), now, batch, Answers(batch, sends, writes));
        p.entries == working && p.bus == bus && p.failed == failed && p.aborted == aborted
    {
      failed := multiset{};
      working, aborted := entries, false;
      var stopped := false;
      ghost var answers := Answers(batch, sends, writes);
      var n := 0;
      while n < |batch| && !stopped
        invariant n <= |batch| && entries == old(entries)
        invariant forall id | id in batch[..n] :: id in entries
        invariant Progress(working, bus, failed, aborted, stopped)
                  == PublishAll(entries, old(bus), now, batch[..n], answers[..n])
      {
        var id := batch[n];
        assert id in batch;
        assert batch[..n + 1][..n] == batch[..n] && answers[..n + 1][..n] == answers[..n];
        var written := writes(id);
        if !sends(id) {
          if written && !aborted {
            working := working[id := MarkFailed(working[id], now)];
            failed := failed + multiset{id};
          } else {
            aborted := true;
          }
        } else {
          bus := bus + [MessageFor(id, working[id])];
          if written && !aborted {
            working := working[id := working[id].(status := Published)];
          } else {
            aborted, stopped := true, true;
          }
        }
        n := n + 1;
      }
      if stopped {
        StoppedStays(entries, old(bus), now, batch, answers, n);
      } else {
        assert batch[..n] == batch && answers[..n] == answers;
      }
    }

    /** The transaction over a batch. Publications are not undone by a rollback. */
    method RelayBatch(now: int, batch: seq<Id>, sends: Id -> bool, writes: Id -> bool, commits: bool)
      requires Batch(entries, now, batch)
      modifies this
      ensures State() == Step(old(State()), Relay(now, batch, Answers(batch, sends, writes), commits))
    {
      var working, aborted, failed := PublishBatch(now, batch, sends, writes);
      if commits && !aborted {
        entries := working;
        failures := failures + failed;
      } else {
        rolledBack := rolledBack + multiset(batch);
      }
    }

    /** One pass: the batch is the one that the query chooses, and what becomes of its events is what the bus and the
        database answer. */
    method Process(now: int, locked: set<Id>, sends: Id -> bool, writes: Id -> bool, commits: bool)
      requires Inv(State())
      modifies this
      ensures exists batch ::
        && BatchChosen(old(entries), now, locked, batch)
        && State() == Step(old(State()), Relay(now, batch, Answers(batch, sends, writes), commits))
        && Relayed(old(State()), State(), now, batch, sends, commits && AllWritten(batch, writes))
      ensures Inv(State()) && Preserves(old(State()), State())
    {
      ghost var before := State();
      var batch := Select(entries, now, locked);
      RelayBatch(now, batch, sends, writes, commits);
      ChosenBatch(before.entries, now, locked, batch);
      RelayOutcome(before, now, batch, sends, writes, commits);
      StepKeepsInv(before, Relay(now, batch, Answers(batch, sends, writes), commits));
    }
  }
}
