// The older pipeline: accepted events, their outbox items, the queue and the inbox receipts. Queue leases carry
// no fencing token: complete and fail only ask that the message is leased, whoever leased it. Identifiers are
// positions in their table, and payload hashes are taken to be injective, so payloads stand for their hashes.
module Synthetic {
  import opened Wrappers

  datatype Key = Key(tenant: int, idempotency: int)

  datatype EventStatus = Accepted | Processed | FailedEvent

  datatype Event = Event(key: Key, payload: int, status: EventStatus, version: int)

  // The payload of an outbox item and of the queue message made from it.
  datatype Envelope = Envelope(event: int, tenant: int, payload: int)

  datatype Item = Item(tenant: int, event: int, envelope: Envelope, published: bool, availableAt: int)

  datatype MessageStatus = Available | Leased | Completed | Dead

  datatype Message = Message(
    tenant: int, source: int, envelope: Envelope, status: MessageStatus, attempts: int, until: int, availableAt: int)

  // `receipts` maps a message to the payload it was received with; `audits` lists the events audited as processed.
  datatype Db = Db(
    events: seq<Event>, items: seq<Item>, queue: seq<Message>, receipts: map<int, Envelope>, audits: seq<int>)

  const EMPTY := Db([], [], [], map[], [])

  datatype Config = Config(leaseSeconds: nat, maxAttempts: int)

  // ---------------------------------------------------------------- transactions

  function EventSlot(events: seq<Event>, key: Key): (i: nat)
    ensures i <= |events|
    ensures i < |events| ==> events[i].key == key
    ensures forall j :: 0 <= j < i ==> events[j].key != key
  {
    if events == [] then 0 else if events[0].key == key then 0 else 1 + EventSlot(events[1..], key)
  }

  datatype Acceptance = Created(event: int) | Existing(event: int) | Conflict

  /** Insert the event and its outbox item, or find the one accepted under the key before. */
  function Accept(db: Db, key: Key, payload: int, now: int): (Db, Acceptance) {
    var slot := EventSlot(db.events, key);
    if slot < |db.events| then
      (db, if db.events[slot].payload != payload then Conflict else Existing(slot))
    else
      (db.(events := db.events + [Event(key, payload, Accepted, 1)],
           items := db.items + [Item(key.tenant, slot, Envelope(slot, key.tenant, payload), false, now)]),
       Created(slot))
  }

  predicate Pending(db: Db, i: int, now: int) {
    0 <= i < |db.items| && !db.items[i].published && db.items[i].availableAt <= now
  }

  function MessageSlot(queue: seq<Message>, source: int): (j: nat)
    ensures j <= |queue|
    ensures j < |queue| ==> queue[j].source == source
    ensures forall k :: 0 <= k < j ==> queue[k].source != source
  {
    if queue == [] then 0 else if queue[0].source == source then 0 else 1 + MessageSlot(queue[1..], source)
  }

  /** Queue an outbox item unless it has a message already, and mark it published. */
  function Dispatch(db: Db, i: int, now: int): Db
    requires 0 <= i < |db.items|
  {
    var item := db.items[i];
    var queue :=
      if MessageSlot(db.queue, i) < |db.queue| then db.queue
      else db.queue + [Message(item.tenant, i, item.envelope, Available, 0, 0, now)];
    db.(queue := queue, items := db.items[i := item.(published := true)])
  }

  predicate Claimable(m: Message, now: int) {
    m.availableAt <= now && (m.status == Available || (m.status == Leased && m.until <= now))
  }

  // What a claim hands to the worker.
  datatype Ticket = Ticket(message: int, tenant: int, envelope: Envelope, attempts: int)

  function Claim(db: Db, j: int, until: int): Db
    requires 0 <= j < |db.queue|
  {
    db.(queue := db.queue[j := db.queue[j].(status := Leased, attempts := db.queue[j].attempts + 1, until := until)])
  }

  function TicketOf(db: Db, j: int): Ticket
    requires 0 <= j < |db.queue|
  {
    Ticket(j, db.queue[j].tenant, db.queue[j].envelope, db.queue[j].attempts + 1)
  }

  // `Refused` stands for the permanent errors.
  datatype Handling = Handled(db: Db, effect: bool) | Refused

  /** Decode the message and process its event, guarded by the receipt and by the event's own status. */
  function Handle(db: Db, t: Ticket): Handling {
    var e := t.envelope.event;
    if t.envelope.tenant != t.tenant then Refused
    else if !(0 <= e < |db.events|) || db.events[e].key.tenant != t.tenant then Refused
    else if db.events[e].payload != t.envelope.payload then Refused
    else if t.message in db.receipts then
      if db.receipts[t.message] != t.envelope then Refused else Handled(db, false)
    else
      var received := db.(receipts := db.receipts[t.message := t.envelope]);
      if db.events[e].status == Processed then Handled(received, false)
      else if db.events[e].status != Accepted then Refused
      else
        Handled(received.(events := db.events[e := db.events[e].(status := Processed, version := db.events[e].version + 1)],
                          audits := db.audits + [e]), true)
  }

  predicate IsLeased(db: Db, j: int) {
    0 <= j < |db.queue| && db.queue[j].status == Leased
  }

  /** Complete the message if it is leased, by whomever; also fine if it is completed already. */
  function Complete(db: Db, j: int): Option<Db> {
    if IsLeased(db, j) then Some(db.(queue := db.queue[j := db.queue[j].(status := Completed)]))
    else if 0 <= j < |db.queue| && db.queue[j].status == Completed then Some(db)
    else None
  }

  function Delay(attempts: int): int {
    DoublingDelay(attempts, 60)
  }

  /** Give the message back, or bury it, if it is leased, by whomever. */
  function Fail(db: Db, t: Ticket, permanent: bool, now: int, maxAttempts: int): Db {
    if !IsLeased(db, t.message) then db
    else
      db.(queue := db.queue[t.message := db.queue[t.message].(
        status := if permanent || t.attempts >= maxAttempts then Dead else Available,
        availableAt := now + Delay(t.attempts))])
  }

  // ---------------------------------------------------------------- the interleaving

  datatype Phase = Claimed | Finished | Failing(permanent: bool) | Stopped

  datatype Worker = Worker(ticket: Ticket, phase: Phase)

  datatype System = System(db: Db, workers: seq<Worker>)

  const START := System(EMPTY, [])

  datatype Step =
    | AcceptStep(key: Key, payload: int, now: int)
    | DispatchStep(item: int, now: int)
    | ClaimStep(message: int, now: int)
    | HandleStep(worker: int)
    | ErrorStep(worker: int, permanent: bool)
    | CompleteStep(worker: int)
    | FailStep(worker: int, now: int)
    | CrashStep(worker: int)

  predicate At(s: System, w: int, phase: Phase) {
    0 <= w < |s.workers| && s.workers[w].phase == phase
  }

  function SetPhase(s: System, w: int, phase: Phase): System
    requires 0 <= w < |s.workers|
  {
    s.(workers := s.workers[w := s.workers[w].(phase := phase)])
  }

  function Next(s: System, step: Step, config: Config): System {
    match step
    case AcceptStep(key, payload, now) => s.(db := Accept(s.db, key, payload, now).0)
    case DispatchStep(i, now) => if Pending(s.db, i, now) then s.(db := Dispatch(s.db, i, now)) else s
    case ClaimStep(j, now) =>
      if !(0 <= j < |s.db.queue|) || !Claimable(s.db.queue[j], now) then s
      else System(Claim(s.db, j, now + config.leaseSeconds), s.workers + [Worker(TicketOf(s.db, j), Claimed)])
    case HandleStep(w) =>
      if !At(s, w, Claimed) then s
      else
        (match Handle(s.db, s.workers[w].ticket)
         case Refused => SetPhase(s, w, Failing(true))
         case Handled(db, _) => SetPhase(s.(db := db), w, Finished))
    case ErrorStep(w, permanent) =>
      if At(s, w, Claimed) || At(s, w, Finished) then SetPhase(s, w, Failing(permanent)) else s
    case CompleteStep(w) =>
      if !At(s, w, Finished) then s
      else
        (match Complete(s.db, s.workers[w].ticket.message)
         case None => SetPhase(s, w, Failing(false))
         case Some(db) => SetPhase(s.(db := db), w, Stopped))
    case FailStep(w, now) =>
      if !(0 <= w < |s.workers|) || !s.workers[w].phase.Failing? then s
      else
        SetPhase(s.(db := Fail(s.db, s.workers[w].ticket, s.workers[w].phase.permanent, now, config.maxAttempts)), w, Stopped)
    case CrashStep(w) => if 0 <= w < |s.workers| then SetPhase(s, w, Stopped) else s
  }

  function Run(steps: seq<Step>, config: Config): System {
    if steps == [] then START else Next(Run(steps[..|steps| - 1], config), steps[|steps| - 1], config)
  }

  // ---------------------------------------------------------------- the invariant

  /** One event per tenant and idempotency key, each with exactly one outbox item, its own. */
  ghost predicate OneEventPerKey(db: Db) {
    && (forall i, j :: 0 <= i < j < |db.events| ==> db.events[i].key != db.events[j].key)
    && |db.items| == |db.events|
    && (forall i :: 0 <= i < |db.items| ==>
          && db.items[i].event == i && db.items[i].tenant == db.events[i].key.tenant
          && db.items[i].envelope == Envelope(i, db.events[i].key.tenant, db.events[i].payload))
  }

  ghost predicate SourcesDistinct(queue: seq<Message>) {
    forall j, k :: 0 <= j < k < |queue| ==> queue[j].source != queue[k].source
  }

  /** A message carries the envelope of its item. */
  ghost predicate MessagesMirror(queue: seq<Message>, items: seq<Item>) {
    forall j :: 0 <= j < |queue| ==>
      && 0 <= queue[j].source < |items|
      && queue[j].tenant == items[queue[j].source].tenant && queue[j].envelope == items[queue[j].source].envelope
  }

  ghost predicate QueuedIffPublished(queue: seq<Message>, items: seq<Item>) {
    forall i :: 0 <= i < |items| ==> (items[i].published <==> MessageSlot(queue, i) < |queue|)
  }

  /** At most one queue message per outbox item, exactly one once it is published, carrying the item's envelope. */
  ghost predicate OneMessagePerItem(db: Db) {
    SourcesDistinct(db.queue) && MessagesMirror(db.queue, db.items) && QueuedIffPublished(db.queue, db.items)
  }

  /** The effect is applied at most once: version 2 and one audit exactly when processed, else version 1 and none. */
  ghost predicate EffectOnce(db: Db) {
    && (forall i :: 0 <= i < |db.events| ==>
          && db.events[i].status != FailedEvent
          && db.events[i].version == (if db.events[i].status == Processed then 2 else 1)
          && Count(db.audits, i) == (if db.events[i].status == Processed then 1 else 0))
    && (forall i :: !(0 <= i < |db.events|) ==> Count(db.audits, i) == 0)
  }

  predicate IsProcessed(db: Db, i: int) {
    0 <= i < |db.events| && db.events[i].status == Processed
  }

  /** Receipts, completions and finished workers all mean that the event was processed. */
  ghost predicate ReceiptsMeanProcessed(db: Db) {
    && (forall m :: m in db.receipts ==>
          0 <= m < |db.queue| && db.receipts[m] == db.queue[m].envelope && IsProcessed(db, db.receipts[m].event))
    && (forall j :: 0 <= j < |db.queue| && db.queue[j].status == Completed ==> IsProcessed(db, db.queue[j].envelope.event))
  }

  /** A processed event was processed through a message of its own that holds a receipt. */
  ghost predicate ProcessedHasReceipt(db: Db) {
    forall i :: 0 <= i < |db.events| && db.events[i].status == Processed ==> HasReceipt(db, i)
  }

  ghost predicate HasReceipt(db: Db, event: int) {
    exists m :: m in db.receipts && db.receipts[m].event == event
  }

  ghost predicate WorkersKnown(s: System) {
    forall w :: 0 <= w < |s.workers| ==>
      var t := s.workers[w].ticket;
      && 0 <= t.message < |s.db.queue|
      && t.envelope == s.db.queue[t.message].envelope && t.tenant == s.db.queue[t.message].tenant
      && (s.workers[w].phase == Finished ==> IsProcessed(s.db, t.envelope.event))
  }

  ghost predicate Invariant(s: System) {
    && OneEventPerKey(s.db) && OneMessagePerItem(s.db) && EffectOnce(s.db)
    && ReceiptsMeanProcessed(s.db) && ProcessedHasReceipt(s.db) && WorkersKnown(s)
  }

  // ---------------------------------------------------------------- preservation, one transaction at a time

  ghost predicate Sound(db: Db) {
    && OneEventPerKey(db) && OneMessagePerItem(db) && EffectOnce(db)
    && ReceiptsMeanProcessed(db) && ProcessedHasReceipt(db)
  }

  /** What every transaction leaves a worker to rely on. */
  ghost predicate Continues(a: Db, b: Db) {
    && |a.queue| <= |b.queue|
    && (forall j :: 0 <= j < |a.queue| ==> b.queue[j].envelope == a.queue[j].envelope && b.queue[j].tenant == a.queue[j].tenant)
    && (forall i :: IsProcessed(a, i) ==> IsProcessed(b, i))
  }

  lemma AcceptKeepsTables(db: Db, key: Key, payload: int, now: int)
    requires OneEventPerKey(db) && OneMessagePerItem(db)
    ensures OneEventPerKey(Accept(db, key, payload, now).0) && OneMessagePerItem(Accept(db, key, payload, now).0)
  {
    var n := |db.events|;
    if EventSlot(db.events, key) == n {
      assert MessageSlot(db.queue, n) == |db.queue|;
    }
  }

  lemma AcceptKeepsEffect(db: Db, key: Key, payload: int, now: int)
    requires EffectOnce(db)
    ensures EffectOnce(Accept(db, key, payload, now).0)
  {
    assert Count(db.audits, |db.events|) == 0;
  }

  lemma AcceptKeepsReceipts(db: Db, key: Key, payload: int, now: int)
    requires ReceiptsMeanProcessed(db) && ProcessedHasReceipt(db)
    ensures var after := Accept(db, key, payload, now).0;
            ReceiptsMeanProcessed(after) && ProcessedHasReceipt(after) && Continues(db, after)
  {
    var after := Accept(db, key, payload, now).0;
    assert forall i :: IsProcessed(db, i) <==> IsProcessed(after, i);
    forall i | 0 <= i < |after.events| && after.events[i].status == Processed ensures HasReceipt(after, i) {
      assert IsProcessed(db, i) && HasReceipt(db, i);
    }
  }

  lemma AcceptKeepsSound(db: Db, key: Key, payload: int, now: int)
    requires Sound(db)
    ensures Sound(Accept(db, key, payload, now).0) && Continues(db, Accept(db, key, payload, now).0)
  {
    AcceptKeepsTables(db, key, payload, now);
    AcceptKeepsEffect(db, key, payload, now);
    AcceptKeepsReceipts(db, key, payload, now);
  }

  lemma MessageAppended(queue: seq<Message>, m: Message, i: int)
    ensures MessageSlot(queue + [m], i) < |queue + [m]| <==> MessageSlot(queue, i) < |queue| || m.source == i
  {
    var after := queue + [m];
    var slot := MessageSlot(queue, i);
    if slot < |queue| {
      assert after[slot] == queue[slot];
    } else if m.source == i {
      assert after[|queue|].source == i;
    }
  }

  lemma DispatchKeepsEvents(db: Db, i: int, now: int)
    requires OneEventPerKey(db) && 0 <= i < |db.items|
    ensures OneEventPerKey(Dispatch(db, i, now))
  {
  }

  lemma PublishingKeepsMirror(queue: seq<Message>, items: seq<Item>, i: int)
    requires 0 <= i < |items| && MessagesMirror(queue, items)
    ensures MessagesMirror(queue, items[i := items[i].(published := true)])
  {
  }

  lemma DispatchKeepsMessages(db: Db, i: int, now: int)
    requires OneMessagePerItem(db) && 0 <= i < |db.items|
    ensures OneMessagePerItem(Dispatch(db, i, now))
  {
    var after := Dispatch(db, i, now);
    PublishingKeepsMirror(db.queue, db.items, i);
    if MessageSlot(db.queue, i) < |db.queue| {
      assert after.queue == db.queue;
    } else {
      var m := Message(db.items[i].tenant, i, db.items[i].envelope, Available, 0, 0, now);
      assert after.queue == db.queue + [m];
      forall k ensures MessageSlot(after.queue, k) < |after.queue| <==> MessageSlot(db.queue, k) < |db.queue| || i == k {
        MessageAppended(db.queue, m, k);
      }
    }
  }

  lemma DispatchKeepsSound(db: Db, i: int, now: int)
    requires Sound(db) && 0 <= i < |db.items|
    ensures Sound(Dispatch(db, i, now)) && Continues(db, Dispatch(db, i, now))
  {
    DispatchKeepsEvents(db, i, now);
    DispatchKeepsMessages(db, i, now);
    ReceiptsStay(db, Dispatch(db, i, now));
  }

  /** A transaction that touches neither events nor receipts, and completes nothing of its own, keeps their meaning. */
  lemma ReceiptsStay(a: Db, b: Db)
    requires ReceiptsMeanProcessed(a) && ProcessedHasReceipt(a) && EffectOnce(a)
    requires b.events == a.events && b.receipts == a.receipts && b.audits == a.audits && |a.queue| <= |b.queue|
    requires forall j :: 0 <= j < |a.queue| ==> b.queue[j].envelope == a.queue[j].envelope
    requires forall j :: 0 <= j < |b.queue| && b.queue[j].status == Completed ==>
      (j < |a.queue| && a.queue[j].status == Completed) || IsProcessed(a, b.queue[j].envelope.event)
    ensures ReceiptsMeanProcessed(b) && ProcessedHasReceipt(b) && EffectOnce(b)
  {
    forall j | 0 <= j < |b.queue| && b.queue[j].status == Completed ensures IsProcessed(b, b.queue[j].envelope.event) {
      assert IsProcessed(a, b.queue[j].envelope.event);
    }
    forall m | m in b.receipts ensures IsProcessed(b, b.receipts[m].event) {
      assert IsProcessed(a, a.receipts[m].event);
    }
    forall i | 0 <= i < |b.events| && b.events[i].status == Processed ensures HasReceipt(b, i) {
      assert HasReceipt(a, i);
    }
  }

  lemma {:induction false} TouchKeepsSlots(queue: seq<Message>, j: int, m: Message, i: int)
    requires 0 <= j < |queue| && m.source == queue[j].source
    ensures MessageSlot(queue[j := m], i) == MessageSlot(queue, i)
  {
    if j == 0 {
      assert queue[j := m][1..] == queue[1..];
    } else {
      assert queue[j := m][1..] == queue[1..][j - 1 := m];
      TouchKeepsSlots(queue[1..], j - 1, m, i);
    }
  }

  lemma TouchKeepsMessages(db: Db, j: int, m: Message)
    requires OneMessagePerItem(db) && 0 <= j < |db.queue|
    requires m.source == db.queue[j].source && m.tenant == db.queue[j].tenant && m.envelope == db.queue[j].envelope
    ensures OneMessagePerItem(db.(queue := db.queue[j := m]))
  {
    var queue := db.queue[j := m];
    assert SourcesDistinct(queue) && MessagesMirror(queue, db.items);
    forall i | 0 <= i < |db.items| ensures db.items[i].published <==> MessageSlot(queue, i) < |queue| {
      TouchKeepsSlots(db.queue, j, m, i);
    }
  }

  /** Changing lease, status, attempts or availability of one message. */
  lemma TouchKeepsSound(db: Db, j: int, m: Message)
    requires Sound(db) && 0 <= j < |db.queue|
    requires m.source == db.queue[j].source && m.tenant == db.queue[j].tenant && m.envelope == db.queue[j].envelope
    requires m.status == Completed ==> IsProcessed(db, m.envelope.event)
    ensures Sound(db.(queue := db.queue[j := m])) && Continues(db, db.(queue := db.queue[j := m]))
  {
    var after := db.(queue := db.queue[j := m]);
    TouchKeepsMessages(db, j, m);
    assert OneEventPerKey(after);
    assert forall k :: 0 <= k < |db.queue| && k != j ==> after.queue[k] == db.queue[k];
    ReceiptsStay(db, after);
  }

  /** A message of the queue names an event that is there, with its tenant and payload. */
  lemma MessageFitsEvent(db: Db, t: Ticket)
    requires OneEventPerKey(db) && OneMessagePerItem(db) && 0 <= t.message < |db.queue|
    requires t.envelope == db.queue[t.message].envelope && t.tenant == db.queue[t.message].tenant
    ensures 0 <= t.envelope.event < |db.events|
    ensures t.envelope.tenant == t.tenant == db.events[t.envelope.event].key.tenant
    ensures t.envelope.payload == db.events[t.envelope.event].payload
  {
  }

  /** In a sound state a message of the queue is never refused, and handling it leaves its event processed, applying
      the effect exactly when it was not. */
  lemma HandleApplies(db: Db, t: Ticket)
    requires Sound(db) && 0 <= t.message < |db.queue|
    requires t.envelope == db.queue[t.message].envelope && t.tenant == db.queue[t.message].tenant
    ensures Handle(db, t).Handled?
    ensures IsProcessed(Handle(db, t).db, t.envelope.event)
    ensures Handle(db, t).effect <==> !IsProcessed(db, t.envelope.event)
  {
    MessageFitsEvent(db, t);
  }

  /** What handling a message writes: at most a receipt and the processing of its event. */
  lemma HandleWrites(db: Db, t: Ticket)
    requires Handle(db, t).Handled?
    ensures var (after, effect) := (Handle(db, t).db, Handle(db, t).effect);
            var e := t.envelope.event;
            && after.items == db.items && after.queue == db.queue && 0 <= e < |db.events|
            && (!effect ==> after.events == db.events && after.audits == db.audits)
            && (effect ==>
                  && db.events[e].status == Accepted
                  && after.events == db.events[e := db.events[e].(status := Processed, version := db.events[e].version + 1)]
                  && after.audits == db.audits + [e])
  {
  }

  lemma ProcessingKeepsEffect(db: Db, after: Db, e: int)
    requires EffectOnce(db) && 0 <= e < |db.events| && db.events[e].status == Accepted
    requires after.events == db.events[e := db.events[e].(status := Processed, version := db.events[e].version + 1)]
    requires after.audits == db.audits + [e]
    ensures EffectOnce(after)
  {
    forall i ensures Count(after.audits, i) == Count(db.audits, i) + (if i == e then 1 else 0) {
      CountAppend(db.audits, e, i);
    }
  }

  lemma HandleKeepsEffect(db: Db, t: Ticket)
    requires EffectOnce(db) && Handle(db, t).Handled?
    ensures EffectOnce(Handle(db, t).db)
  {
    HandleWrites(db, t);
    if Handle(db, t).effect {
      ProcessingKeepsEffect(db, Handle(db, t).db, t.envelope.event);
    }
  }

  lemma HandleKeepsTables(db: Db, t: Ticket)
    requires OneEventPerKey(db) && OneMessagePerItem(db) && Handle(db, t).Handled?
    ensures OneEventPerKey(Handle(db, t).db) && OneMessagePerItem(Handle(db, t).db)
    ensures Continues(db, Handle(db, t).db)
  {
    HandleWrites(db, t);
    var e, after := t.envelope.event, Handle(db, t).db;
    assert forall i :: 0 <= i < |db.events| ==>
      after.events[i].key == db.events[i].key && after.events[i].payload == db.events[i].payload;
  }

  lemma HandleKeepsSound(db: Db, t: Ticket)
    requires Sound(db) && 0 <= t.message < |db.queue|
    requires t.envelope == db.queue[t.message].envelope && t.tenant == db.queue[t.message].tenant
    ensures Handle(db, t).Handled?
    ensures Sound(Handle(db, t).db) && Continues(db, Handle(db, t).db)
    ensures IsProcessed(Handle(db, t).db, t.envelope.event)
  {
    HandleApplies(db, t);
    HandleKeepsEffect(db, t);
    HandleKeepsTables(db, t);
    if t.message !in db.receipts {
      HandledReceipts(db, t, Handle(db, t).db);
    }
  }

  lemma HandledReceipts(db: Db, t: Ticket, after: Db)
    requires ReceiptsMeanProcessed(db) && ProcessedHasReceipt(db) && 0 <= t.message < |db.queue|
    requires t.envelope == db.queue[t.message].envelope
    requires t.message !in db.receipts && Handle(db, t).Handled? && after == Handle(db, t).db
    ensures ReceiptsMeanProcessed(after) && ProcessedHasReceipt(after)
  {
    assert forall i :: IsProcessed(db, i) ==> IsProcessed(after, i);
    forall i | 0 <= i < |after.events| && after.events[i].status == Processed ensures HasReceipt(after, i) {
      if i == t.envelope.event {
        assert t.message in after.receipts;
      } else {
        assert HasReceipt(db, i);
        var m :| m in db.receipts && db.receipts[m].event == i;
        assert m in after.receipts && after.receipts[m] == db.receipts[m];
      }
    }
  }

  lemma WorkersContinue(s: System, db: Db, w: int, phase: Phase)
    requires WorkersKnown(s) && Continues(s.db, db) && 0 <= w < |s.workers|
    requires phase == Finished ==> IsProcessed(db, s.workers[w].ticket.envelope.event)
    ensures WorkersKnown(SetPhase(s.(db := db), w, phase))
  {
  }

  lemma ContinuesHere(db: Db)
    ensures Continues(db, db)
  {
  }

  lemma WorkersGo(s: System, db: Db)
    requires WorkersKnown(s) && Continues(s.db, db)
    ensures WorkersKnown(s.(db := db))
  {
  }

  lemma ClaimKeepsInvariant(s: System, j: int, until: int)
    requires Invariant(s) && 0 <= j < |s.db.queue|
    ensures Invariant(System(Claim(s.db, j, until), s.workers + [Worker(TicketOf(s.db, j), Claimed)]))
  {
    TouchKeepsSound(s.db, j, Claim(s.db, j, until).queue[j]);
    WorkersGo(s, Claim(s.db, j, until));
  }

  lemma HandleKeepsInvariant(s: System, w: int)
    requires Invariant(s) && At(s, w, Claimed)
    ensures Handle(s.db, s.workers[w].ticket).Handled?
    ensures Invariant(SetPhase(s.(db := Handle(s.db, s.workers[w].ticket).db), w, Finished))
  {
    HandleKeepsSound(s.db, s.workers[w].ticket);
    WorkersContinue(s, Handle(s.db, s.workers[w].ticket).db, w, Finished);
  }

  lemma PhaseKeepsInvariant(s: System, w: int, phase: Phase)
    requires Invariant(s) && 0 <= w < |s.workers| && phase != Finished
    ensures Invariant(SetPhase(s, w, phase))
  {
    ContinuesHere(s.db);
    WorkersContinue(s, s.db, w, phase);
  }

  lemma AcceptKeepsInvariant(s: System, key: Key, payload: int, now: int)
    requires Invariant(s)
    ensures Invariant(s.(db := Accept(s.db, key, payload, now).0))
  {
    AcceptKeepsSound(s.db, key, payload, now);
    WorkersGo(s, Accept(s.db, key, payload, now).0);
  }

  lemma DispatchKeepsInvariant(s: System, i: int, now: int)
    requires Invariant(s) && 0 <= i < |s.db.items|
    ensures Invariant(s.(db := Dispatch(s.db, i, now)))
  {
    DispatchKeepsSound(s.db, i, now);
    WorkersGo(s, Dispatch(s.db, i, now));
  }

  lemma AcceptStepKeepsInvariant(s: System, step: Step, config: Config)
    requires Invariant(s) && step.AcceptStep?
    ensures Invariant(Next(s, step, config))
  {
    AcceptKeepsInvariant(s, step.key, step.payload, step.now);
    assert Next(s, step, config) == s.(db := Accept(s.db, step.key, step.payload, step.now).0);
  }

  lemma DispatchStepKeepsInvariant(s: System, step: Step, config: Config)
    requires Invariant(s) && step.DispatchStep?
    ensures Invariant(Next(s, step, config))
  {
    if Pending(s.db, step.item, step.now) {
      DispatchKeepsInvariant(s, step.item, step.now);
      assert Next(s, step, config) == s.(db := Dispatch(s.db, step.item, step.now));
    }
  }

  lemma ClaimStepKeepsInvariant(s: System, step: Step, config: Config)
    requires Invariant(s) && step.ClaimStep?
    ensures Invariant(Next(s, step, config))
  {
    var j := step.message;
    if 0 <= j < |s.db.queue| && Claimable(s.db.queue[j], step.now) {
      var until := step.now + config.leaseSeconds;
      ClaimKeepsInvariant(s, j, until);
      var claimed := System(Claim(s.db, j, until), s.workers + [Worker(TicketOf(s.db, j), Claimed)]);
      assert Next(s, step, config) == claimed;
    }
  }

  lemma NextKeepsInvariant(s: System, step: Step, config: Config)
    requires Invariant(s)
    ensures Invariant(Next(s, step, config))
  {
    if step.AcceptStep? {
      AcceptStepKeepsInvariant(s, step, config);
    } else if step.DispatchStep? {
      DispatchStepKeepsInvariant(s, step, config);
    } else if step.ClaimStep? {
      ClaimStepKeepsInvariant(s, step, config);
    } else {
      WorkerStepKeepsInvariant(s, step, config);
    }
  }

  lemma WorkerStepKeepsInvariant(s: System, step: Step, config: Config)
    requires Invariant(s) && !step.AcceptStep? && !step.DispatchStep? && !step.ClaimStep?
    ensures Invariant(Next(s, step, config))
  {
    match step
    case HandleStep(w) =>
      if At(s, w, Claimed) {
        HandleKeepsInvariant(s, w);
      }
    case ErrorStep(w, permanent) =>
      if At(s, w, Claimed) || At(s, w, Finished) {
        PhaseKeepsInvariant(s, w, Failing(permanent));
      }
    case CompleteStep(w) =>
      if At(s, w, Finished) {
        CompleteKeepsInvariant(s, w);
      }
    case FailStep(w, now) =>
      if 0 <= w < |s.workers| && s.workers[w].phase.Failing? {
        FailKeepsInvariant(s, w, now, config);
      }
    case CrashStep(w) =>
      if 0 <= w < |s.workers| {
        PhaseKeepsInvariant(s, w, Stopped);
      }
  }

  lemma CompleteKeepsInvariant(s: System, w: int)
    requires Invariant(s) && At(s, w, Finished)
    ensures match Complete(s.db, s.workers[w].ticket.message)
            case None => Invariant(SetPhase(s, w, Failing(false)))
            case Some(db) => Invariant(SetPhase(s.(db := db), w, Stopped))
  {
    ContinuesHere(s.db);
    var j := s.workers[w].ticket.message;
    WorkersContinue(s, s.db, w, Failing(false));
    WorkersContinue(s, s.db, w, Stopped);
    if IsLeased(s.db, j) {
      TouchKeepsSound(s.db, j, s.db.queue[j].(status := Completed));
      WorkersContinue(s, Complete(s.db, j).value, w, Stopped);
    }
  }

  lemma FailKeepsInvariant(s: System, w: int, now: int, config: Config)
    requires Invariant(s) && 0 <= w < |s.workers| && s.workers[w].phase.Failing?
    ensures Invariant(SetPhase(s.(db := Fail(s.db, s.workers[w].ticket, s.workers[w].phase.permanent, now,
                                             config.maxAttempts)), w, Stopped))
  {
    ContinuesHere(s.db);
    var t := s.workers[w].ticket;
    var after := Fail(s.db, t, s.workers[w].phase.permanent, now, config.maxAttempts);
    if IsLeased(s.db, t.message) {
      TouchKeepsSound(s.db, t.message, after.queue[t.message]);
    }
    WorkersContinue(s, after, w, Stopped);
  }

  /** In every run, with leases expiring and stale workers completing and failing each other's messages: one event
      and one outbox item per key, at most one message per item, the effect applied at most once (and then version 2
      and one audit), receipts exactly for processed events, and completed messages only of processed events. */
  lemma {:induction false} RunsKeepInvariant(steps: seq<Step>, config: Config)
    ensures Invariant(Run(steps, config))
  {
    if steps != [] {
      RunsKeepInvariant(steps[..|steps| - 1], config);
      NextKeepsInvariant(Run(steps[..|steps| - 1], config), steps[|steps| - 1], config);
    }
  }

  /** No worker is ever refused: the permanent errors of processing cannot be reached through the pipeline. */
  lemma NothingIsRefused(steps: seq<Step>, config: Config, w: int)
    requires 0 <= w < |Run(steps, config).workers|
    ensures Handle(Run(steps, config).db, Run(steps, config).workers[w].ticket).Handled?
  {
    RunsKeepInvariant(steps, config);
    HandleApplies(Run(steps, config).db, Run(steps, config).workers[w].ticket);
  }

  /** Accepting again under a key answers with the one event of that key, or with a conflict exactly when its payload
      differs, and changes nothing. */
  lemma AcceptIsIdempotent(db: Db, key: Key, payload: int, again: int, now: int, later: int)
    ensures var (once, answer) := Accept(db, key, payload, now);
            var (twice, second) := Accept(once, key, again, later);
            && twice == once
            && (answer == Conflict <==> exists i :: 0 <= i < |db.events| && db.events[i].key == key
                                          && EventSlot(db.events, key) == i && db.events[i].payload != payload)
            && (answer != Conflict ==>
                  && 0 <= answer.event < |once.events|
                  && once.events[answer.event].key == key && once.events[answer.event].payload == payload
                  && second == if again == payload then Existing(answer.event) else Conflict)
  {
    var once := Accept(db, key, payload, now).0;
    var slot := EventSlot(db.events, key);
    if slot == |db.events| {
      assert once.events[slot].key == key;
      assert forall j :: 0 <= j < slot ==> once.events[j] == db.events[j];
    }
  }

  lemma FinalMessagesStay(s: System, step: Step, config: Config, j: int)
    requires 0 <= j < |s.db.queue| && (s.db.queue[j].status == Completed || s.db.queue[j].status == Dead)
    ensures j < |Next(s, step, config).db.queue| && Next(s, step, config).db.queue[j] == s.db.queue[j]
  {
  }

  /** Completed and dead are final: no continuation of a run changes such a message. */
  lemma {:induction false} CompletedAndDeadAreFinal(before: seq<Step>, more: seq<Step>, config: Config, j: int)
    requires 0 <= j < |Run(before, config).db.queue|
    requires Run(before, config).db.queue[j].status == Completed || Run(before, config).db.queue[j].status == Dead
    ensures j < |Run(before + more, config).db.queue|
    ensures Run(before + more, config).db.queue[j] == Run(before, config).db.queue[j]
  {
    if more == [] {
      assert before + more == before;
    } else {
      CompletedAndDeadAreFinal(before, more[..|more| - 1], config, j);
      assert (before + more)[..|before + more| - 1] == before + more[..|more| - 1];
      FinalMessagesStay(Run(before + more[..|more| - 1], config), more[|more| - 1], config, j);
    }
  }

  // ---------------------------------------------------------------- what the missing token costs

  lemma RunOneMore(steps: seq<Step>, step: Step, config: Config, s: System)
    requires Run(steps, config) == s
    ensures Run(steps + [step], config) == Next(s, step, config)
  {
    assert (steps + [step])[..|steps|] == steps;
  }

  const ONE_EVENT: seq<Event> := [Event(Key(1, 1), 7, Accepted, 1)]
  const ONE_ENVELOPE := Envelope(0, 1, 7)
  const ONE_TICKET := Ticket(0, 1, ONE_ENVELOPE, 1)

  function OneMessage(status: MessageStatus, attempts: int, until: int, availableAt: int): seq<Message> {
    [Message(1, 0, ONE_ENVELOPE, status, attempts, until, availableAt)]
  }

  function OneQueued(queue: seq<Message>): Db {
    Db(ONE_EVENT, [Item(1, 0, ONE_ENVELOPE, true, 0)], queue, map[], [])
  }

  /** One event accepted, dispatched and claimed once. */
  lemma OneClaimed(maxAttempts: int) returns (steps: seq<Step>)
    ensures Run(steps, Config(10, maxAttempts))
            == System(OneQueued(OneMessage(Leased, 1, 10, 0)), [Worker(ONE_TICKET, Claimed)])
  {
    var config := Config(10, maxAttempts);
    var s1 := [AcceptStep(Key(1, 1), 7, 0)];
    assert [] + s1 == s1;
    RunOneMore([], AcceptStep(Key(1, 1), 7, 0), config, START);
    var accepted := System(Db(ONE_EVENT, [Item(1, 0, ONE_ENVELOPE, false, 0)], [], map[], []), []);
    assert Run(s1, config) == accepted;
    RunOneMore(s1, DispatchStep(0, 0), config, accepted);
    var queued := System(OneQueued(OneMessage(Available, 0, 0, 0)), []);
    assert Run(s1 + [DispatchStep(0, 0)], config) == queued;
    RunOneMore(s1 + [DispatchStep(0, 0)], ClaimStep(0, 0), config, queued);
    steps := s1 + [DispatchStep(0, 0)] + [ClaimStep(0, 0)];
  }

  /** Claimed again after its lease expired, for the second and last attempt; then the first worker fails. */
  lemma StaleFailure() returns (steps: seq<Step>)
    ensures Run(steps, Config(10, 2)).db.queue == OneMessage(Available, 2, 30, 22)
  {
    var config := Config(10, 2);
    var claimed := OneClaimed(2);
    var once := System(OneQueued(OneMessage(Leased, 1, 10, 0)), [Worker(ONE_TICKET, Claimed)]);
    var second := Worker(ONE_TICKET.(attempts := 2), Claimed);
    var twice := System(OneQueued(OneMessage(Leased, 2, 30, 0)), [Worker(ONE_TICKET, Claimed), second]);
    var stale := System(OneQueued(OneMessage(Leased, 2, 30, 0)), [Worker(ONE_TICKET, Failing(false)), second]);
    SecondClaim();
    RunOneMore(claimed, ClaimStep(0, 20), config, once);
    assert Next(twice, ErrorStep(0, false), config) == stale;
    RunOneMore(claimed + [ClaimStep(0, 20)], ErrorStep(0, false), config, twice);
    FirstFailure();
    RunOneMore(claimed + [ClaimStep(0, 20)] + [ErrorStep(0, false)], FailStep(0, 20), config, stale);
    steps := claimed + [ClaimStep(0, 20)] + [ErrorStep(0, false)] + [FailStep(0, 20)];
  }

  lemma SecondClaim()
    ensures Next(System(OneQueued(OneMessage(Leased, 1, 10, 0)), [Worker(ONE_TICKET, Claimed)]), ClaimStep(0, 20), Config(10, 2))
            == System(OneQueued(OneMessage(Leased, 2, 30, 0)),
                      [Worker(ONE_TICKET, Claimed), Worker(ONE_TICKET.(attempts := 2), Claimed)])
  {
  }

  lemma FirstFailure()
    ensures Next(System(OneQueued(OneMessage(Leased, 2, 30, 0)),
                        [Worker(ONE_TICKET, Failing(false)), Worker(ONE_TICKET.(attempts := 2), Claimed)]),
                 FailStep(0, 20), Config(10, 2)).db.queue
            == OneMessage(Available, 2, 30, 22)
  {
    assert Delay(1) == 2;
  }

  /** Without a token a stale failure reopens a message that used up its attempts: unlike a conversation row waiting
      to be retried, an available message can have max_attempts attempts behind it. */
  lemma StaleFailureReopens()
    ensures exists steps, config, j ::
      && 0 <= j < |Run(steps, config).db.queue|
      && Run(steps, config).db.queue[j].status == Available
      && Run(steps, config).db.queue[j].attempts >= config.maxAttempts
  {
    var steps := StaleFailure();
    var config := Config(10, 2);
    assert Run(steps, config).db.queue[0] == Message(1, 0, ONE_ENVELOPE, Available, 2, 30, 22);
  }

  /** Claimed once, the message's event processed, nothing completed. */
  function OneProcessed(): Db {
    OneQueued(OneMessage(Leased, 1, 10, 0)).(
      events := [Event(Key(1, 1), 7, Processed, 2)], receipts := map[0 := ONE_ENVELOPE], audits := [0])
  }

  lemma HandledOnce(config: Config, db: Db) returns (handled: seq<Step>)
    requires config == Config(10, 1) && db == OneProcessed()
    ensures Run(handled, config) == System(db, [Worker(ONE_TICKET, Finished)])
  {
    var claimed := OneClaimed(1);
    RunOneMore(claimed, HandleStep(0), config, System(OneQueued(OneMessage(Leased, 1, 10, 0)), [Worker(ONE_TICKET, Claimed)]));
    handled := claimed + [HandleStep(0)];
  }

  lemma FailingAfterProcessing(config: Config, db: Db) returns (failing: seq<Step>)
    requires config == Config(10, 1) && db == OneProcessed()
    ensures Run(failing, config) == System(db, [Worker(ONE_TICKET, Failing(false))])
  {
    var handled := HandledOnce(config, db);
    RunOneMore(handled, ErrorStep(0, false), config, System(db, [Worker(ONE_TICKET, Finished)]));
    failing := handled + [ErrorStep(0, false)];
  }

  /** A message can die although its event was processed: only completed, not dead, speaks about the event. */
  lemma DeadMessageOfProcessedEvent()
    ensures exists steps, config, j ::
      && 0 <= j < |Run(steps, config).db.queue|
      && Run(steps, config).db.queue[j].status == Dead
      && IsProcessed(Run(steps, config).db, Run(steps, config).db.queue[j].envelope.event)
  {
    var config := Config(10, 1);
    var db := OneProcessed();
    var failing := FailingAfterProcessing(config, db);
    RunOneMore(failing, FailStep(0, 0), config, System(db, [Worker(ONE_TICKET, Failing(false))]));
    var last := Run(failing + [FailStep(0, 0)], config);
    assert last.db.queue == OneMessage(Dead, 1, 10, Delay(1)) && last.db.events == db.events;
    assert IsProcessed(last.db, last.db.queue[0].envelope.event);
  }
}
