// The older pipeline as it works: one class for the event store, the outbox dispatcher, the queue and the worker
// cycle, each transaction tied to its function in module Synthetic.
module SyntheticPipelines {
  import opened Wrappers
  import opened Synthetic
  import Sorting

  // ---------------------------------------------------------------- the dispatch query

  function PendingBelow(db: Db, now: int, n: nat): (r: seq<int>)
    requires n <= |db.items|
    ensures forall i :: i in r <==> 0 <= i < n && Pending(db, i, now)
  {
    if n == 0 then []
    else if Pending(db, n - 1, now) then PendingBelow(db, now, n - 1) + [n - 1]
    else PendingBelow(db, now, n - 1)
  }

  function AvailabilityOf(items: seq<Item>, i: int): int {
    if 0 <= i < |items| then items[i].availableAt else 0
  }

  /** The dispatch order: availability, then identifier. */
  function ItemOrder(items: seq<Item>): (int, int) -> bool {
    (a, b) => AvailabilityOf(items, a) < AvailabilityOf(items, b)
              || (AvailabilityOf(items, a) == AvailabilityOf(items, b) && a <= b)
  }

  /** The batch a dispatch takes: the first pending items, up to the limit. */
  function SelectedItems(db: Db, now: int, limit: nat): seq<int> {
    var sorted := Sorting.Sort(PendingBelow(db, now, |db.items|), ItemOrder(db.items));
    if limit < |sorted| then sorted[..limit] else sorted
  }

  lemma SelectedItemsAreFirstPending(db: Db, now: int, limit: nat)
    ensures var batch := SelectedItems(db, now, limit);
            && |batch| <= limit
            && (forall i :: i in batch ==> Pending(db, i, now))
            && Sorting.SortedBy(batch, ItemOrder(db.items))
            && (forall i :: Pending(db, i, now) && i !in batch ==>
                  |batch| == limit && forall j :: j in batch ==> ItemOrder(db.items)(j, i))
  {
    var pending := PendingBelow(db, now, |db.items|);
    var sorted := Sorting.Sort(pending, ItemOrder(db.items));
    assert Sorting.TotalPreorder(ItemOrder(db.items));
    Sorting.SortSorts(pending, ItemOrder(db.items));
    Sorting.SortPermutes(pending, ItemOrder(db.items));
    var batch := SelectedItems(db, now, limit);
    assert forall j :: 0 <= j < |batch| ==> batch[j] in batch && batch[j] == sorted[j];
    forall i | i in batch ensures Pending(db, i, now) {
      assert i in sorted && i in pending;
    }
    forall i | Pending(db, i, now) && i !in batch
      ensures |batch| == limit && forall j :: j in batch ==> ItemOrder(db.items)(j, i)
    {
      assert i in sorted;
      var k :| 0 <= k < |sorted| && sorted[k] == i;
    }
  }

  /** Items dispatched one after the other in one transaction. */
  function DispatchAll(db: Db, batch: seq<int>, now: int): (r: Db)
    ensures |r.items| == |db.items|
  {
    if batch == [] then db
    else
      var before := DispatchAll(db, batch[..|batch| - 1], now);
      var i := batch[|batch| - 1];
      if 0 <= i < |before.items| then Dispatch(before, i, now) else before
  }

  lemma DispatchStarts(db: Db, batch: seq<int>, now: int)
    requires Sound(db)
    requires forall k :: 0 <= k < |batch| ==> 0 <= batch[k] < |db.items|
    ensures Sound(DispatchAll(db, batch, now)) && Continues(db, DispatchAll(db, batch, now))
    ensures DispatchAll(db, batch, now).events == db.events && DispatchAll(db, batch, now).audits == db.audits
  {
    if batch == [] {
      ContinuesHere(db);
    } else {
      var before := DispatchAll(db, batch[..|batch| - 1], now);
      DispatchStarts(db, batch[..|batch| - 1], now);
      DispatchKeepsSound(before, batch[|batch| - 1], now);
      ContinuesCompose(db, before, DispatchAll(db, batch, now));
    }
  }

  /** A dispatched batch leaves each of its items published, which in a sound state means with its one message, and
      every other item as it was. */
  lemma {:induction false} DispatchAllPublishes(db: Db, batch: seq<int>, now: int)
    requires forall k :: 0 <= k < |batch| ==> 0 <= batch[k] < |db.items|
    ensures var after := DispatchAll(db, batch, now);
            forall i :: 0 <= i < |db.items| ==>
              after.items[i] == if i in batch then db.items[i].(published := true) else db.items[i]
  {
    if batch != [] {
      var front, last := batch[..|batch| - 1], batch[|batch| - 1];
      DispatchAllPublishes(db, front, now);
      assert batch == front + [last];
    }
  }

  /** What one message comes to in a worker cycle: handled and completed, or failed on a fault. */
  datatype CycleResult = CycleResult(dispatched: nat, processed: nat, duplicates: nat, failed: nat)

  class Pipeline {
    var events: seq<Event>
    var items: seq<Item>
    var queue: seq<Message>
    var receipts: map<int, Envelope>
    var audits: seq<int>
    const config: Config

    constructor (config: Config)
      ensures State() == EMPTY && this.config == config
    {
      events, items, queue, receipts, audits := [], [], [], map[], [];
      this.config := config;
    }

    function State(): Db
      reads this
    {
      Db(events, items, queue, receipts, audits)
    }

    method AcceptEvent(key: Key, payload: int, now: int) returns (answer: Acceptance)
      modifies this`events, this`items
      ensures (State(), answer) == Accept(old(State()), key, payload, now)
      ensures Sound(old(State())) ==> Sound(State()) && Continues(old(State()), State())
      ensures answer != Conflict ==>
        0 <= answer.event < |events| && events[answer.event].key == key && events[answer.event].payload == payload
    {
      ghost var before := State();
      AcceptAnswers(before, key, payload, now);
      var slot := EventSlot(events, key);
      if slot < |events| {
        return if events[slot].payload != payload then Conflict else Existing(slot);
      }
      events := events + [Event(key, payload, Accepted, 1)];
      items := items + [Item(key.tenant, slot, Envelope(slot, key.tenant, payload), false, now)];
      answer := Created(slot);
    }

    method DispatchBatch(batch: seq<int>, now: int)
      requires forall k :: 0 <= k < |batch| ==> 0 <= batch[k] < |items|
      modifies this`items, this`queue
      ensures State() == DispatchAll(old(State()), batch, now)
    {
      for n := 0 to |batch|
        invariant State() == DispatchAll(old(State()), batch[..n], now)
      {
        var i := batch[n];
        if MessageSlot(queue, i) == |queue| {
          queue := queue + [Message(items[i].tenant, i, items[i].envelope, Available, 0, 0, now)];
        }
        items := items[i := items[i].(published := true)];
        assert batch[..n + 1][..n] == batch[..n];
      }
      assert batch[..|batch|] == batch;
    }

    /** The first claimable message by availability, then identifier. */
    method ClaimMessage(now: int) returns (ticket: Option<Ticket>)
      modifies this`queue
      ensures ticket.None? ==>
        State() == old(State()) && forall j :: 0 <= j < |queue| ==> !Claimable(queue[j], now)
      ensures ticket.Some? ==>
        var j := ticket.value.message;
        && 0 <= j < |old(queue)| && Claimable(old(queue)[j], now)
        && (forall k :: 0 <= k < |old(queue)| && Claimable(old(queue)[k], now) ==>
              old(queue)[j].availableAt < old(queue)[k].availableAt
              || (old(queue)[j].availableAt == old(queue)[k].availableAt && j <= k))
        && ticket.value == TicketOf(old(State()), j)
        && State() == Claim(old(State()), j, now + config.leaseSeconds)
    {
      var best := -1;
      for n := 0 to |queue|
        invariant -1 <= best < n
        invariant best == -1 ==> forall k :: 0 <= k < n ==> !Claimable(queue[k], now)
        invariant best != -1 ==>
          && Claimable(queue[best], now)
          && forall k :: 0 <= k < n && Claimable(queue[k], now) ==>
               queue[best].availableAt < queue[k].availableAt
               || (queue[best].availableAt == queue[k].availableAt && best <= k)
      {
        if Claimable(queue[n], now) && (best == -1 || queue[n].availableAt < queue[best].availableAt) {
          best := n;
        }
      }
      if best == -1 {
        return None;
      }
      var row := queue[best];
      queue := queue[best := row.(status := Leased, attempts := row.attempts + 1, until := now + config.leaseSeconds)];
      ticket := Some(Ticket(best, row.tenant, row.envelope, row.attempts + 1));
    }

    /** None stands for a permanent error. */
    method ProcessMessage(t: Ticket) returns (effect: Option<bool>)
      modifies this`events, this`receipts, this`audits
      ensures match Handle(old(State()), t)
              case Refused => effect == None && State() == old(State())
              case Handled(db, applied) => effect == Some(applied) && State() == db
    {
      var e := t.envelope.event;
      if t.envelope.tenant != t.tenant || !(0 <= e < |events|) || events[e].key.tenant != t.tenant {
        return None;
      }
      if events[e].payload != t.envelope.payload {
        return None;
      }
      if t.message in receipts {
        return if receipts[t.message] != t.envelope then None else Some(false);
      }
      var before := receipts;
      receipts := receipts[t.message := t.envelope];
      if events[e].status == Processed {
        return Some(false);
      }
      if events[e].status != Accepted {
        receipts := before;
        return None;
      }
      events := events[e := events[e].(status := Processed, version := events[e].version + 1)];
      audits := audits + [e];
      effect := Some(true);
    }

    method CompleteMessage(j: int) returns (ok: bool)
      modifies this`queue
      ensures ok <==> Complete(old(State()), j).Some?
      ensures State() == if ok then Complete(old(State()), j).value else old(State())
      ensures ok <==> 0 <= j < |queue| && queue[j].status == Completed
      ensures Sound(old(State())) && 0 <= j < |old(queue)| && j in old(receipts) ==>
        Sound(State()) && Continues(old(State()), State())
    {
      CompletingReceived(State(), j);
      if IsLeased(State(), j) {
        queue := queue[j := queue[j].(status := Completed)];
        return true;
      }
      ok := 0 <= j < |queue| && queue[j].status == Completed;
    }

    method FailMessage(t: Ticket, permanent: bool, now: int)
      modifies this`queue
      ensures State() == Fail(old(State()), t, permanent, now, config.maxAttempts)
      ensures !IsLeased(State(), t.message)
      ensures Sound(old(State())) ==> Sound(State()) && Continues(old(State()), State())
    {
      FailingKeepsSound(State(), t, permanent, now, config.maxAttempts);
      var isDead := permanent || t.attempts >= config.maxAttempts;
      if IsLeased(State(), t.message) {
        var row := queue[t.message];
        queue := queue[t.message :=
          row.(status := if isDead then Dead else Available, availableAt := now + Delay(t.attempts))];
      }
    }

    /** Handle one claimed message: a fault stands for an error raised before the message is completed. */
    method WorkMessage(t: Ticket, fault: Option<bool>, now: int) returns (effect: Option<bool>)
      requires Sound(State()) && IsLeased(State(), t.message)
      requires t.envelope == queue[t.message].envelope && t.tenant == queue[t.message].tenant
      modifies this`events, this`queue, this`receipts, this`audits
      ensures Sound(State()) && Continues(old(State()), State())
      ensures fault == None ==>
        && effect == Some(!IsProcessed(old(State()), t.envelope.event))
        && queue[t.message].status == Completed && IsProcessed(State(), t.envelope.event)
      ensures fault.Some? ==> effect == None && queue[t.message].status != Leased
      ensures |audits| == |old(audits)| + (if effect == Some(true) then 1 else 0)
    {
      if fault.Some? {
        var failed := Fail(State(), t, fault.value, now, config.maxAttempts);
        TouchKeepsSound(State(), t.message, failed.queue[t.message]);
        FailMessage(t, fault.value, now);
        return None;
      }
      HandleKeepsSound(State(), t);
      HandleApplies(State(), t);
      HandleWrites(State(), t);
      effect := ProcessMessage(t);
      TouchKeepsSound(State(), t.message, queue[t.message].(status := Completed));
      var ok := CompleteMessage(t.message);
    }

    /** A worker cycle with no other worker in between. Faults are given by position. It applies as many effects as it
        counts, and stops short of its batch size only when nothing is left to claim. */
    method RunCycle(batchSize: nat, now: int, faults: int -> Option<bool>) returns (result: CycleResult)
      requires Sound(State())
      modifies this
      ensures Sound(State()) && Continues(old(State()), State())
      ensures result.dispatched == |SelectedItems(old(State()), now, batchSize)|
      ensures |audits| == |old(audits)| + result.processed
      ensures result.processed + result.duplicates + result.failed <= batchSize
      ensures result.processed + result.duplicates + result.failed < batchSize ==>
        forall j :: 0 <= j < |queue| ==> !Claimable(queue[j], now)
    {
      var batch := SelectedItems(State(), now, batchSize);
      SelectedItemsAreFirstPending(State(), now, batchSize);
      assert forall k :: 0 <= k < |batch| ==> batch[k] in batch && Pending(State(), batch[k], now);
      DispatchStarts(State(), batch, now);
      DispatchBatch(batch, now);
      result := CycleResult(|batch|, 0, 0, 0);
      ghost var start := old(State());
      for n := 0 to batchSize
        invariant Sound(State()) && Continues(start, State())
        invariant result.dispatched == |batch| && result.processed + result.duplicates + result.failed == n
        invariant |audits| == |old(audits)| + result.processed
      {
        ghost var before := State();
        var ticket := ClaimMessage(now);
        if ticket.None? {
          break;
        }
        TouchKeepsSound(before, ticket.value.message, queue[ticket.value.message]);
        ghost var claimed := State();
        var effect := WorkMessage(ticket.value, faults(n), now);
        ContinuesCompose(start, before, claimed);
        ContinuesCompose(start, claimed, State());
        match effect {
          case None => result := result.(failed := result.failed + 1);
          case Some(applied) =>
            if applied {
              result := result.(processed := result.processed + 1);
            } else {
              result := result.(duplicates := result.duplicates + 1);
            }
        }
      }
    }
  }

  lemma AcceptAnswers(db: Db, key: Key, payload: int, now: int)
    ensures var (after, answer) := Accept(db, key, payload, now);
            && (Sound(db) ==> Sound(after) && Continues(db, after))
            && (answer != Conflict ==>
                  0 <= answer.event < |after.events| && after.events[answer.event].key == key
                  && after.events[answer.event].payload == payload)
  {
    if Sound(db) {
      AcceptKeepsSound(db, key, payload, now);
    }
  }

  /** Completing keeps the invariant as long as the message holds a receipt, that is, as long as its event is processed. */
  lemma CompletingReceived(db: Db, j: int)
    ensures Sound(db) && 0 <= j < |db.queue| && j in db.receipts && Complete(db, j).Some? ==>
      Sound(Complete(db, j).value) && Continues(db, Complete(db, j).value)
    ensures Sound(db) ==> Continues(db, db)
  {
    if Sound(db) && IsLeased(db, j) && j in db.receipts {
      TouchKeepsSound(db, j, db.queue[j].(status := Completed));
    }
  }

  lemma FailingKeepsSound(db: Db, t: Ticket, permanent: bool, now: int, maxAttempts: int)
    ensures Sound(db) ==>
      Sound(Fail(db, t, permanent, now, maxAttempts)) && Continues(db, Fail(db, t, permanent, now, maxAttempts))
  {
    if Sound(db) && IsLeased(db, t.message) {
      TouchKeepsSound(db, t.message, Fail(db, t, permanent, now, maxAttempts).queue[t.message]);
    }
  }

  lemma ContinuesCompose(a: Db, b: Db, c: Db)
    requires Continues(a, b) && Continues(b, c)
    ensures Continues(a, c)
  {
  }
}
