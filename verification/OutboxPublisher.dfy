// The outbox publisher as it works: a batch claimed in one transaction, then one delivery and one completion
// or failure per event.
module OutboxPublishers {
  import opened Wrappers
  import opened Outbox
  import Sorting

  // ---------------------------------------------------------------- the claim query

  function KeyOf(entries: seq<Entry>, i: int): int {
    if 0 <= i < |entries| then entries[i].nextAttempt else 0
  }

  /** The claim order: next attempt, then identifier. */
  function Order(entries: seq<Entry>): (int, int) -> bool {
    (a, b) => KeyOf(entries, a) < KeyOf(entries, b) || (KeyOf(entries, a) == KeyOf(entries, b) && a <= b)
  }

  function DueEvents(entries: seq<Entry>, now: int): seq<int> {
    DueBelow(entries, now, |entries|)
  }

  function DueBelow(entries: seq<Entry>, now: int, n: nat): (r: seq<int>)
    requires n <= |entries|
    ensures forall i :: i in r <==> 0 <= i < n && Due(entries[i], now)
  {
    if n == 0 then []
    else if Due(entries[n - 1], now) then DueBelow(entries, now, n - 1) + [n - 1]
    else DueBelow(entries, now, n - 1)
  }

  /** The batch a claim takes. */
  function Selected(entries: seq<Entry>, now: int, limit: nat): seq<int> {
    var sorted := Sorting.Sort(DueEvents(entries, now), Order(entries));
    if limit < |sorted| then sorted[..limit] else sorted
  }

  ghost predicate Distinct(s: seq<int>) {
    forall i, j :: 0 <= i < j < |s| ==> s[i] != s[j]
  }

  lemma {:induction false} DueOnce(entries: seq<Entry>, now: int, n: nat)
    requires n <= |entries|
    ensures forall i :: multiset(DueBelow(entries, now, n))[i] <= 1
  {
    if n != 0 {
      DueOnce(entries, now, n - 1);
      forall i ensures multiset(DueBelow(entries, now, n))[i] <= 1 {
        var before := DueBelow(entries, now, n - 1);
        if i == n - 1 {
          assert i !in before && i !in multiset(before);
        }
      }
    }
  }

  lemma OnceIsDistinct(s: seq<int>)
    requires forall x :: multiset(s)[x] <= 1
    ensures Distinct(s)
  {
    forall i, j | 0 <= i < j < |s| ensures s[i] != s[j] {
      var a, b := s[..j], s[j..];
      assert s == a + b;
      assert a[i] == s[i] && b[0] == s[j];
      assert s[i] in multiset(a) && s[j] in multiset(b);
      assert multiset(s) == multiset(a) + multiset(b);
      assert s[i] == s[j] ==> multiset(s)[s[i]] >= 2;
    }
  }

  lemma OrderIsPreorder(entries: seq<Entry>)
    ensures Sorting.TotalPreorder(Order(entries))
  {
  }

  lemma SelectedAreDue(entries: seq<Entry>, now: int, limit: nat)
    ensures Distinct(Selected(entries, now, limit))
    ensures forall i :: i in Selected(entries, now, limit) ==> 0 <= i < |entries| && Due(entries[i], now)
  {
    var due := DueEvents(entries, now);
    var sorted := Sorting.Sort(due, Order(entries));
    Sorting.SortPermutes(due, Order(entries));
    DueOnce(entries, now, |entries|);
    OnceIsDistinct(sorted);
    forall i | i in Selected(entries, now, limit) ensures 0 <= i < |entries| && Due(entries[i], now) {
      assert i in sorted && i in due;
    }
  }

  /** A batch holds due events, each once, earliest first, as many as the limit allows, and none left out comes before
      one taken. */
  lemma SelectedIsTheFirstDue(entries: seq<Entry>, now: int, limit: nat)
    ensures var batch := Selected(entries, now, limit);
            && Distinct(batch)
            && (forall i :: i in batch ==> 0 <= i < |entries| && Due(entries[i], now))
            && Sorting.SortedBy(batch, Order(entries))
            && |batch| <= limit
            && (forall i :: 0 <= i < |entries| && Due(entries[i], now) && i !in batch ==>
                  |batch| == limit && forall j :: j in batch ==> Order(entries)(j, i))
  {
    var due := DueEvents(entries, now);
    var sorted := Sorting.Sort(due, Order(entries));
    OrderIsPreorder(entries);
    Sorting.SortSorts(due, Order(entries));
    Sorting.SortPermutes(due, Order(entries));
    var batch := Selected(entries, now, limit);
    SelectedAreDue(entries, now, limit);
    forall i | 0 <= i < |entries| && Due(entries[i], now) && i !in batch
      ensures |batch| == limit && forall j :: j in batch ==> Order(entries)(j, i)
    {
      assert i in sorted;
      assert forall j :: 0 <= j < |batch| ==> batch[j] in batch && batch[j] == sorted[j];
      var k :| 0 <= k < |sorted| && sorted[k] == i;
    }
  }

  // ---------------------------------------------------------------- what a batch comes to

  datatype Answer = Accepts | Refuses(permanent: bool)

  function TicketFor(entries: seq<Entry>, i: int, token: int): Ticket {
    Ticket(i, token, if 0 <= i < |entries| then entries[i].attempts + 1 else 0)
  }

  /** An event after its claim was worked undisturbed. */
  function Worked(e: Entry, answer: Answer, later: int, maxAttempts: int): Entry {
    var claimed := e.(attempts := e.attempts + 1, lease := None);
    match answer
    case Accepts => claimed.(status := Published)
    case Refuses(permanent) =>
      claimed.(status := if permanent || e.attempts + 1 >= maxAttempts then Dead else Retry,
               nextAttempt := later + Delay(e.attempts + 1))
  }

  /** The deliveries of a batch: the accepted events, in claim order. */
  function Accepted(batch: seq<int>, sink: int -> Answer): seq<int> {
    if batch == [] then []
    else
      var i := batch[|batch| - 1];
      Accepted(batch[..|batch| - 1], sink) + (if sink(i) == Accepts then [i] else [])
  }

  datatype PublishResult = PublishResult(published: nat, retried: nat, dead: nat)

  function Counting(r: PublishResult, status: Status): PublishResult {
    if status == Published then r.(published := r.published + 1)
    else if status == Dead then r.(dead := r.dead + 1)
    else r.(retried := r.retried + 1)
  }

  function Events(tickets: seq<Ticket>): (r: seq<int>)
    ensures |r| == |tickets|
    ensures forall k :: 0 <= k < |r| ==> r[k] == tickets[k].event
  {
    seq(|tickets|, k requires 0 <= k < |tickets| => tickets[k].event)
  }

  /** The status a claimed event ends in. */
  function EndStatus(t: Ticket, answer: Answer, maxAttempts: int): Status {
    match answer
    case Accepts => Published
    case Refuses(permanent) => if IsDead(t, permanent, maxAttempts) then Dead else Retry
  }

  function Settled(e: Entry, t: Ticket, answer: Answer, later: int, maxAttempts: int): Entry {
    e.(status := EndStatus(t, answer, maxAttempts), lease := None,
       nextAttempt := if answer == Accepts then e.nextAttempt else later + Delay(t.attempts))
  }

  /** The tickets counted by the status they end in. */
  function Tally(tickets: seq<Ticket>, sink: int -> Answer, maxAttempts: int): PublishResult {
    if tickets == [] then PublishResult(0, 0, 0)
    else
      var last := tickets[|tickets| - 1];
      Counting(Tally(tickets[..|tickets| - 1], sink, maxAttempts), EndStatus(last, sink(last.event), maxAttempts))
  }

  /** Each ticket owns its event, and no two name the same one. */
  ghost predicate AllOwn(entries: seq<Entry>, tickets: seq<Ticket>) {
    && (forall j, k :: 0 <= j < k < |tickets| ==> tickets[j].event != tickets[k].event)
    && (forall k :: 0 <= k < |tickets| ==>
          Owns(entries, tickets[k]) && entries[tickets[k].event].attempts == tickets[k].attempts)
  }

  /** The events after all the tickets were worked in turn. */
  function WorkAll(entries: seq<Entry>, tickets: seq<Ticket>, sink: int -> Answer, later: int, maxAttempts: int)
    : (r: seq<Entry>)
    ensures |r| == |entries|
  {
    if tickets == [] then entries
    else
      var t := tickets[|tickets| - 1];
      var before := WorkAll(entries, tickets[..|tickets| - 1], sink, later, maxAttempts);
      if 0 <= t.event < |before|
      then before[t.event := Settled(before[t.event], t, sink(t.event), later, maxAttempts)]
      else before
  }

  /** Distinct tickets settle each its own event, from the state it was claimed in, and no other. */
  lemma {:induction false} WorkAllSettlesEach(
    entries: seq<Entry>, tickets: seq<Ticket>, sink: int -> Answer, later: int, maxAttempts: int)
    requires AllOwn(entries, tickets)
    ensures var after := WorkAll(entries, tickets, sink, later, maxAttempts);
            && (forall k :: 0 <= k < |tickets| ==>
                  after[tickets[k].event] ==
                    Settled(entries[tickets[k].event], tickets[k], sink(tickets[k].event), later, maxAttempts))
            && (forall i :: 0 <= i < |entries| && i !in Events(tickets) ==> after[i] == entries[i])
  {
    if tickets != [] {
      var front, last := tickets[..|tickets| - 1], tickets[|tickets| - 1];
      WorkAllSettlesEach(entries, front, sink, later, maxAttempts);
      assert Events(tickets) == Events(front) + [last.event];
      forall k | 0 <= k < |front| ensures front[k].event in Events(front) && front[k].event != last.event {
        assert Events(front)[k] == front[k].event && front[k] == tickets[k];
      }
      assert last.event !in Events(front);
    }
  }

  lemma NextTicketOwns(
    entries: seq<Entry>, tickets: seq<Ticket>, n: nat, sink: int -> Answer, later: int, maxAttempts: int)
    requires AllOwn(entries, tickets) && n < |tickets|
    ensures var now := WorkAll(entries, tickets[..n], sink, later, maxAttempts);
            Owns(now, tickets[n]) && now[tickets[n].event] == entries[tickets[n].event]
  {
    assert tickets[n].event !in Events(tickets[..n]);
    WorkAllSettlesEach(entries, tickets[..n], sink, later, maxAttempts);
  }

  lemma TicketsGrow(
    entries: seq<Entry>, tickets: seq<Ticket>, n: nat, sink: int -> Answer, later: int, maxAttempts: int)
    requires n < |tickets| && 0 <= tickets[n].event < |entries|
    ensures Accepted(Events(tickets[..n + 1]), sink)
            == Accepted(Events(tickets[..n]), sink) + (if sink(tickets[n].event) == Accepts then [tickets[n].event] else [])
    ensures Tally(tickets[..n + 1], sink, maxAttempts)
            == Counting(Tally(tickets[..n], sink, maxAttempts), EndStatus(tickets[n], sink(tickets[n].event), maxAttempts))
    ensures WorkAll(entries, tickets[..n + 1], sink, later, maxAttempts)
            == var now := WorkAll(entries, tickets[..n], sink, later, maxAttempts);
               now[tickets[n].event := Settled(now[tickets[n].event], tickets[n], sink(tickets[n].event), later, maxAttempts)]
  {
    assert tickets[..n + 1][..n] == tickets[..n];
    assert Events(tickets[..n + 1])[..n] == Events(tickets[..n]);
  }

  /** Every ticket is counted once, and the published ones are those the sink accepted. */
  lemma {:induction false} TallyIsTotal(tickets: seq<Ticket>, sink: int -> Answer, maxAttempts: int)
    ensures var r := Tally(tickets, sink, maxAttempts);
            && r.published + r.retried + r.dead == |tickets|
            && r.published == |Accepted(Events(tickets), sink)|
  {
    if tickets != [] {
      var front := tickets[..|tickets| - 1];
      TallyIsTotal(front, sink, maxAttempts);
      assert Events(tickets)[..|tickets| - 1] == Events(front);
    }
  }

  /** A batch claimed from `before`, ticket by ticket. */
  ghost predicate ClaimedFrom(
    before: seq<Entry>, claimed: seq<Entry>, batch: seq<int>, tickets: seq<Ticket>, token: int, until: int)
  {
    && |tickets| == |batch| && |claimed| == |before|
    && (forall k :: 0 <= k < |batch| ==> 0 <= batch[k] < |before| && tickets[k] == TicketFor(before, batch[k], token + k))
    && (forall i :: 0 <= i < |before| && i !in batch ==> claimed[i] == before[i])
    && (forall k :: 0 <= k < |batch| ==> claimed[batch[k]] == ClaimedEntry(before[batch[k]], token + k, until))
  }

  lemma ClaimOneMore(
    before: seq<Entry>, claimed: seq<Entry>, batch: seq<int>, n: nat, tickets: seq<Ticket>, ticket: Ticket,
    token: int, next: int, until: int)
    requires n < |batch| && Distinct(batch) && 0 <= batch[n] < |before| && next == token + n
    requires ClaimedFrom(before, claimed, batch[..n], tickets, token, until)
    requires ticket == Ticket(batch[n], next, claimed[batch[n]].attempts + 1)
    ensures ClaimedFrom(before, claimed[batch[n] := ClaimedEntry(claimed[batch[n]], next, until)], batch[..n + 1],
                        tickets + [ticket], token, until)
  {
    assert batch[n] !in batch[..n];
  }

  lemma ClaimedOwn(
    before: seq<Entry>, claimed: seq<Entry>, tickets: seq<Ticket>, now: int, limit: nat, token: int, until: int)
    requires ClaimedFrom(before, claimed, Selected(before, now, limit), tickets, token, until)
    ensures AllOwn(claimed, tickets) && Events(tickets) == Selected(before, now, limit)
  {
    SelectedIsTheFirstDue(before, now, limit);
  }

  /** Every event of the batch worked once from where it stood, every other event as it was. */
  ghost predicate BatchWorked(
    before: seq<Entry>, after: seq<Entry>, batch: seq<int>, sink: int -> Answer, later: int, maxAttempts: int)
  {
    && |after| == |before|
    && (forall i :: 0 <= i < |after| && i !in batch ==> after[i] == before[i])
    && (forall k :: 0 <= k < |batch| ==>
          0 <= batch[k] < |after| && after[batch[k]] == Worked(before[batch[k]], sink(batch[k]), later, maxAttempts))
  }

  lemma ClaimedThenWorked(
    before: seq<Entry>, claimed: seq<Entry>, batch: seq<int>, tickets: seq<Ticket>, token: int, until: int,
    later: int, sink: int -> Answer, maxAttempts: int)
    requires ClaimedFrom(before, claimed, batch, tickets, token, until)
    requires AllOwn(claimed, tickets) && Events(tickets) == batch
    ensures BatchWorked(before, WorkAll(claimed, tickets, sink, later, maxAttempts), batch, sink, later, maxAttempts)
  {
    var after := WorkAll(claimed, tickets, sink, later, maxAttempts);
    WorkAllSettlesEach(claimed, tickets, sink, later, maxAttempts);
    forall k | 0 <= k < |batch|
      ensures after[batch[k]] == Worked(before[batch[k]], sink(batch[k]), later, maxAttempts)
    {
      assert batch[k] == tickets[k].event;
    }
  }

  class OutboxPublisher {
    var entries: seq<Entry>
    var nextToken: int
    var deliveries: seq<int>
    const config: Config

    constructor (config: Config)
      ensures entries == [] && deliveries == [] && nextToken == 0 && this.config == config
    {
      entries, nextToken, deliveries := [], 0, [];
      this.config := config;
    }

    method ClaimBatch(now: int, limit: nat) returns (tickets: seq<Ticket>)
      modifies this`entries, this`nextToken
      ensures ClaimedFrom(old(entries), entries, Selected(old(entries), now, limit), tickets, old(nextToken),
                          now + config.leaseSeconds)
      ensures nextToken == old(nextToken) + |tickets|
    {
      SelectedAreDue(entries, now, limit);
      tickets := ClaimEvents(Selected(entries, now, limit), now + config.leaseSeconds);
    }

    method ClaimEvents(batch: seq<int>, until: int) returns (tickets: seq<Ticket>)
      requires Distinct(batch) && forall i :: i in batch ==> 0 <= i < |entries|
      modifies this`entries, this`nextToken
      ensures ClaimedFrom(old(entries), entries, batch, tickets, old(nextToken), until)
      ensures nextToken == old(nextToken) + |tickets|
    {
      tickets := [];
      for n := 0 to |batch|
        invariant nextToken == old(nextToken) + n && |tickets| == n
        invariant ClaimedFrom(old(entries), entries, batch[..n], tickets, old(nextToken), until)
      {
        assert batch[n] in batch;
        var row := entries[batch[n]];
        var ticket := Ticket(batch[n], nextToken, row.attempts + 1);
        ClaimOneMore(old(entries), entries, batch, n, tickets, ticket, old(nextToken), nextToken, until);
        entries := entries[batch[n] := ClaimedEntry(row, nextToken, until)];
        tickets := tickets + [ticket];
        nextToken := nextToken + 1;
      }
      assert batch[..|batch|] == batch;
    }

    /** False when the lease was lost: the caller sees an OutboxPublicationError. */
    method Complete(t: Ticket) returns (ok: bool)
      modifies this`entries
      ensures ok <==> Owns(old(entries), t)
      ensures !Owns(entries, t)
      ensures entries ==
              if ok then old(entries)[t.event := old(entries)[t.event].(status := Published, lease := None)] else old(entries)
    {
      ok := Owns(entries, t);
      if ok {
        entries := entries[t.event := entries[t.event].(status := Published, lease := None)];
      }
    }

    method Fail(t: Ticket, permanent: bool, now: int) returns (ok: bool)
      modifies this`entries
      ensures ok <==> Owns(old(entries), t)
      ensures !Owns(entries, t)
      ensures entries ==
              if ok then old(entries)[t.event := FailedEntry(old(entries)[t.event], t, permanent, now, config.maxAttempts)]
              else old(entries)
    {
      ok := Owns(entries, t);
      if ok {
        entries := entries[t.event := FailedEntry(entries[t.event], t, permanent, now, config.maxAttempts)];
      }
    }

    /** Deliver one claimed event and settle it. */
    method PublishOne(t: Ticket, answer: Answer, later: int) returns (status: Status)
      requires Owns(entries, t) && entries[t.event].attempts == t.attempts
      modifies this`entries, this`deliveries
      ensures status == EndStatus(t, answer, config.maxAttempts)
      ensures entries == old(entries)[t.event := Settled(old(entries)[t.event], t, answer, later, config.maxAttempts)]
      ensures deliveries == old(deliveries) + (if answer == Accepts then [t.event] else [])
    {
      var permanent := false;
      match answer {
        case Accepts =>
          deliveries := deliveries + [t.event];
          var ok := Complete(t);
          if ok {
            return Published;
          }
        case Refuses(p) =>
          permanent := p;
      }
      status := if IsDead(t, permanent, config.maxAttempts) then Dead else Retry;
      var ok := Fail(t, permanent, later);
    }

    /** Work tickets that all own their events, one after the other. */
    method PublishTickets(tickets: seq<Ticket>, later: int, sink: int -> Answer) returns (result: PublishResult)
      requires AllOwn(entries, tickets)
      modifies this`entries, this`deliveries
      ensures entries == WorkAll(old(entries), tickets, sink, later, config.maxAttempts)
      ensures deliveries == old(deliveries) + Accepted(Events(tickets), sink)
      ensures result == Tally(tickets, sink, config.maxAttempts)
    {
      result := PublishResult(0, 0, 0);
      for n := 0 to |tickets|
        invariant entries == WorkAll(old(entries), tickets[..n], sink, later, config.maxAttempts)
        invariant deliveries == old(deliveries) + Accepted(Events(tickets[..n]), sink)
        invariant result == Tally(tickets[..n], sink, config.maxAttempts)
      {
        var t := tickets[n];
        NextTicketOwns(old(entries), tickets, n, sink, later, config.maxAttempts);
        var status := PublishOne(t, sink(t.event), later);
        result := Counting(result, status);
        TicketsGrow(old(entries), tickets, n, sink, later, config.maxAttempts);
      }
      assert tickets[..|tickets|] == tickets;
    }

    /** One batch with no other publisher in between: every selected event is worked once, the others stay, and the
        counters count the events of the batch by the status they end in. */
    method PublishBatch(now: int, later: int, limit: nat, sink: int -> Answer) returns (result: PublishResult)
      modifies this`entries, this`nextToken, this`deliveries
      ensures BatchWorked(old(entries), entries, Selected(old(entries), now, limit), sink, later, config.maxAttempts)
      ensures deliveries == old(deliveries) + Accepted(Selected(old(entries), now, limit), sink)
      ensures result.published + result.retried + result.dead == |Selected(old(entries), now, limit)|
      ensures result.published == |Accepted(Selected(old(entries), now, limit), sink)|
    {
      ghost var before, token, until := entries, nextToken, now + config.leaseSeconds;
      var tickets := ClaimBatch(now, limit);
      ClaimedOwn(before, entries, tickets, now, limit, token, until);
      ClaimedThenWorked(before, entries, Events(tickets), tickets, token, until, later, sink, config.maxAttempts);
      result := PublishTickets(tickets, later, sink);
      TallyIsTotal(tickets, sink, config.maxAttempts);
    }
  }
}
