// The conversation outbox: events claimed under a fresh lease token, delivered to a sink, then completed or
// failed as the owner of the lease. Every transaction is one step; deliveries happen outside transactions.
module Outbox {
  import opened Wrappers

  datatype Status = Pending | Publishing | Retry | Published | Dead

  datatype Lease = Lease(token: int, until: int)

  datatype Entry = Entry(status: Status, attempts: int, lease: Option<Lease>, nextAttempt: int)

  // What a claim hands to the publisher.
  datatype Ticket = Ticket(event: int, token: int, attempts: int)

  datatype Phase = Claimed | Delivered | Failing(permanent: bool) | Stopped

  datatype Publisher = Publisher(ticket: Ticket, phase: Phase)

  datatype Outcome = Outcome(ticket: Ticket, status: Status)

  // `deliveries` lists the events the sink received and `log` the outcomes that were committed, in order.
  datatype System = System(
    entries: seq<Entry>, nextToken: int, publishers: map<int, Publisher>, deliveries: seq<int>, log: seq<Outcome>)

  const START := System([], 0, map[], [], [])

  datatype Config = Config(leaseSeconds: nat, maxAttempts: int)

  datatype Step =
    | AddStep(now: int)
    | ClaimStep(event: int, now: int)
    | DeliverStep(token: int)
    | RefuseStep(token: int, permanent: bool)
    | CompleteStep(token: int)
    | ErrorStep(token: int, permanent: bool)
    | FailStep(token: int, now: int)
    | CrashStep(token: int)

  predicate Due(e: Entry, now: int) {
    && e.nextAttempt <= now
    && (e.status == Pending || e.status == Retry
        || (e.status == Publishing && e.lease.Some? && e.lease.value.until <= now))
  }

  function ClaimedEntry(e: Entry, token: int, until: int): Entry {
    e.(status := Publishing, attempts := e.attempts + 1, lease := Some(Lease(token, until)))
  }

  predicate Owns(entries: seq<Entry>, t: Ticket) {
    && 0 <= t.event < |entries|
    && entries[t.event].status == Publishing
    && entries[t.event].lease.Some? && entries[t.event].lease.value.token == t.token
  }

  function Delay(attempts: int): int {
    DoublingDelay(attempts, 300)
  }

  /** An error is final when it is permanent or the claim used the last attempt. */
  predicate IsDead(t: Ticket, permanent: bool, maxAttempts: int) {
    permanent || t.attempts >= maxAttempts
  }

  function FailedEntry(e: Entry, t: Ticket, permanent: bool, now: int, maxAttempts: int): Entry {
    e.(status := if IsDead(t, permanent, maxAttempts) then Dead else Retry, lease := None,
       nextAttempt := now + Delay(t.attempts))
  }

  function SetPhase(s: System, token: int, phase: Phase): System
    requires token in s.publishers
  {
    s.(publishers := s.publishers[token := s.publishers[token].(phase := phase)])
  }

  predicate In(s: System, token: int, phase: Phase) {
    token in s.publishers && s.publishers[token].phase == phase
  }

  /** Write the outcome of a ticket that owns its event. */
  function Settle(s: System, token: int, entry: Entry): System
    requires token in s.publishers && 0 <= s.publishers[token].ticket.event < |s.entries|
  {
    var ticket := s.publishers[token].ticket;
    SetPhase(s.(entries := s.entries[ticket.event := entry], log := s.log + [Outcome(ticket, entry.status)]), token, Stopped)
  }

  function Next(s: System, step: Step, config: Config): System {
    match step
    case AddStep(now) => s.(entries := s.entries + [Entry(Pending, 0, None, now)])
    case ClaimStep(i, now) =>
      if !(0 <= i < |s.entries|) || !Due(s.entries[i], now) then s
      else
        var t := s.nextToken;
        s.(nextToken := t + 1,
           entries := s.entries[i := ClaimedEntry(s.entries[i], t, now + config.leaseSeconds)],
           publishers := s.publishers[t := Publisher(Ticket(i, t, s.entries[i].attempts + 1), Claimed)])
    case DeliverStep(token) =>
      if !In(s, token, Claimed) then s
      else SetPhase(s.(deliveries := s.deliveries + [s.publishers[token].ticket.event]), token, Delivered)
    case RefuseStep(token, permanent) =>
      if !In(s, token, Claimed) then s else SetPhase(s, token, Failing(permanent))
    case CompleteStep(token) =>
      if !In(s, token, Delivered) then s
      else
        var t := s.publishers[token].ticket;
        if !Owns(s.entries, t) then SetPhase(s, token, Failing(false))
        else Settle(s, token, s.entries[t.event].(status := Published, lease := None))
    case ErrorStep(token, permanent) =>
      if !In(s, token, Delivered) then s else SetPhase(s, token, Failing(permanent))
    case FailStep(token, now) =>
      if token !in s.publishers || !s.publishers[token].phase.Failing? then s
      else
        var t := s.publishers[token].ticket;
        if !Owns(s.entries, t) then SetPhase(s, token, Stopped)
        else Settle(s, token, FailedEntry(s.entries[t.event], t, s.publishers[token].phase.permanent, now, config.maxAttempts))
    case CrashStep(token) =>
      if token !in s.publishers then s else SetPhase(s, token, Stopped)
  }

  function Run(steps: seq<Step>, config: Config): System {
    if steps == [] then START else Next(Run(steps[..|steps| - 1], config), steps[|steps| - 1], config)
  }

  // ---------------------------------------------------------------- counting

  /** How many retries of an event the log records. */
  function Retries(log: seq<Outcome>, event: int): nat {
    if log == [] then 0
    else
      Retries(log[..|log| - 1], event)
      + (if log[|log| - 1].ticket.event == event && log[|log| - 1].status == Retry then 1 else 0)
  }

  lemma RetriesAppend(log: seq<Outcome>, o: Outcome, event: int)
    ensures Retries(log + [o], event) == Retries(log, event) + (if o.ticket.event == event && o.status == Retry then 1 else 0)
  {
    assert (log + [o])[..|log|] == log;
  }

  /** The publishers of an event that may still deliver it. */
  function Waiting(publishers: map<int, Publisher>, event: int): set<int> {
    set t | t in publishers && publishers[t].ticket.event == event && publishers[t].phase == Claimed
  }

  // ---------------------------------------------------------------- the invariant

  predicate Issued(publishers: map<int, Publisher>, token: int, event: int) {
    token in publishers && publishers[token].ticket.event == event
  }

  ghost predicate TokenIffPublishing(s: System) {
    forall i :: 0 <= i < |s.entries| ==>
      && s.entries[i].attempts >= 0
      && (s.entries[i].lease.Some? <==> s.entries[i].status == Publishing)
      && (s.entries[i].lease.Some? ==> Issued(s.publishers, s.entries[i].lease.value.token, i))
  }

  ghost predicate TicketsKnown(s: System) {
    forall t :: t in s.publishers ==>
      var ticket := s.publishers[t].ticket;
      && ticket.token == t && t < s.nextToken
      && 0 <= ticket.event < |s.entries|
      && 1 <= ticket.attempts <= s.entries[ticket.event].attempts
      && (Owns(s.entries, ticket) ==> s.entries[ticket.event].attempts == ticket.attempts)
  }

  ghost predicate RetriesBounded(s: System, maxAttempts: int) {
    && (forall i :: 0 <= i < |s.entries| ==>
          && Retries(s.log, i) <= s.entries[i].attempts
          && (s.entries[i].status == Publishing ==> Retries(s.log, i) < s.entries[i].attempts)
          && (s.entries[i].status == Retry ==> s.entries[i].attempts < maxAttempts)
          && (Retries(s.log, i) == 0 || Retries(s.log, i) < maxAttempts))
    && (forall i :: i >= |s.entries| ==> Retries(s.log, i) == 0)
  }

  ghost predicate PublishedWasDelivered(s: System) {
    && (forall i :: 0 <= i < |s.entries| && s.entries[i].status == Published ==> Count(s.deliveries, i) >= 1)
    && (forall t :: t in s.publishers && s.publishers[t].phase == Delivered ==>
          Count(s.deliveries, s.publishers[t].ticket.event) >= 1)
  }

  /** Each claim delivers at most once. */
  ghost predicate DeliveriesBounded(s: System) {
    && (forall i :: 0 <= i < |s.entries| ==> Count(s.deliveries, i) + |Waiting(s.publishers, i)| <= s.entries[i].attempts)
    && (forall i :: i >= |s.entries| ==> Count(s.deliveries, i) + |Waiting(s.publishers, i)| == 0)
  }

  ghost predicate Invariant(s: System, maxAttempts: int) {
    && TokenIffPublishing(s) && TicketsKnown(s)
    && RetriesBounded(s, maxAttempts) && PublishedWasDelivered(s) && DeliveriesBounded(s)
  }

  lemma WaitingUpdate(publishers: map<int, Publisher>, t: int, p: Publisher, event: int)
    ensures Waiting(publishers[t := p], event) ==
            if p.ticket.event == event && p.phase == Claimed then Waiting(publishers, event) + {t}
            else Waiting(publishers, event) - {t}
  {
  }

  ghost predicate SameTickets(a: System, b: System) {
    && a.publishers.Keys == b.publishers.Keys
    && forall t :: t in a.publishers ==> b.publishers[t].ticket == a.publishers[t].ticket
  }

  /** A publisher's own step settles at most the event it owns. */
  lemma OwnStepSettlesOwned(s: System, step: Step, config: Config)
    requires !step.AddStep? && !step.ClaimStep?
    ensures var t := Next(s, step, config);
            && SameTickets(s, t) && t.nextToken == s.nextToken && |t.entries| == |s.entries|
            && forall i :: 0 <= i < |s.entries| ==>
                 || t.entries[i] == s.entries[i]
                 || (&& step.token in s.publishers && s.publishers[step.token].ticket.event == i
                     && Owns(s.entries, s.publishers[step.token].ticket)
                     && t.entries[i].lease == None && t.entries[i].status != Publishing
                     && t.entries[i].attempts == s.entries[i].attempts)
  {
  }

  lemma ClaimKeepsTickets(s: System, step: Step, config: Config)
    requires TokenIffPublishing(s) && TicketsKnown(s) && step.ClaimStep?
    ensures TokenIffPublishing(Next(s, step, config)) && TicketsKnown(Next(s, step, config))
  {
    var t := Next(s, step, config);
    if t != s {
      assert forall k :: k in s.publishers ==> k in t.publishers && t.publishers[k] == s.publishers[k];
    }
  }

  lemma NextKeepsTickets(s: System, step: Step, config: Config)
    requires TokenIffPublishing(s) && TicketsKnown(s)
    ensures TokenIffPublishing(Next(s, step, config)) && TicketsKnown(Next(s, step, config))
  {
    var t := Next(s, step, config);
    match step
    case AddStep(now) =>
    case ClaimStep(i, now) => ClaimKeepsTickets(s, step, config);
    case _ =>
      OwnStepSettlesOwned(s, step, config);
      OwnStepKeepsTickets(s, step.token, t);
  }

  lemma OwnStepKeepsTickets(s: System, token: int, t: System)
    requires TokenIffPublishing(s) && TicketsKnown(s)
    requires SameTickets(s, t) && t.nextToken == s.nextToken && |t.entries| == |s.entries|
    requires forall i :: 0 <= i < |s.entries| ==>
      || t.entries[i] == s.entries[i]
      || (t.entries[i].lease == None && t.entries[i].status != Publishing && t.entries[i].attempts == s.entries[i].attempts)
    ensures TokenIffPublishing(t) && TicketsKnown(t)
  {
  }

  lemma NextKeepsRetries(s: System, step: Step, config: Config)
    requires TokenIffPublishing(s) && TicketsKnown(s) && RetriesBounded(s, config.maxAttempts)
    ensures RetriesBounded(Next(s, step, config), config.maxAttempts)
  {
    var t := Next(s, step, config);
    if t.log != s.log {
      var o := t.log[|s.log|];
      forall i ensures Retries(t.log, i) == Retries(s.log, i) + (if o.ticket.event == i && o.status == Retry then 1 else 0) {
        RetriesAppend(s.log, o, i);
      }
    }
  }

  lemma NextKeepsDelivered(s: System, step: Step, config: Config)
    requires TokenIffPublishing(s) && TicketsKnown(s) && PublishedWasDelivered(s)
    ensures PublishedWasDelivered(Next(s, step, config))
  {
    var t := Next(s, step, config);
    if t.deliveries != s.deliveries {
      var event := s.publishers[step.token].ticket.event;
      forall i ensures Count(t.deliveries, i) == Count(s.deliveries, i) + (if event == i then 1 else 0) {
        CountAppend(s.deliveries, event, i);
      }
    }
  }

  lemma NextKeepsDeliveries(s: System, step: Step, config: Config)
    requires TokenIffPublishing(s) && TicketsKnown(s) && DeliveriesBounded(s)
    ensures DeliveriesBounded(Next(s, step, config))
  {
    var t := Next(s, step, config);
    match step
    case AddStep(now) =>
    case ClaimStep(i, now) =>
      if t != s {
        forall j ensures Waiting(t.publishers, j) == if j == i then Waiting(s.publishers, j) + {s.nextToken} else Waiting(s.publishers, j) {
          WaitingUpdate(s.publishers, s.nextToken, t.publishers[s.nextToken], j);
        }
      }
    case _ =>
      if step.token in s.publishers {
        forall j ensures Count(t.deliveries, j) + |Waiting(t.publishers, j)| <= Count(s.deliveries, j) + |Waiting(s.publishers, j)|
                 ensures |t.entries| == |s.entries|
                 ensures 0 <= j < |s.entries| ==> t.entries[j].attempts == s.entries[j].attempts
        {
          OwnStepSettlesOwned(s, step, config);
          PublisherMoves(s, step, config, j);
          SubsetHasFewer(Waiting(t.publishers, j), Waiting(s.publishers, j), step.token);
        }
      }
  }

  /** A publisher's own step delivers at most once, and then no longer waits. */
  lemma PublisherMoves(s: System, step: Step, config: Config, j: int)
    requires !step.AddStep? && !step.ClaimStep? && step.token in s.publishers
    ensures var t := Next(s, step, config);
            && Waiting(t.publishers, j) <= Waiting(s.publishers, j)
            && (Count(t.deliveries, j) == Count(s.deliveries, j)
                || (step.token in Waiting(s.publishers, j) && step.token !in Waiting(t.publishers, j)
                    && Count(t.deliveries, j) == Count(s.deliveries, j) + 1))
  {
    var t := Next(s, step, config);
    CountAppend(s.deliveries, s.publishers[step.token].ticket.event, j);
    assert forall k :: k in t.publishers ==> k in s.publishers && (k != step.token ==> t.publishers[k] == s.publishers[k]);
  }

  lemma SubsetHasFewer(a: set<int>, b: set<int>, x: int)
    requires a <= b
    ensures |a| <= |b|
    ensures x in b && x !in a ==> |a| < |b|
  {
    assert b == a + (b - a);
    if x in b && x !in a {
      assert x in b - a;
    }
  }

  /** In every run, with any crashes, expiries and late publishers: tokens mark exactly the publishing events and
      belong to one ticket; a retrying event has attempts left and was retried at most max_attempts - 1 times; a
      published event reached the sink; no event reached the sink more often than it was claimed. */
  lemma {:induction false} RunsKeepInvariant(steps: seq<Step>, config: Config)
    ensures Invariant(Run(steps, config), config.maxAttempts)
  {
    if steps != [] {
      var s, step := Run(steps[..|steps| - 1], config), steps[|steps| - 1];
      RunsKeepInvariant(steps[..|steps| - 1], config);
      NextKeepsTickets(s, step, config);
      NextKeepsRetries(s, step, config);
      NextKeepsDelivered(s, step, config);
      NextKeepsDeliveries(s, step, config);
    }
  }

  /** A publisher whose event was claimed again changes no event, whatever it does. */
  lemma LatePublisherChangesNothing(steps: seq<Step>, config: Config, older: int, newer: int, step: Step)
    requires older in Run(steps, config).publishers && newer in Run(steps, config).publishers && older < newer
    requires Run(steps, config).publishers[older].ticket.event == Run(steps, config).publishers[newer].ticket.event
    requires !step.AddStep? && !step.ClaimStep? && step.token == older
    ensures Next(Run(steps, config), step, config).entries == Run(steps, config).entries
  {
    RunsKeepInvariant(steps, config);
    LaterTicketsHaveMoreAttempts(steps, config);
    var s := Run(steps, config);
    assert Issued(s.publishers, newer, s.publishers[older].ticket.event);
    assert !Owns(s.entries, s.publishers[older].ticket);
  }

  ghost predicate AttemptsOrdered(s: System) {
    forall a, b, i :: a < b && Issued(s.publishers, a, i) && Issued(s.publishers, b, i) ==>
      s.publishers[a].ticket.attempts < s.publishers[b].ticket.attempts
  }

  lemma {:induction false} LaterTicketsHaveMoreAttempts(steps: seq<Step>, config: Config)
    ensures AttemptsOrdered(Run(steps, config))
  {
    if steps != [] {
      LaterTicketsHaveMoreAttempts(steps[..|steps| - 1], config);
      RunsKeepInvariant(steps[..|steps| - 1], config);
      NextKeepsOrder(Run(steps[..|steps| - 1], config), steps[|steps| - 1], config);
    }
  }

  lemma NextKeepsOrder(s: System, step: Step, config: Config)
    requires TicketsKnown(s) && AttemptsOrdered(s)
    ensures AttemptsOrdered(Next(s, step, config))
  {
    var t := Next(s, step, config);
    if !step.AddStep? && !step.ClaimStep? {
      OwnStepSettlesOwned(s, step, config);
    }
    forall a, b, i | a < b && Issued(t.publishers, a, i) && Issued(t.publishers, b, i)
      ensures t.publishers[a].ticket.attempts < t.publishers[b].ticket.attempts
    {
      assert Issued(s.publishers, a, i) || a == s.nextToken;
      assert Issued(s.publishers, b, i) || b == s.nextToken;
    }
  }

  lemma FinalEntriesStay(s: System, step: Step, config: Config, i: int)
    requires 0 <= i < |s.entries| && (s.entries[i].status == Published || s.entries[i].status == Dead)
    ensures i < |Next(s, step, config).entries| && Next(s, step, config).entries[i] == s.entries[i]
  {
  }

  /** Published and dead are final: no continuation of a run changes such an event. */
  lemma {:induction false} PublishedAndDeadAreFinal(before: seq<Step>, more: seq<Step>, config: Config, i: int)
    requires 0 <= i < |Run(before, config).entries|
    requires Run(before, config).entries[i].status == Published || Run(before, config).entries[i].status == Dead
    ensures i < |Run(before + more, config).entries|
    ensures Run(before + more, config).entries[i] == Run(before, config).entries[i]
  {
    if more == [] {
      assert before + more == before;
    } else {
      PublishedAndDeadAreFinal(before, more[..|more| - 1], config, i);
      assert (before + more)[..|before + more| - 1] == before + more[..|more| - 1];
      FinalEntriesStay(Run(before + more[..|more| - 1], config), more[|more| - 1], config, i);
    }
  }
}
