// Exactly what the missing fencing token costs the older queue: when an available message has used up its attempts,
// and what a dead message says about its event.
module SyntheticTheorems {
  import opened Wrappers
  import opened Synthetic

  // ---------------------------------------------------------------- attempts

  /** The message waits to be claimed although its attempts are used up. */
  predicate Exhausted(db: Db, j: int, maxAttempts: int) {
    0 <= j < |db.queue| && db.queue[j].status == Available && db.queue[j].attempts >= maxAttempts
  }

  /** A failure reopens an exhausted message exactly when it is transient, its own ticket has attempts left and the
      message has not. */
  lemma FailExhaustsIff(db: Db, t: Ticket, permanent: bool, now: int, maxAttempts: int)
    requires IsLeased(db, t.message)
    ensures Exhausted(Fail(db, t, permanent, now, maxAttempts), t.message, maxAttempts)
            <==> !permanent && t.attempts < maxAttempts <= db.queue[t.message].attempts
  {
  }

  /** A ticket counts the attempts of its message as of its claim. */
  ghost predicate TicketsCounted(s: System) {
    forall w :: 0 <= w < |s.workers| ==>
      var t := s.workers[w].ticket;
      0 <= t.message < |s.db.queue| && t.attempts <= s.db.queue[t.message].attempts
  }

  ghost predicate AttemptsGrow(a: Db, b: Db) {
    |a.queue| <= |b.queue| && forall j :: 0 <= j < |a.queue| ==> a.queue[j].attempts <= b.queue[j].attempts
  }

  ghost predicate SameTickets(s: System, t: System) {
    |s.workers| <= |t.workers| && forall w :: 0 <= w < |s.workers| ==> t.workers[w].ticket == s.workers[w].ticket
  }

  lemma NextKeepsTickets(s: System, step: Step, config: Config)
    ensures AttemptsGrow(s.db, Next(s, step, config).db) && SameTickets(s, Next(s, step, config))
    ensures !step.ClaimStep? ==> |Next(s, step, config).workers| == |s.workers|
  {
  }

  /** In every run no ticket counts more attempts than its message has. */
  lemma {:induction false} RunsCountTickets(steps: seq<Step>, config: Config)
    ensures TicketsCounted(Run(steps, config))
  {
    if steps != [] {
      var s, step := Run(steps[..|steps| - 1], config), steps[|steps| - 1];
      RunsCountTickets(steps[..|steps| - 1], config);
      NextKeepsTickets(s, step, config);
    }
  }

  /** A worker fails transiently on a leased message that used up its attempts after the worker's own claim. */
  predicate StaleFails(s: System, step: Step, j: int, maxAttempts: int) {
    && step.FailStep? && At(s, step.worker, Failing(false))
    && s.workers[step.worker].ticket.message == j && IsLeased(s.db, j)
    && s.workers[step.worker].ticket.attempts < maxAttempts <= s.db.queue[j].attempts
  }

  /** A step exhausts a stored message exactly when it is such a stale failure on it. */
  lemma ExhaustsIffStaleFailure(s: System, step: Step, config: Config, j: int)
    requires 0 <= j < |s.db.queue|
    ensures !Exhausted(s.db, j, config.maxAttempts) && Exhausted(Next(s, step, config).db, j, config.maxAttempts)
            <==> StaleFails(s, step, j, config.maxAttempts)
  {
    if step.FailStep? && 0 <= step.worker < |s.workers| && IsLeased(s.db, s.workers[step.worker].ticket.message) {
      var w := s.workers[step.worker];
      if w.phase.Failing? {
        FailExhaustsIff(s.db, w.ticket, w.phase.permanent, step.now, config.maxAttempts);
      }
    }
  }

  ghost predicate AvailableHasAttempts(db: Db, maxAttempts: int) {
    forall j :: !Exhausted(db, j, maxAttempts)
  }

  ghost predicate SomeStaleFails(s: System, step: Step, maxAttempts: int) {
    exists j :: StaleFails(s, step, j, maxAttempts)
  }

  lemma NewMessagesAreFresh(s: System, step: Step, config: Config, j: int)
    requires |s.db.queue| <= j < |Next(s, step, config).db.queue|
    ensures Next(s, step, config).db.queue[j].attempts == 0
  {
  }

  /** "An available message has attempts left" is broken by a step of a run exactly when the step is a stale failure. */
  lemma AttemptsLeftUntilStaleFailure(s: System, step: Step, config: Config)
    requires config.maxAttempts >= 1 && AvailableHasAttempts(s.db, config.maxAttempts)
    ensures AvailableHasAttempts(Next(s, step, config).db, config.maxAttempts)
            <==> !SomeStaleFails(s, step, config.maxAttempts)
  {
    var t, max := Next(s, step, config), config.maxAttempts;
    forall j ensures Exhausted(t.db, j, max) <==> StaleFails(s, step, j, max) {
      assert !Exhausted(s.db, j, max);
      if 0 <= j < |s.db.queue| {
        ExhaustsIffStaleFailure(s, step, config, j);
      } else if |s.db.queue| <= j < |t.db.queue| {
        NewMessagesAreFresh(s, step, config, j);
      }
    }
  }

  ghost predicate NoStaleFailure(steps: seq<Step>, config: Config) {
    forall n :: 0 <= n < |steps| ==> !SomeStaleFails(Run(steps[..n], config), steps[n], config.maxAttempts)
  }

  /** In every run without a stale failure, an available message has attempts left. */
  lemma {:induction false} RunsWithoutStaleFailure(steps: seq<Step>, config: Config)
    requires config.maxAttempts >= 1 && NoStaleFailure(steps, config)
    ensures AvailableHasAttempts(Run(steps, config).db, config.maxAttempts)
  {
    if steps != [] {
      var front := steps[..|steps| - 1];
      forall n | 0 <= n < |front| ensures !SomeStaleFails(Run(front[..n], config), front[n], config.maxAttempts) {
        assert front[..n] == steps[..n];
      }
      RunsWithoutStaleFailure(front, config);
      AttemptsLeftUntilStaleFailure(Run(front, config), steps[|steps| - 1], config);
    }
  }

  // ---------------------------------------------------------------- dead messages

  lemma ReceiptIffProcessed(db: Db, j: int)
    requires Sound(db) && 0 <= j < |db.queue|
    ensures IsProcessed(db, db.queue[j].envelope.event) <==> j in db.receipts
  {
    var e := db.queue[j].envelope.event;
    if IsProcessed(db, e) {
      assert HasReceipt(db, e);
      var m :| m in db.receipts && db.receipts[m].event == e;
      assert db.queue[m].envelope.event == db.queue[m].source && db.queue[j].envelope.event == db.queue[j].source;
    }
  }

  /** In every run the event of a message is processed exactly when the message itself holds a receipt. */
  lemma ProcessedIffReceipt(steps: seq<Step>, config: Config, j: int)
    requires 0 <= j < |Run(steps, config).db.queue|
    ensures IsProcessed(Run(steps, config).db, Run(steps, config).db.queue[j].envelope.event)
            <==> j in Run(steps, config).db.receipts
  {
    RunsKeepInvariant(steps, config);
    ReceiptIffProcessed(Run(steps, config).db, j);
  }

  /** The message dies although, or while, its event is processed. */
  predicate BuriesProcessed(s: System, t: System, j: int) {
    && 0 <= j < |s.db.queue| && j < |t.db.queue|
    && s.db.queue[j].status != Dead && t.db.queue[j].status == Dead
    && IsProcessed(t.db, t.db.queue[j].envelope.event)
  }

  /** In every run a step buries a message of a processed event exactly when it is a final failure on the leased message
      and the message held a receipt before it. */
  lemma BuriesProcessedIffReceipt(steps: seq<Step>, step: Step, config: Config, j: int)
    requires 0 <= j < |Run(steps, config).db.queue|
    ensures var s := Run(steps, config);
            BuriesProcessed(s, Next(s, step, config), j) <==>
              && step.FailStep? && 0 <= step.worker < |s.workers| && s.workers[step.worker].phase.Failing?
              && s.workers[step.worker].ticket.message == j && IsLeased(s.db, j)
              && (s.workers[step.worker].phase.permanent || s.workers[step.worker].ticket.attempts >= config.maxAttempts)
              && j in s.db.receipts
  {
    ProcessedIffReceipt(steps, config, j);
    DiesIffFinalFailure(Run(steps, config), step, config, j);
  }

  /** Only a final failure on a leased message buries it, and it leaves events and receipts alone. */
  lemma DiesIffFinalFailure(s: System, step: Step, config: Config, j: int)
    requires 0 <= j < |s.db.queue|
    ensures var t := Next(s, step, config);
            && j < |t.db.queue|
            && (s.db.queue[j].status != Dead && t.db.queue[j].status == Dead <==>
                  && step.FailStep? && 0 <= step.worker < |s.workers| && s.workers[step.worker].phase.Failing?
                  && s.workers[step.worker].ticket.message == j && IsLeased(s.db, j)
                  && (s.workers[step.worker].phase.permanent || s.workers[step.worker].ticket.attempts >= config.maxAttempts))
            && (step.FailStep? ==> t.db.events == s.db.events && t.db.queue[j].envelope == s.db.queue[j].envelope)
  {
  }

  /** In every run the event of a dead message becomes processed exactly by a worker that claimed the message before its
      death and handles it now, the message holding no receipt: death does not stop the claims already handed out. */
  lemma DeadMessageProcessedIff(steps: seq<Step>, step: Step, config: Config, j: int)
    requires 0 <= j < |Run(steps, config).db.queue| && Run(steps, config).db.queue[j].status == Dead
    ensures var s, t := Run(steps, config), Next(Run(steps, config), step, config);
            var e := s.db.queue[j].envelope.event;
            && j < |t.db.queue| && t.db.queue[j] == s.db.queue[j]
            && (!IsProcessed(s.db, e) && IsProcessed(t.db, e) <==>
                  && step.HandleStep? && At(s, step.worker, Claimed)
                  && s.workers[step.worker].ticket.message == j && j !in s.db.receipts)
  {
    var s := Run(steps, config);
    RunsKeepInvariant(steps, config);
    FinalMessagesStay(s, step, config, j);
    ProcessedIffReceipt(steps, config, j);
    if step.HandleStep? && At(s, step.worker, Claimed) {
      var t := s.workers[step.worker].ticket;
      HandleApplies(s.db, t);
      HandleWrites(s.db, t);
      assert t.envelope.event == s.db.queue[t.message].source && s.db.queue[j].envelope.event == s.db.queue[j].source;
    } else {
      OnlyHandlingProcesses(s, step, config, s.db.queue[j].envelope.event);
    }
  }

  lemma OnlyHandlingProcesses(s: System, step: Step, config: Config, e: int)
    requires !(step.HandleStep? && At(s, step.worker, Claimed)) && 0 <= e < |s.db.events|
    ensures IsProcessed(Next(s, step, config).db, e) <==> IsProcessed(s.db, e)
  {
  }

  /** A concrete run: the second worker's last failure buries the message, then the first worker, whose lease expired,
      still processes the event. */
  lemma DeadThenProcessed()
    ensures exists steps, step, config, j ::
      && 0 <= j < |Run(steps, config).db.queue| && Run(steps, config).db.queue[j].status == Dead
      && !IsProcessed(Run(steps, config).db, Run(steps, config).db.queue[j].envelope.event)
      && IsProcessed(Next(Run(steps, config), step, config).db, Run(steps, config).db.queue[j].envelope.event)
  {
    var config := Config(10, 2);
    var claimed := OneClaimed(2);
    var once := System(OneQueued(OneMessage(Leased, 1, 10, 0)), [Worker(ONE_TICKET, Claimed)]);
    var second := ONE_TICKET.(attempts := 2);
    var twice := System(OneQueued(OneMessage(Leased, 2, 30, 0)), [Worker(ONE_TICKET, Claimed), Worker(second, Claimed)]);
    SecondClaim();
    RunOneMore(claimed, ClaimStep(0, 20), config, once);
    var failing := System(twice.db, [Worker(ONE_TICKET, Claimed), Worker(second, Failing(false))]);
    assert Next(twice, ErrorStep(1, false), config) == failing;
    RunOneMore(claimed + [ClaimStep(0, 20)], ErrorStep(1, false), config, twice);
    LastFailure();
    var steps := claimed + [ClaimStep(0, 20)] + [ErrorStep(1, false)] + [FailStep(1, 20)];
    RunOneMore(claimed + [ClaimStep(0, 20)] + [ErrorStep(1, false)], FailStep(1, 20), config, failing);
    assert Run(steps, config).db.queue[0].status == Dead;
    assert 0 !in Run(steps, config).db.receipts;
    ProcessedIffReceipt(steps, config, 0);
    DeadMessageProcessedIff(steps, HandleStep(0), config, 0);
  }

  lemma LastFailure()
    ensures var second := ONE_TICKET.(attempts := 2);
            Next(System(OneQueued(OneMessage(Leased, 2, 30, 0)), [Worker(ONE_TICKET, Claimed), Worker(second, Failing(false))]),
                 FailStep(1, 20), Config(10, 2))
            == System(OneQueued(OneMessage(Dead, 2, 30, 24)), [Worker(ONE_TICKET, Claimed), Worker(second, Stopped)])
  {
    assert Delay(2) == 4;
  }
}
