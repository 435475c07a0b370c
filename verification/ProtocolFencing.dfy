// Fencing over every interleaving: claims, expiries, takeovers, crashes and late workers.
module ProtocolFencing {
  import opened Wrappers
  import opened Protocol
  import opened ProtocolLeases

  /** The token of the most recent claim of a conversation. */
  function LastClaim(log: seq<Event>, conversation: Id): Option<Id> {
    if log == [] then None
    else
      var last := log[|log| - 1];
      if last.Claiming? && last.claim.conversation == conversation then Some(last.claim.token)
      else LastClaim(log[..|log| - 1], conversation)
  }

  lemma LastClaimAppend(log: seq<Event>, e: Event, c: Id)
    ensures LastClaim(log + [e], c) ==
            if e.Claiming? && e.claim.conversation == c then Some(e.claim.token) else LastClaim(log, c)
  {
    assert (log + [e])[..|log|] == log;
  }

  // ---------------------------------------------------------------- the shape of a step

  ghost predicate SameClaims(a: System, b: System) {
    && a.workers.Keys == b.workers.Keys
    && forall t :: t in a.workers ==> b.workers[t].claim == a.workers[t].claim
  }

  ghost predicate IsIdle(a: System, b: System) {
    b.db == a.db && b.log == a.log && SameClaims(a, b)
  }

  ghost predicate IsIngest(a: System, b: System) {
    OnlyAdds(a.db, b.db) && Refs(b.db) && b.log == a.log && b.workers == a.workers
  }

  ghost predicate IsClaim(a: System, b: System, m: Id, until: int) {
    && m in a.db.rows && m in a.db.messages && a.db.rows[m].conversation in a.db.conversations
    && b.db == ClaimMessage(a.db, m, until)
    && b.workers == a.workers[a.db.nextId := Worker(ClaimOf(a.db, m), Claimed)]
    && b.log == a.log + [Claiming(ClaimOf(a.db, m))]
  }

  ghost predicate IsCommit(a: System, b: System, token: Id, status: Status, effect: Effect) {
    && token in a.workers
    && Released(a.db, b.db, a.workers[token].claim, status)
    && SameClaims(a, b)
    && b.workers[token].phase == Stopped
    && b.log == a.log + [Finishing(a.workers[token].claim, status, effect)]
  }

  lemma SettleIsShaped(s: System, token: Id, tx: Tx)
    requires token in s.workers
    requires tx.Commit? ==> Released(s.db, tx.db, s.workers[token].claim, tx.status)
    ensures tx.Abort? ==> IsIdle(s, Settle(s, token, tx))
    ensures tx.Commit? ==> IsCommit(s, Settle(s, token, tx), token, tx.status, tx.effect)
  {
  }

  ghost predicate Commits(s: System, step: Step, t: System) {
    && !step.IngestStep? && !step.ClaimStep?
    && exists status, effect :: IsCommit(s, t, step.token, status, effect)
  }

  /** The transaction a worker's step tries; a step that is not enabled or writes nothing aborts. */
  ghost function TxOf(s: System, step: Step, config: Config): Tx {
    match step
    case PrepareStep(token) =>
      if token in s.workers && s.workers[token].phase == Claimed && Prepare(s.db, s.workers[token].claim).Settled?
      then Prepare(s.db, s.workers[token].claim).tx
      else Abort(NotFound)
    case FinalizeStep(token, ext, verdict) =>
      if token in s.workers && s.workers[token].phase.ReadyToFinalize? && Honest(s.db, ext)
         && ValidExtraction(s.workers[token].claim, ext)
      then Finalize(s.db, s.workers[token].claim, s.workers[token].phase.context, ext, verdict)
      else Abort(NotFound)
    case FailStep(token, now) =>
      if token in s.workers && s.workers[token].phase.Failing?
      then
        var w := s.workers[token];
        RecordFailure(s.db, w.claim, w.phase.retryable, w.phase.invalid, now, config.maxAttempts)
      else Abort(NotFound)
    case _ => Abort(NotFound)
  }

  lemma TxReleases(s: System, step: Step, config: Config)
    requires TxOf(s, step, config).Commit?
    ensures step.token in s.workers
            && Released(s.db, TxOf(s, step, config).db, s.workers[step.token].claim, TxOf(s, step, config).status)
  {
    var w := s.workers[step.token];
    match step
    case PrepareStep(token) =>
      PrepareReleases(s.db, w.claim);
    case FinalizeStep(token, ext, verdict) =>
      FinalizeReleases(s.db, w.claim, w.phase.context, ext, verdict);
    case FailStep(token, now) =>
      FailureReleases(s.db, w.claim, w.phase.retryable, w.phase.invalid, now, config.maxAttempts);
  }

  /** A worker's step settles its transaction, and idles when that aborts. */
  lemma NextSettles(s: System, step: Step, config: Config)
    requires !step.IngestStep? && !step.ClaimStep?
    ensures TxOf(s, step, config).Commit? ==>
              step.token in s.workers && Next(s, step, config) == Settle(s, step.token, TxOf(s, step, config))
    ensures TxOf(s, step, config).Abort? ==> IsIdle(s, Next(s, step, config))
  {
  }

  lemma WorkerStepIsShaped(s: System, step: Step, config: Config)
    requires !step.IngestStep? && !step.ClaimStep?
    ensures IsIdle(s, Next(s, step, config)) || Commits(s, step, Next(s, step, config))
  {
    var tx := TxOf(s, step, config);
    NextSettles(s, step, config);
    if tx.Commit? {
      TxReleases(s, step, config);
      SettleIsShaped(s, step.token, tx);
    }
  }

  lemma IngestIsShaped(s: System, step: Step, config: Config)
    requires Refs(s.db) && step.IngestStep?
    ensures IsIdle(s, Next(s, step, config)) || IsIngest(s, Next(s, step, config))
  {
    if Ingest(s.db, step.command, step.now).Created? {
      IngestOnlyAdds(s.db, step.command, step.now);
      IngestKeepsRefs(s.db, step.command, step.now);
    }
  }

  lemma ClaimIsShaped(s: System, step: Step, config: Config)
    requires step.ClaimStep?
    ensures var t := Next(s, step, config);
            IsIdle(s, t) || IsClaim(s, t, step.message, step.now + config.leaseSeconds)
  {
  }

  /** Every step idles, ingests, claims, or commits as the owner of both leases. */
  lemma NextIsShaped(s: System, step: Step, config: Config)
    requires Refs(s.db)
    ensures var t := Next(s, step, config);
            || IsIdle(s, t)
            || (step.IngestStep? && IsIngest(s, t))
            || (step.ClaimStep? && IsClaim(s, t, step.message, step.now + config.leaseSeconds))
            || Commits(s, step, t)
  {
    if step.IngestStep? {
      IngestIsShaped(s, step, config);
    } else if step.ClaimStep? {
      ClaimIsShaped(s, step, config);
    } else {
      WorkerStepIsShaped(s, step, config);
    }
  }

  // ---------------------------------------------------------------- the invariant

  /** A worker's claim matches its row, and counts the attempts of the row while the row holds its token. */
  ghost predicate WorkersKnown(s: System) {
    forall t :: t in s.workers ==>
      var claim := s.workers[t].claim;
      && claim.token == t && t < s.db.nextId
      && claim.message in s.db.rows
      && s.db.rows[claim.message].id == claim.processing
      && s.db.rows[claim.message].conversation == claim.conversation
      && 1 <= claim.attempts <= s.db.rows[claim.message].attempts
      && (HoldsToken(s.db.rows[claim.message], t) ==> s.db.rows[claim.message].attempts == claim.attempts)
  }

  ghost predicate TokensBelong(s: System) {
    forall m, t :: m in s.db.rows && HoldsToken(s.db.rows[m], t) ==> t in s.workers && s.workers[t].claim.message == m
  }

  /** A leased conversation is leased to its most recent claim. */
  ghost predicate LeaseIsLastClaim(s: System) {
    forall c :: c in s.db.conversations && s.db.conversations[c].lease.Some? ==>
      LastClaim(s.log, c) == Some(s.db.conversations[c].lease.value.token)
  }

  /** Every outcome in the log was committed by the claim that was then the conversation's most recent. */
  ghost predicate Fenced(log: seq<Event>) {
    forall i :: 0 <= i < |log| && log[i].Finishing? ==>
      LastClaim(log[..i], log[i].claim.conversation) == Some(log[i].claim.token)
  }

  ghost predicate TokenDone(log: seq<Event>, token: Id) {
    exists i :: 0 <= i < |log| && log[i].Finishing? && log[i].claim.token == token
  }

  /** A claim that committed holds no row, and no claim commits twice. */
  ghost predicate DoneOnce(s: System) {
    && (forall m, t :: m in s.db.rows && HoldsToken(s.db.rows[m], t) ==> !TokenDone(s.log, t))
    && (forall i :: 0 <= i < |s.log| && s.log[i].Finishing? ==> !TokenDone(s.log[..i], s.log[i].claim.token))
    && (forall i :: 0 <= i < |s.log| ==> s.log[i].claim.token < s.db.nextId)
  }

  ghost predicate FenceInvariant(s: System) {
    && Refs(s.db) && Leases(s.db)
    && WorkersKnown(s) && TokensBelong(s) && LeaseIsLastClaim(s) && Fenced(s.log) && DoneOnce(s)
  }

  // ---------------------------------------------------------------- preservation, one shape at a time

  lemma IdleKeepsFence(a: System, b: System)
    requires FenceInvariant(a) && IsIdle(a, b)
    ensures FenceInvariant(b)
  {
    assert Refs(b.db) && Leases(b.db);
    IdleKeepsWorkers(a, b);
    IdleKeepsLog(a, b);
  }

  lemma IdleKeepsWorkers(a: System, b: System)
    requires WorkersKnown(a) && TokensBelong(a) && IsIdle(a, b)
    ensures WorkersKnown(b) && TokensBelong(b)
  {
  }

  lemma IdleKeepsLog(a: System, b: System)
    requires LeaseIsLastClaim(a) && DoneOnce(a) && IsIdle(a, b)
    ensures LeaseIsLastClaim(b) && DoneOnce(b)
  {
  }

  ghost predicate RowsOnlyAdded(a: Db, b: Db) {
    && (forall m :: m in a.rows ==> m in b.rows && b.rows[m] == a.rows[m])
    && (forall m :: m in b.rows && m !in a.rows ==> b.rows[m].lease == None && b.rows[m].status == Pending)
  }

  lemma IngestKeepsRows(a: System, b: System)
    requires IsIngest(a, b)
    ensures a.db.nextId <= b.db.nextId && b.workers == a.workers && RowsOnlyAdded(a.db, b.db)
  {
  }

  lemma AddingKeepsWorkers(a: System, b: System)
    requires WorkersKnown(a)
    requires a.db.nextId <= b.db.nextId && b.workers == a.workers && RowsOnlyAdded(a.db, b.db)
    ensures WorkersKnown(b)
  {
  }

  lemma AddingKeepsTokens(a: System, b: System)
    requires TokensBelong(a) && b.workers == a.workers && RowsOnlyAdded(a.db, b.db)
    ensures TokensBelong(b)
  {
  }

  lemma IngestKeepsWorkers(a: System, b: System)
    requires WorkersKnown(a) && TokensBelong(a) && IsIngest(a, b)
    ensures WorkersKnown(b) && TokensBelong(b)
  {
    IngestKeepsRows(a, b);
    AddingKeepsWorkers(a, b);
    AddingKeepsTokens(a, b);
  }

  lemma IngestKeepsLastClaims(a: System, b: System)
    requires LeaseIsLastClaim(a) && IsIngest(a, b)
    ensures LeaseIsLastClaim(b)
  {
    forall c | c in b.db.conversations && b.db.conversations[c].lease.Some?
      ensures LastClaim(b.log, c) == Some(b.db.conversations[c].lease.value.token)
    {
      assert c in a.db.conversations && b.db.conversations[c] == a.db.conversations[c];
    }
  }

  lemma IngestKeepsDone(a: System, b: System)
    requires DoneOnce(a) && IsIngest(a, b)
    ensures DoneOnce(b)
  {
    forall m, t | m in b.db.rows && HoldsToken(b.db.rows[m], t) ensures !TokenDone(b.log, t) {
      assert m in a.db.rows && b.db.rows[m] == a.db.rows[m];
    }
  }

  lemma IngestKeepsFence(a: System, b: System)
    requires FenceInvariant(a) && IsIngest(a, b)
    ensures FenceInvariant(b)
  {
    AddingKeepsLeases(a.db, b.db);
    IngestKeepsWorkers(a, b);
    IngestKeepsLastClaims(a, b);
    IngestKeepsDone(a, b);
  }

  lemma ClaimKeepsWorkers(a: System, b: System, m: Id, until: int)
    requires Refs(a.db) && Leases(a.db) && WorkersKnown(a) && TokensBelong(a) && IsClaim(a, b, m, until)
    ensures WorkersKnown(b) && TokensBelong(b)
  {
    var attempts: nat := a.db.rows[m].attempts;
    assert forall k :: k in a.db.rows && k != m ==> b.db.rows[k] == a.db.rows[k];
  }

  lemma DoneAppend(log: seq<Event>, e: Event, t: Id)
    ensures TokenDone(log + [e], t) <==> TokenDone(log, t) || (e.Finishing? && e.claim.token == t)
  {
    var after := log + [e];
    if TokenDone(log, t) {
      var i :| 0 <= i < |log| && log[i].Finishing? && log[i].claim.token == t;
      assert after[i] == log[i];
    }
    if e.Finishing? && e.claim.token == t {
      assert after[|log|] == e;
    }
  }

  lemma FencedAppend(log: seq<Event>, e: Event)
    requires Fenced(log)
    requires e.Finishing? ==> LastClaim(log, e.claim.conversation) == Some(e.claim.token)
    ensures Fenced(log + [e])
  {
    var after := log + [e];
    forall i | 0 <= i < |after| && after[i].Finishing?
      ensures LastClaim(after[..i], after[i].claim.conversation) == Some(after[i].claim.token)
    {
      assert after[..i] == log[..i];
      if i == |log| {
        assert log[..i] == log;
      }
    }
  }

  lemma DoneOnceAppend(a: System, b: System, e: Event)
    requires DoneOnce(a) && b.log == a.log + [e] && a.db.nextId <= b.db.nextId && e.claim.token < b.db.nextId
    requires e.Finishing? ==> !TokenDone(a.log, e.claim.token)
    requires forall m, t :: m in b.db.rows && HoldsToken(b.db.rows[m], t) ==>
      !TokenDone(a.log, t) && !(e.Finishing? && e.claim.token == t)
    ensures DoneOnce(b)
  {
    forall m, t | m in b.db.rows && HoldsToken(b.db.rows[m], t) ensures !TokenDone(b.log, t) {
      DoneAppend(a.log, e, t);
    }
    forall i | 0 <= i < |b.log| && b.log[i].Finishing? ensures !TokenDone(b.log[..i], b.log[i].claim.token) {
      assert b.log[..i] == a.log[..i];
      if i == |a.log| {
        assert a.log[..i] == a.log;
      }
    }
  }

  lemma ClaimKeepsFence(a: System, b: System, m: Id, until: int)
    requires FenceInvariant(a) && IsClaim(a, b, m, until)
    ensures FenceInvariant(b)
  {
    ClaimKeepsRefs(a.db, m, until);
    ClaimKeepsLeases(a.db, m, until);
    ClaimKeepsWorkers(a, b, m, until);
    var e := Claiming(ClaimOf(a.db, m));
    FencedAppend(a.log, e);
    forall c | c in b.db.conversations && b.db.conversations[c].lease.Some?
      ensures LastClaim(b.log, c) == Some(b.db.conversations[c].lease.value.token)
    {
      LastClaimAppend(a.log, e, c);
    }
    forall k, t | k in b.db.rows && HoldsToken(b.db.rows[k], t) ensures !TokenDone(a.log, t) {
      if k != m {
        assert HoldsToken(a.db.rows[k], t);
      }
    }
    DoneOnceAppend(a, b, e);
  }

  lemma CommitKeepsWorkers(a: System, b: System, token: Id, status: Status, effect: Effect)
    requires WorkersKnown(a) && TokensBelong(a) && IsCommit(a, b, token, status, effect)
    ensures WorkersKnown(b) && TokensBelong(b)
  {
    var m := a.workers[token].claim.message;
    assert forall k :: k in a.db.rows && k != m ==> b.db.rows[k] == a.db.rows[k];
    assert RowReleased(a.db.rows[m], b.db.rows[m], status);
  }

  lemma CommitKeepsFence(a: System, b: System, token: Id, status: Status, effect: Effect)
    requires FenceInvariant(a) && IsCommit(a, b, token, status, effect)
    ensures FenceInvariant(b)
  {
    var claim := a.workers[token].claim;
    ReleaseKeepsRefs(a.db, b.db, claim, status);
    ReleaseKeepsLeases(a.db, b.db, claim, status);
    CommitKeepsWorkers(a, b, token, status, effect);
    var e := Finishing(claim, status, effect);
    FencedAppend(a.log, e);
    forall c | c in b.db.conversations && b.db.conversations[c].lease.Some?
      ensures LastClaim(b.log, c) == Some(b.db.conversations[c].lease.value.token)
    {
      LastClaimAppend(a.log, e, c);
      assert b.db.conversations[c].lease == a.db.conversations[c].lease;
    }
    assert HoldsToken(a.db.rows[claim.message], token);
    forall k, t | k in b.db.rows && HoldsToken(b.db.rows[k], t) ensures !TokenDone(a.log, t) && t != token {
      assert k != claim.message && b.db.rows[k] == a.db.rows[k];
    }
    DoneOnceAppend(a, b, e);
  }

  lemma NextKeepsFence(s: System, step: Step, config: Config)
    requires FenceInvariant(s)
    ensures FenceInvariant(Next(s, step, config))
  {
    var t := Next(s, step, config);
    NextIsShaped(s, step, config);
    if IsIdle(s, t) {
      IdleKeepsFence(s, t);
    } else if step.IngestStep? {
      IngestKeepsFence(s, t);
    } else if step.ClaimStep? {
      ClaimKeepsFence(s, t, step.message, step.now + config.leaseSeconds);
    } else {
      var status, effect :| IsCommit(s, t, step.token, status, effect);
      CommitKeepsFence(s, t, step.token, status, effect);
    }
  }

  /** The lease and fencing invariant holds in every reachable state. */
  lemma {:induction false} RunsAreFenced(steps: seq<Step>, config: Config)
    ensures FenceInvariant(Run(steps, config))
  {
    if steps != [] {
      RunsAreFenced(steps[..|steps| - 1], config);
      NextKeepsFence(Run(steps[..|steps| - 1], config), steps[|steps| - 1], config);
    }
  }

  // ---------------------------------------------------------------- the theorems

  /** In every run, each committed outcome (complete, blocked or failed) belongs to a claim that was, at that
      moment, the most recent claim of its conversation, and a claim commits at most one outcome. */
  lemma OutcomesAreFenced(steps: seq<Step>, config: Config, i: nat)
    requires i < |Run(steps, config).log| && Run(steps, config).log[i].Finishing?
    ensures var log := Run(steps, config).log;
            && LastClaim(log[..i], log[i].claim.conversation) == Some(log[i].claim.token)
            && forall j :: 0 <= j < i && log[j].Finishing? ==> log[j].claim.token != log[i].claim.token
  {
    RunsAreFenced(steps, config);
    var log := Run(steps, config).log;
    forall j | 0 <= j < i && log[j].Finishing? ensures log[j].claim.token != log[i].claim.token {
      assert log[..i][j] == log[j];
    }
  }

  /** A worker whose conversation was claimed again commits nothing, even while its own row carries its token. */
  lemma StaleWorkerAborts(steps: seq<Step>, config: Config, token: Id, context: Context, ext: Extraction,
                          verdict: Verdict, retryable: bool, invalid: bool, now: int)
    requires token in Run(steps, config).workers
    requires LastClaim(Run(steps, config).log, Run(steps, config).workers[token].claim.conversation) != Some(token)
    ensures var s := Run(steps, config);
            var claim := s.workers[token].claim;
            && (Prepare(s.db, claim).Settled? ==> Prepare(s.db, claim).tx.Abort?)
            && Finalize(s.db, claim, context, ext, verdict).Abort?
            && RecordFailure(s.db, claim, retryable, invalid, now, config.maxAttempts).Abort?
  {
    RunsAreFenced(steps, config);
    var s := Run(steps, config);
    var claim := s.workers[token].claim;
    PrepareReleases(s.db, claim);
    FinalizeReleases(s.db, claim, context, ext, verdict);
    FailureReleases(s.db, claim, retryable, invalid, now, config.maxAttempts);
    assert !OwnsConversation(s.db, claim);
  }

  /** The pairing, in every reachable state: a leased conversation names a PROCESSING row with the same token
      and expiry, tokens are unique, and a row has a token exactly while it is PROCESSING. */
  lemma LeasesPairedInEveryRun(steps: seq<Step>, config: Config)
    ensures TokenIffProcessing(Run(steps, config).db)
    ensures TokensDistinct(Run(steps, config).db)
    ensures LeasesPaired(Run(steps, config).db)
  {
    RunsAreFenced(steps, config);
  }

  // ---------------------------------------------------------------- one candidate at a time

  lemma SameIdsStayDistinct(a: Db, b: Db)
    requires RowIdsDistinct(a) && a.nextId <= b.nextId && b.rows.Keys == a.rows.Keys
    requires forall m :: m in a.rows ==> b.rows[m].id == a.rows[m].id
    ensures RowIdsDistinct(b)
  {
  }

  lemma IngestKeepsIds(db: Db, c: Command, now: int)
    requires RowIdsDistinct(db) && Ingest(db, c, now).Created?
    ensures RowIdsDistinct(Ingest(db, c, now).db)
  {
    IngestAddsMessage(db, c, now);
  }

  lemma ClaimKeepsIds(a: System, b: System, m: Id, until: int)
    requires RowIdsDistinct(a.db) && IsClaim(a, b, m, until)
    ensures RowIdsDistinct(b.db)
  {
    SameIdsStayDistinct(a.db, b.db);
  }

  lemma CommitKeepsIds(a: Db, b: Db, claim: Claim, status: Status)
    requires RowIdsDistinct(a) && Released(a, b, claim, status)
    ensures RowIdsDistinct(b)
  {
    SameIdsStayDistinct(a, b);
  }

  lemma NextKeepsIds(s: System, step: Step, config: Config)
    requires RowIdsDistinct(s.db)
    ensures RowIdsDistinct(Next(s, step, config).db)
  {
    if step.IngestStep? {
      if Ingest(s.db, step.command, step.now).Created? {
        IngestKeepsIds(s.db, step.command, step.now);
      }
    } else if step.ClaimStep? {
      ClaimIsShaped(s, step, config);
      if !IsIdle(s, Next(s, step, config)) {
        ClaimKeepsIds(s, Next(s, step, config), step.message, step.now + config.leaseSeconds);
      }
    } else {
      var tx := TxOf(s, step, config);
      NextSettles(s, step, config);
      if tx.Commit? {
        TxReleases(s, step, config);
        CommitKeepsIds(s.db, tx.db, s.workers[step.token].claim, tx.status);
      }
    }
  }

  lemma {:induction false} RunsKeepIds(steps: seq<Step>, config: Config)
    ensures RowIdsDistinct(Run(steps, config).db)
  {
    if steps != [] {
      RunsKeepIds(steps[..|steps| - 1], config);
      NextKeepsIds(Run(steps[..|steps| - 1], config), steps[|steps| - 1], config);
    }
  }

  /** In every reachable state the claim order singles out at most one row. */
  lemma CandidateIsUnique(steps: seq<Step>, config: Config, now: int, locked: set<Id>, a: Id, b: Id)
    requires Candidate(Run(steps, config).db, now, locked, a) && Candidate(Run(steps, config).db, now, locked, b)
    ensures a == b
  {
    RunsKeepIds(steps, config);
    CandidateIsFirst(Run(steps, config).db, now, locked, a, b);
  }

  // ---------------------------------------------------------------- terminal rows and retries

  /** A row in a terminal status never changes again. */
  lemma TerminalRowsAreFinal(s: System, step: Step, config: Config, m: Id)
    requires Refs(s.db) && m in s.db.rows && Terminal(s.db.rows[m].status)
    ensures m in Next(s, step, config).db.rows && Next(s, step, config).db.rows[m] == s.db.rows[m]
  {
    var t := Next(s, step, config);
    NextIsShaped(s, step, config);
    if !IsIdle(s, t) && !step.IngestStep? && !step.ClaimStep? {
      var status, effect :| IsCommit(s, t, step.token, status, effect);
      assert s.workers[step.token].claim.message != m;
    }
  }

  lemma RunOfMore(steps: seq<Step>, step: Step, config: Config)
    ensures Run(steps + [step], config) == Next(Run(steps, config), step, config)
  {
    assert (steps + [step])[..|steps|] == steps;
  }

  lemma RunExtends(before: seq<Step>, more: seq<Step>, config: Config)
    requires more != []
    ensures Run(before + more, config) == Next(Run(before + more[..|more| - 1], config), more[|more| - 1], config)
  {
    var front, last := before + more[..|more| - 1], more[|more| - 1];
    assert before + more == front + [last];
    RunOfMore(front, last, config);
  }

  lemma RunsHaveRefs(steps: seq<Step>, config: Config)
    ensures Refs(Run(steps, config).db)
  {
    RunsAreFenced(steps, config);
  }

  /** Through any continuation of a run, a terminal row stays exactly as it is. */
  lemma {:induction false} TerminalRowsStayFinal(before: seq<Step>, more: seq<Step>, config: Config, m: Id)
    requires m in Run(before, config).db.rows && Terminal(Run(before, config).db.rows[m].status)
    ensures m in Run(before + more, config).db.rows
    ensures Run(before + more, config).db.rows[m] == Run(before, config).db.rows[m]
  {
    if more == [] {
      assert before + more == before;
    } else {
      var steps := before + more[..|more| - 1];
      TerminalRowsStayFinal(before, more[..|more| - 1], config, m);
      RunsHaveRefs(steps, config);
      TerminalRowsAreFinal(Run(steps, config), more[|more| - 1], config, m);
      RunExtends(before, more, config);
    }
  }

  /** How many retryable failures of a message the log records. */
  function Retries(log: seq<Event>, m: Id): nat {
    if log == [] then 0
    else
      var last := log[|log| - 1];
      Retries(log[..|log| - 1], m)
      + (if last.Finishing? && last.claim.message == m && last.status == RetryableFailure then 1 else 0)
  }

  lemma RetriesAppend(log: seq<Event>, e: Event, m: Id)
    ensures Retries(log + [e], m) ==
            Retries(log, m) + (if e.Finishing? && e.claim.message == m && e.status == RetryableFailure then 1 else 0)
  {
    assert (log + [e])[..|log|] == log;
  }

  /** Retries stay below the attempts of their row, strictly while it is processed, and below the limit. */
  ghost predicate RetriesBounded(s: System, maxAttempts: nat) {
    && (forall m :: m in s.db.rows ==>
          && Retries(s.log, m) <= s.db.rows[m].attempts
          && (s.db.rows[m].status == Processing ==> Retries(s.log, m) < s.db.rows[m].attempts)
          && (s.db.rows[m].status == RetryableFailure ==> s.db.rows[m].attempts < maxAttempts)
          && (Retries(s.log, m) == 0 || Retries(s.log, m) < maxAttempts))
    && (forall m :: m !in s.db.rows ==> Retries(s.log, m) == 0)
  }

  /** A retryable outcome is only ever recorded by a failing worker with attempts to spare. */
  lemma RetryableNeedsAttempts(s: System, step: Step, config: Config, status: Status, effect: Effect)
    requires !step.IngestStep? && !step.ClaimStep? && step.token in s.workers
    requires !IsIdle(s, Next(s, step, config))
    requires IsCommit(s, Next(s, step, config), step.token, status, effect)
    ensures status == RetryableFailure ==> s.workers[step.token].claim.attempts < config.maxAttempts
  {
    var t := Next(s, step, config);
    var w := s.workers[step.token];
    assert t.log[|s.log|] == Finishing(w.claim, status, effect);
    match step
    case PrepareStep(token) =>
      BlockReleases(s.db, w.claim, BlockedDoNotContact);
      BlockReleases(s.db, w.claim, BlockedHandoff);
    case FinalizeStep(token, ext, verdict) =>
      FinalizeNeverRetries(s.db, w.claim, w.phase.context, ext, verdict);
    case FailStep(token, now) =>
      FailureReleases(s.db, w.claim, w.phase.retryable, w.phase.invalid, now, config.maxAttempts);
    case ExtractorErrorStep(token, error) =>
    case CrashStep(token) =>
  }

  lemma FinalizeNeverRetries(db: Db, claim: Claim, context: Context, ext: Extraction, verdict: Verdict)
    ensures var tx := Finalize(db, claim, context, ext, verdict);
            tx.Commit? ==> Terminal(tx.status)
  {
    BlockReleases(db, claim, BlockedDoNotContact);
    BlockReleases(db, claim, BlockedHandoff);
  }

  lemma ClaimKeepsRetries(s: System, t: System, m: Id, until: int, maxAttempts: nat)
    requires RetriesBounded(s, maxAttempts) && IsClaim(s, t, m, until)
    ensures RetriesBounded(t, maxAttempts)
  {
    forall k ensures Retries(t.log, k) == Retries(s.log, k) {
      RetriesAppend(s.log, Claiming(ClaimOf(s.db, m)), k);
    }
  }

  lemma CommitKeepsRetries(s: System, t: System, token: Id, status: Status, effect: Effect, maxAttempts: nat)
    requires WorkersKnown(s) && RetriesBounded(s, maxAttempts) && IsCommit(s, t, token, status, effect)
    requires status == RetryableFailure ==> s.workers[token].claim.attempts < maxAttempts
    ensures RetriesBounded(t, maxAttempts)
  {
    var claim := s.workers[token].claim;
    assert HoldsToken(s.db.rows[claim.message], token);
    forall m ensures Retries(t.log, m) ==
      Retries(s.log, m) + (if claim.message == m && status == RetryableFailure then 1 else 0) {
      RetriesAppend(s.log, Finishing(claim, status, effect), m);
    }
    assert forall m :: m in t.db.rows && m != claim.message ==> t.db.rows[m] == s.db.rows[m];
  }

  lemma IngestKeepsRetries(s: System, t: System, maxAttempts: nat)
    requires RetriesBounded(s, maxAttempts) && IsIngest(s, t)
    ensures RetriesBounded(t, maxAttempts)
  {
    IngestKeepsRows(s, t);
  }

  lemma NextKeepsRetries(s: System, step: Step, config: Config)
    requires FenceInvariant(s) && RetriesBounded(s, config.maxAttempts)
    ensures RetriesBounded(Next(s, step, config), config.maxAttempts)
  {
    var t := Next(s, step, config);
    NextIsShaped(s, step, config);
    if IsIdle(s, t) {
    } else if step.IngestStep? {
      IngestKeepsRetries(s, t, config.maxAttempts);
    } else if step.ClaimStep? {
      ClaimKeepsRetries(s, t, step.message, step.now + config.leaseSeconds, config.maxAttempts);
    } else {
      var status, effect :| IsCommit(s, t, step.token, status, effect);
      RetryableNeedsAttempts(s, step, config, status, effect);
      CommitKeepsRetries(s, t, step.token, status, effect, config.maxAttempts);
    }
  }

  /** In any run, with any crashes and takeovers: a row waiting to be retried has attempts left, and each row
      records at most max_attempts - 1 retryable failures. */
  lemma {:induction false} RetriesAreBounded(steps: seq<Step>, config: Config)
    ensures RetriesBounded(Run(steps, config), config.maxAttempts)
  {
    if steps != [] {
      var front := steps[..|steps| - 1];
      RetriesAreBounded(front, config);
      RunsAreFenced(front, config);
      NextKeepsRetries(Run(front, config), steps[|steps| - 1], config);
    }
  }
}
