// At most once: every applied extraction is counted by the version of its lead, every durable key and every
// message is applied at most once, and a completed message is covered by the execution its row names.
module ProtocolCounting {
  import opened Wrappers
  import opened Protocol
  import opened ProtocolLeases
  import opened ProtocolFencing
  import opened ProtocolEffects

  function ExecutionsOf(executions: seq<Execution>, lead: Id): nat {
    if executions == [] then 0
    else ExecutionsOf(executions[..|executions| - 1], lead) + (if executions[|executions| - 1].lead == lead then 1 else 0)
  }

  function EvaluationsOf(evaluations: seq<Evaluation>, lead: Id): nat {
    if evaluations == [] then 0
    else EvaluationsOf(evaluations[..|evaluations| - 1], lead) + (if evaluations[|evaluations| - 1].lead == lead then 1 else 0)
  }

  /** How many extractions the log says were applied to a lead. */
  function AppliedTo(log: seq<Event>, lead: Id): nat {
    if log == [] then 0
    else AppliedTo(log[..|log| - 1], lead) + (if Applies(log[|log| - 1], lead) then 1 else 0)
  }

  predicate Applies(e: Event, lead: Id) {
    e.Finishing? && e.effect.Applied? && e.effect.lead == lead
  }

  lemma ExecutionsAppend(executions: seq<Execution>, e: Execution, l: Id)
    ensures ExecutionsOf(executions + [e], l) == ExecutionsOf(executions, l) + (if e.lead == l then 1 else 0)
  {
    assert (executions + [e])[..|executions|] == executions;
  }

  lemma EvaluationsAppend(evaluations: seq<Evaluation>, e: Evaluation, l: Id)
    ensures EvaluationsOf(evaluations + [e], l) == EvaluationsOf(evaluations, l) + (if e.lead == l then 1 else 0)
  {
    assert (evaluations + [e])[..|evaluations|] == evaluations;
  }

  lemma AppliedAppend(log: seq<Event>, e: Event, l: Id)
    ensures AppliedTo(log + [e], l) == AppliedTo(log, l) + (if Applies(e, l) then 1 else 0)
  {
    assert (log + [e])[..|log|] == log;
  }

  // ---------------------------------------------------------------- versions

  ghost predicate LeadCounted(s: System, l: Id)
    requires l in s.db.leads
  {
    && s.db.leads[l].version == 1 + ExecutionsOf(s.db.executions, l)
    && s.db.leads[l].version == 1 + EvaluationsOf(s.db.evaluations, l)
    && s.db.leads[l].version == 1 + AppliedTo(s.log, l)
  }

  ghost predicate Counted(s: System) {
    && (forall l :: l in s.db.leads ==> LeadCounted(s, l))
    && (forall l :: l !in s.db.leads ==>
          ExecutionsOf(s.db.executions, l) == 0 && EvaluationsOf(s.db.evaluations, l) == 0 && AppliedTo(s.log, l) == 0)
  }

  lemma QuietKeepsCounted(s: System, t: System)
    requires Counted(s) && AppliesNothing(s, t)
    ensures Counted(t)
  {
    forall l ensures AppliedTo(t.log, l) == AppliedTo(s.log, l) {
      if t.log != s.log {
        var e :| t.log == s.log + [e] && (e.Finishing? ==> !e.effect.Applied?);
        AppliedAppend(s.log, e, l);
      }
    }
    forall l | l in t.db.leads ensures LeadCounted(t, l) {
      assert LeadCounted(s, l);
    }
  }

  lemma AppliedKeepsCounted(s: System, step: Step, t: System)
    requires Counted(s) && AppliesExtraction(s, step, t)
    ensures Counted(t)
  {
    forall l ensures l in t.db.leads ==> l in s.db.leads && LeadCounted(t, l)
             ensures l !in t.db.leads ==>
               ExecutionsOf(t.db.executions, l) == 0 && EvaluationsOf(t.db.evaluations, l) == 0 && AppliedTo(t.log, l) == 0
    {
      OneMoreFor(s, step, t, l);
      if l in t.db.leads {
        assert l in s.db.leads && LeadCounted(s, l);
      }
    }
  }

  /** What an applied extraction appends and changes. */
  lemma AppliedAppends(a: Db, b: Db, claim: Claim, context: Context, ext: Extraction, verdict: Verdict)
    returns (e: Execution, v: Evaluation)
    requires IsApplied(a, b, claim, context, ext, verdict)
    ensures var own := a.conversations[claim.conversation].lead;
            && own in a.leads
            && b.leads == a.leads[own := b.leads[own]] && b.leads[own].version == a.leads[own].version + 1
            && e.lead == own && v.lead == own
    ensures e.message == claim.message && v.message == claim.message && v.execution == e.id
    ensures e.key == DurableKey(claim.conversation, ext.messages)
    ensures b.executions == a.executions + [e] && b.evaluations == a.evaluations + [v]
  {
    var after := WithEffects(a, claim, ext, PlanCommit(a, claim, context, ext, verdict));
    e, v := after.executions[|a.executions|], after.evaluations[|a.evaluations|];
  }

  /** An applied extraction adds one execution, one evaluation, one outcome and one version to its lead. */
  lemma OneMoreFor(s: System, step: Step, t: System, l: Id)
    requires AppliesExtraction(s, step, t)
    ensures var claim := s.workers[step.token].claim;
            var own := s.db.conversations[claim.conversation].lead;
            var more := if own == l then 1 else 0;
            && own in s.db.leads && t.db.leads.Keys == s.db.leads.Keys
            && (l in s.db.leads ==> t.db.leads[l].version == s.db.leads[l].version + more)
            && ExecutionsOf(t.db.executions, l) == ExecutionsOf(s.db.executions, l) + more
            && EvaluationsOf(t.db.evaluations, l) == EvaluationsOf(s.db.evaluations, l) + more
            && AppliedTo(t.log, l) == AppliedTo(s.log, l) + more
  {
    var w := s.workers[step.token];
    var e, v := AppliedAppends(s.db, t.db, w.claim, w.phase.context, step.ext, step.verdict);
    ExecutionsAppend(s.db.executions, e, l);
    EvaluationsAppend(s.db.evaluations, v, l);
    AppliedAppend(s.log, t.log[|s.log|], l);
  }

  lemma IngestKeepsCounted(s: System, t: System)
    requires Counted(s) && IsIngest(s, t)
    ensures Counted(t)
  {
    forall l | l in t.db.leads ensures LeadCounted(t, l) {
      if l in s.db.leads {
        assert LeadCounted(s, l) && t.db.leads[l] == s.db.leads[l];
      } else {
        assert t.db.leads[l].version == 1;
      }
    }
  }

  lemma NextKeepsCounted(s: System, step: Step, config: Config)
    requires Refs(s.db) && Counted(s)
    ensures Counted(Next(s, step, config))
  {
    var t := Next(s, step, config);
    NextEffects(s, step, config);
    if AppliesNothing(s, t) {
      QuietKeepsCounted(s, t);
    } else if step.IngestStep? {
      IngestKeepsCounted(s, t);
    } else {
      AppliedKeepsCounted(s, step, t);
    }
  }

  /** In every reachable state: version = 1 + executions = 1 + evaluations = 1 + applied outcomes, lead by lead. */
  lemma {:induction false} RunsAreCounted(steps: seq<Step>, config: Config)
    ensures Counted(Run(steps, config))
  {
    if steps != [] {
      var front := steps[..|steps| - 1];
      RunsAreCounted(front, config);
      RunsAreFenced(front, config);
      NextKeepsCounted(Run(front, config), steps[|steps| - 1], config);
    }
  }

  // ---------------------------------------------------------------- at most once

  /** Executions and evaluations come in pairs, each for a message of its own whose row is finished. */
  ghost predicate AppliedOnce(db: Db) {
    && |db.evaluations| == |db.executions|
    && (forall i :: 0 <= i < |db.executions| ==>
          && db.executions[i].message in db.rows
          && Terminal(db.rows[db.executions[i].message].status)
          && db.evaluations[i].message == db.executions[i].message
          && db.evaluations[i].execution == db.executions[i].id
          && db.evaluations[i].lead == db.executions[i].lead)
    && (forall i, j :: 0 <= i < j < |db.executions| ==>
          db.executions[i].message != db.executions[j].message && db.executions[i].key != db.executions[j].key)
  }

  lemma RowsKeepAppliedOnce(a: Db, b: Db)
    requires AppliedOnce(a) && b.executions == a.executions && b.evaluations == a.evaluations
    requires forall m :: m in a.rows && Terminal(a.rows[m].status) ==> m in b.rows && b.rows[m] == a.rows[m]
    ensures AppliedOnce(b)
  {
  }

  lemma AppliedKeepsOnce(s: System, step: Step, t: System)
    requires AppliedOnce(s.db) && AppliesExtraction(s, step, t)
    requires forall m :: m in s.db.rows && Terminal(s.db.rows[m].status) ==> m in t.db.rows && t.db.rows[m] == s.db.rows[m]
    requires var m := s.workers[step.token].claim.message; m in t.db.rows && Terminal(t.db.rows[m].status)
    ensures AppliedOnce(t.db)
  {
    var w := s.workers[step.token];
    var e, v := AppliedAppends(s.db, t.db, w.claim, w.phase.context, step.ext, step.verdict);
    NothingAppliedYet(s.db, w.claim, w.phase.context, step.ext);
    AppendKeepsOnce(s.db, t.db, e, v);
  }

  lemma NothingAppliedYet(db: Db, claim: Claim, context: Context, ext: Extraction)
    requires Admitted(db, claim, context, ext)
    ensures forall e :: e in db.executions ==>
              e.message != claim.message && e.key != DurableKey(claim.conversation, ext.messages)
  {
    forall e | e in db.executions ensures e.message != claim.message && e.key != DurableKey(claim.conversation, ext.messages) {
      var i :| 0 <= i < |db.executions| && db.executions[i] == e;
    }
  }

  lemma AppendKeepsOnce(a: Db, b: Db, e: Execution, v: Evaluation)
    requires AppliedOnce(a) && b.executions == a.executions + [e] && b.evaluations == a.evaluations + [v]
    requires forall m :: m in a.rows && Terminal(a.rows[m].status) ==> m in b.rows && b.rows[m] == a.rows[m]
    requires e.message in b.rows && Terminal(b.rows[e.message].status)
    requires v.message == e.message && v.execution == e.id && v.lead == e.lead
    requires forall k :: k in a.executions ==> k.message != e.message && k.key != e.key
    ensures AppliedOnce(b)
  {
  }

  lemma FinalizesTerminally(db: Db, claim: Claim, context: Context, ext: Extraction, verdict: Verdict)
    ensures var tx := Finalize(db, claim, context, ext, verdict);
            tx.Commit? ==> claim.message in tx.db.rows && Terminal(tx.db.rows[claim.message].status)
  {
    FinalizeReleases(db, claim, context, ext, verdict);
    FinalizeNeverRetries(db, claim, context, ext, verdict);
  }

  lemma AppliesTerminally(s: System, step: Step, config: Config)
    requires step.FinalizeStep? && Next(s, step, config).log != s.log
    ensures step.token in s.workers
            && var m := s.workers[step.token].claim.message;
               var t := Next(s, step, config);
               m in t.db.rows && Terminal(t.db.rows[m].status)
  {
    NextSettles(s, step, config);
    var w := s.workers[step.token];
    FinalizesTerminally(s.db, w.claim, w.phase.context, step.ext, step.verdict);
  }

  lemma NextKeepsOnce(s: System, step: Step, config: Config)
    requires Refs(s.db) && AppliedOnce(s.db)
    ensures AppliedOnce(Next(s, step, config).db)
  {
    var t := Next(s, step, config);
    forall m | m in s.db.rows && Terminal(s.db.rows[m].status) ensures m in t.db.rows && t.db.rows[m] == s.db.rows[m] {
      TerminalRowsAreFinal(s, step, config, m);
    }
    NextEffects(s, step, config);
    if AppliesNothing(s, t) || step.IngestStep? {
      RowsKeepAppliedOnce(s.db, t.db);
    } else {
      assert |t.log| == |s.log| + 1;
      AppliesTerminally(s, step, config);
      AppliedKeepsOnce(s, step, t);
    }
  }

  /** Each durable key and each message is applied at most once, in every run. */
  lemma {:induction false} RunsApplyOnce(steps: seq<Step>, config: Config)
    ensures AppliedOnce(Run(steps, config).db)
  {
    if steps != [] {
      var front := steps[..|steps| - 1];
      RunsApplyOnce(front, config);
      RunsAreFenced(front, config);
      NextKeepsOnce(Run(front, config), steps[|steps| - 1], config);
    }
  }

  /** The unique indexes of executions and evaluations are never what stops a commit. */
  lemma IndexesNeverViolated(
    steps: seq<Step>, config: Config, claim: Claim, context: Context, ext: Extraction, verdict: Verdict)
    ensures OwnsRow(Run(steps, config).db, claim) ==> !ViolatesUniqueIndex(Run(steps, config).db, claim)
    ensures Finalize(Run(steps, config).db, claim, context, ext, verdict) != Abort(IntegrityViolation)
  {
    RunsApplyOnce(steps, config);
    BlockKeepsEffects(Run(steps, config).db, claim, BlockedDoNotContact);
    BlockKeepsEffects(Run(steps, config).db, claim, BlockedHandoff);
  }

  // ---------------------------------------------------------------- completed means covered

  predicate IsCompleted(status: Status) {
    status == Completed || status == CompletedDegraded
  }

  /** The named execution was applied to the conversation with the message among its selected ones. */
  ghost predicate Covers(executions: seq<Execution>, execution: Id, conversation: Id, m: Id) {
    exists i :: 0 <= i < |executions| && executions[i].id == execution
      && executions[i].key.conversation == conversation && m in executions[i].key.messages
  }

  /** A row names an execution exactly when it is completed, and that execution covers its message. */
  ghost predicate RowCovered(db: Db, m: Id)
    requires m in db.rows
  {
    && (db.rows[m].execution.Some? <==> IsCompleted(db.rows[m].status))
    && (db.rows[m].execution.Some? ==> Covers(db.executions, db.rows[m].execution.value, db.rows[m].conversation, m))
  }

  ghost predicate CompletedIsCovered(db: Db) {
    forall m :: m in db.rows ==> RowCovered(db, m)
  }

  lemma CoversAppend(executions: seq<Execution>, more: seq<Execution>, execution: Id, conversation: Id, m: Id)
    requires Covers(executions, execution, conversation, m)
    ensures Covers(executions + more, execution, conversation, m)
  {
    var i :| 0 <= i < |executions| && executions[i].id == execution
      && executions[i].key.conversation == conversation && m in executions[i].key.messages;
    assert (executions + more)[i] == executions[i];
  }

  lemma CompleteWrites(db: Db, claim: Claim, status: Status, execution: Option<Id>, evaluation: Option<Id>)
    ensures var r := Complete(db, claim, status, execution, evaluation);
            r.Some? ==>
              && OwnsRow(db, claim) && claim.message in r.value.rows
              && r.value.rows[claim.message].execution == execution && r.value.rows[claim.message].status == status
              && r.value.rows[claim.message].conversation == db.rows[claim.message].conversation
              && r.value.executions == db.executions
  {
  }

  lemma FailWrites(db: Db, claim: Claim, status: Status, nextAttempt: int)
    ensures var r := Fail(db, claim, status, nextAttempt);
            r.Some? ==>
              && OwnsRow(db, claim) && claim.message in r.value.rows
              && r.value.rows[claim.message].execution == db.rows[claim.message].execution
              && r.value.rows[claim.message].status == status
              && r.value.executions == db.executions
  {
  }

  lemma BlockWrites(db: Db, claim: Claim, status: Status)
    requires !IsCompleted(status)
    ensures Block(db, claim, status).Commit? ==>
              && claim.message in Block(db, claim, status).db.rows && RowCovered(Block(db, claim, status).db, claim.message)
              && Block(db, claim, status).db.executions == db.executions
  {
    CompleteWrites(db, claim, status, None, None);
  }

  lemma PrepareWrites(db: Db, claim: Claim)
    ensures Prepare(db, claim).Settled? && Prepare(db, claim).tx.Commit? ==>
              var b := Prepare(db, claim).tx.db;
              claim.message in b.rows && RowCovered(b, claim.message) && b.executions == db.executions
  {
    BlockWrites(db, claim, BlockedDoNotContact);
    BlockWrites(db, claim, BlockedHandoff);
  }

  lemma DuplicateWrites(db: Db, claim: Claim, ext: Extraction, slot: nat)
    requires slot < |db.executions| && db.executions[slot].key == DurableKey(claim.conversation, ext.messages)
    requires ValidExtraction(claim, ext) && OwnsRow(db, claim) && db.rows[claim.message].conversation == claim.conversation
    ensures var tx := FinishDuplicate(db, claim, db.executions[slot]);
            tx.Commit? ==> claim.message in tx.db.rows && RowCovered(tx.db, claim.message) && tx.db.executions == db.executions
  {
    var existing := db.executions[slot];
    CompleteWrites(db, claim, Completed, Some(existing.id), EvaluationOf(db.evaluations, existing.id));
    assert Covers(db.executions, existing.id, claim.conversation, claim.message);
  }

  lemma PlannedWrites(db: Db, claim: Claim, ext: Extraction, plan: CommitPlan)
    requires Linked(db, claim)
    requires ValidExtraction(claim, ext) && OwnsRow(db, claim) && db.rows[claim.message].conversation == claim.conversation
    ensures var tx := CommitPlanned(db, claim, ext, plan);
            tx.Commit? ==>
              && claim.message in tx.db.rows && RowCovered(tx.db, claim.message)
              && |tx.db.executions| == |db.executions| + 1 && tx.db.executions[..|db.executions|] == db.executions
  {
    var after := WithEffects(db, claim, ext, plan);
    CompleteWrites(after, claim, if ext.degraded then CompletedDegraded else Completed, Some(db.nextId), Some(db.nextId + 1));
    assert after.executions[|db.executions|].id == db.nextId;
    assert Covers(after.executions, db.nextId, claim.conversation, claim.message);
  }

  lemma AdmittedWrites(db: Db, claim: Claim, context: Context, ext: Extraction, verdict: Verdict)
    requires ValidExtraction(claim, ext) && Linked(db, claim) && OwnsRow(db, claim)
    requires db.rows[claim.message].conversation == claim.conversation
    ensures var slot := ExecutionSlot(db.executions, DurableKey(claim.conversation, ext.messages));
            slot < |db.executions| ==>
              var tx := FinishDuplicate(db, claim, db.executions[slot]);
              tx.Commit? ==> claim.message in tx.db.rows && RowCovered(tx.db, claim.message) && tx.db.executions == db.executions
    ensures var tx := CommitPlanned(db, claim, ext, PlanCommit(db, claim, context, ext, verdict));
            tx.Commit? ==>
              && claim.message in tx.db.rows && RowCovered(tx.db, claim.message)
              && |tx.db.executions| == |db.executions| + 1 && tx.db.executions[..|db.executions|] == db.executions
  {
    PlannedWrites(db, claim, ext, PlanCommit(db, claim, context, ext, verdict));
    var slot := ExecutionSlot(db.executions, DurableKey(claim.conversation, ext.messages));
    if slot < |db.executions| {
      DuplicateWrites(db, claim, ext, slot);
    }
  }

  lemma FinalizeWrites(db: Db, claim: Claim, context: Context, ext: Extraction, verdict: Verdict)
    requires ValidExtraction(claim, ext)
    requires RowExists(db, claim) && db.rows[claim.message].conversation == claim.conversation
    ensures var tx := Finalize(db, claim, context, ext, verdict);
            tx.Commit? ==>
              && claim.message in tx.db.rows && RowCovered(tx.db, claim.message)
              && |tx.db.executions| >= |db.executions| && tx.db.executions[..|db.executions|] == db.executions
  {
    if OwnsRow(db, claim) && Linked(db, claim) {
      var conversation := db.conversations[claim.conversation];
      if db.leads[conversation.lead].version != context.leadVersion {
      } else if db.contacts[conversation.contact].doNotContact && !ext.dnc {
        BlockWrites(db, claim, BlockedDoNotContact);
      } else if HandoffActive(db.handoffs, claim.conversation) && !ext.dnc {
        BlockWrites(db, claim, BlockedHandoff);
      } else {
        AdmittedWrites(db, claim, context, ext, verdict);
      }
    }
  }

  lemma FailureCovers(db: Db, claim: Claim, retryable: bool, invalid: bool, now: int, maxAttempts: nat)
    requires RowExists(db, claim) && RowCovered(db, claim.message) && OwnsRow(db, claim) && Leases(db)
    ensures var tx := RecordFailure(db, claim, retryable, invalid, now, maxAttempts);
            tx.Commit? ==>
              claim.message in tx.db.rows && RowCovered(tx.db, claim.message) && tx.db.executions == db.executions
  {
    FailWrites(db, claim, FailureStatus(claim.attempts, retryable, invalid, maxAttempts), now + Backoff(claim.attempts));
  }

  /** A committed outcome leaves its own row covered and keeps the stored executions. */
  lemma CommitCovers(s: System, step: Step, config: Config)
    requires FenceInvariant(s) && CompletedIsCovered(s.db)
    requires TxOf(s, step, config).Commit?
    ensures var b := TxOf(s, step, config).db;
            && step.token in s.workers
            && var m := s.workers[step.token].claim.message;
            && m in b.rows && RowCovered(b, m)
            && |b.executions| >= |s.db.executions| && b.executions[..|s.db.executions|] == s.db.executions
  {
    var w := s.workers[step.token];
    match step
    case PrepareStep(token) =>
      PrepareWrites(s.db, w.claim);
    case FinalizeStep(token, ext, verdict) =>
      FinalizeWrites(s.db, w.claim, w.phase.context, ext, verdict);
    case FailStep(token, now) =>
      FailureCovers(s.db, w.claim, w.phase.retryable, w.phase.invalid, now, config.maxAttempts);
  }

  lemma IngestKeepsCovered(s: System, t: System)
    requires CompletedIsCovered(s.db) && IsIngest(s, t)
    ensures CompletedIsCovered(t.db)
  {
    forall m | m in t.db.rows ensures RowCovered(t.db, m) {
      if m in s.db.rows {
        assert RowCovered(s.db, m) && t.db.rows[m] == s.db.rows[m];
      } else {
        UntouchedRowIsUncovered(s, t, m);
      }
    }
  }

  lemma UntouchedRowIsUncovered(s: System, t: System, m: Id)
    requires IsIngest(s, t) && m in t.db.rows && m !in s.db.rows
    ensures t.db.rows[m].execution == None && t.db.rows[m].status == Pending
  {
  }

  lemma ClaimKeepsCovered(db: Db, m: Id, until: int)
    requires CompletedIsCovered(db) && m in db.rows && m in db.messages && db.rows[m].conversation in db.conversations
    requires !Terminal(db.rows[m].status)
    ensures CompletedIsCovered(ClaimMessage(db, m, until))
  {
    var after := ClaimMessage(db, m, until);
    forall k | k in after.rows ensures RowCovered(after, k) {
      assert RowCovered(db, k);
    }
  }

  lemma CommitKeepsCovered(s: System, step: Step, config: Config)
    requires FenceInvariant(s) && CompletedIsCovered(s.db)
    requires TxOf(s, step, config).Commit?
    ensures CompletedIsCovered(TxOf(s, step, config).db)
  {
    var a, b := s.db, TxOf(s, step, config).db;
    CommitCovers(s, step, config);
    TxReleases(s, step, config);
    var own := s.workers[step.token].claim.message;
    assert b.rows == a.rows[own := b.rows[own]];
    var more := b.executions[|a.executions|..];
    assert b.executions == a.executions + more;
    forall m | m in b.rows ensures RowCovered(b, m) {
      if m != own {
        RowStaysCovered(a, b, more, m);
      }
    }
  }

  lemma RowStaysCovered(a: Db, b: Db, more: seq<Execution>, m: Id)
    requires m in a.rows && m in b.rows && b.rows[m] == a.rows[m] && RowCovered(a, m)
    requires b.executions == a.executions + more
    ensures RowCovered(b, m)
  {
    if a.rows[m].execution.Some? {
      CoversAppend(a.executions, more, a.rows[m].execution.value, a.rows[m].conversation, m);
    }
  }

  lemma NextKeepsCovered(s: System, step: Step, config: Config)
    requires FenceInvariant(s) && CompletedIsCovered(s.db)
    ensures CompletedIsCovered(Next(s, step, config).db)
  {
    var t := Next(s, step, config);
    if step.IngestStep? {
      IngestIsShaped(s, step, config);
      if !IsIdle(s, t) {
        IngestKeepsCovered(s, t);
      }
    } else if step.ClaimStep? {
      ClaimIsShaped(s, step, config);
      if !IsIdle(s, t) {
        ClaimKeepsCovered(s.db, step.message, step.now + config.leaseSeconds);
      }
    } else {
      NextSettles(s, step, config);
      if TxOf(s, step, config).Commit? {
        CommitKeepsCovered(s, step, config);
      }
    }
  }

  /** In every run, a message's row is completed exactly when it names an execution, and that execution was
      applied to the message's conversation with the message among the selected ones. */
  lemma {:induction false} RunsAreCovered(steps: seq<Step>, config: Config)
    ensures CompletedIsCovered(Run(steps, config).db)
  {
    if steps != [] {
      var front := steps[..|steps| - 1];
      RunsAreCovered(front, config);
      RunsAreFenced(front, config);
      NextKeepsCovered(Run(front, config), steps[|steps| - 1], config);
    }
  }
}
