// What a commit does beyond its rows and leases: the coupling of conversation states with handoffs and
// questions, and which state transitions a commit can ask for, in every reachable state.
module ProtocolEffects {
  import opened Wrappers
  import opened StateMachines
  import opened Protocol
  import opened ProtocolLeases
  import opened ProtocolFencing

  // ---------------------------------------------------------------- the shape of a step

  /** The tables only an applied extraction writes are as before. */
  ghost predicate SameEffects(a: Db, b: Db) {
    && a.nextId <= b.nextId
    && b.contacts == a.contacts && b.leads == a.leads
    && b.executions == a.executions && b.evaluations == a.evaluations
    && b.handoffs == a.handoffs && b.questions == a.questions
    && b.conversations.Keys == a.conversations.Keys
    && (forall c :: c in a.conversations ==>
          && b.conversations[c].contact == a.conversations[c].contact
          && b.conversations[c].lead == a.conversations[c].lead
          && b.conversations[c].state == a.conversations[c].state
          && b.conversations[c].automation == a.conversations[c].automation)
  }

  /** The guards an extraction passes before anything of it is written. */
  predicate Admitted(db: Db, claim: Claim, context: Context, ext: Extraction) {
    && OwnsRow(db, claim) && Linked(db, claim)
    && db.leads[db.conversations[claim.conversation].lead].version == context.leadVersion
    && (db.contacts[db.conversations[claim.conversation].contact].doNotContact ==> ext.dnc)
    && (HandoffActive(db.handoffs, claim.conversation) ==> ext.dnc)
    && ExecutionSlot(db.executions, DurableKey(claim.conversation, ext.messages)) == |db.executions|
    && !ViolatesUniqueIndex(db, claim)
  }

  ghost predicate IsApplied(a: Db, b: Db, claim: Claim, context: Context, ext: Extraction, verdict: Verdict) {
    && Admitted(a, claim, context, ext)
    && var plan := PlanCommit(a, claim, context, ext, verdict);
       && TransitionsAllowed(a.conversations[claim.conversation].state,
                             a.leads[a.conversations[claim.conversation].lead].state, plan)
       && SameEffects(WithEffects(a, claim, ext, plan), b)
  }

  lemma CompleteKeepsEffects(db: Db, claim: Claim, status: Status, execution: Option<Id>, evaluation: Option<Id>)
    ensures Complete(db, claim, status, execution, evaluation).Some? ==>
      SameEffects(db, Complete(db, claim, status, execution, evaluation).value)
  {
  }

  lemma FailKeepsEffects(db: Db, claim: Claim, status: Status, nextAttempt: int)
    ensures Fail(db, claim, status, nextAttempt).Some? ==> SameEffects(db, Fail(db, claim, status, nextAttempt).value)
  {
  }

  lemma BlockKeepsEffects(db: Db, claim: Claim, status: Status)
    ensures Block(db, claim, status).Commit? ==>
      && SameEffects(db, Block(db, claim, status).db)
      && Block(db, claim, status).effect == NoEffect && Block(db, claim, status).status == status
  {
    CompleteKeepsEffects(db, claim, status, None, None);
  }

  lemma PlannedApplies(db: Db, claim: Claim, context: Context, ext: Extraction, verdict: Verdict)
    requires Admitted(db, claim, context, ext)
    ensures var plan := PlanCommit(db, claim, context, ext, verdict);
            var tx := CommitPlanned(db, claim, ext, plan);
            tx.Commit? ==>
              && IsApplied(db, tx.db, claim, context, ext, verdict)
              && tx.effect == Applied(db.conversations[claim.conversation].contact, db.conversations[claim.conversation].lead,
                                      ext.dnc, plan.newHandoff, plan.newQuestion)
              && tx.status == (if ext.degraded then CompletedDegraded else Completed)
  {
    var plan := PlanCommit(db, claim, context, ext, verdict);
    var status := if ext.degraded then CompletedDegraded else Completed;
    CompleteKeepsEffects(WithEffects(db, claim, ext, plan), claim, status, Some(db.nextId), Some(db.nextId + 1));
  }

  /** A finalize that commits either changes no effect table or applies its extraction. */
  lemma FinalizeEffects(db: Db, claim: Claim, context: Context, ext: Extraction, verdict: Verdict)
    ensures var tx := Finalize(db, claim, context, ext, verdict);
            tx.Commit? ==>
              && (!tx.effect.Applied? ==> SameEffects(db, tx.db))
              && (tx.effect.Applied? ==>
                    && IsApplied(db, tx.db, claim, context, ext, verdict)
                    && tx.effect.contact == db.conversations[claim.conversation].contact
                    && tx.effect.lead == db.conversations[claim.conversation].lead
                    && tx.effect.dnc == ext.dnc
                    && tx.effect.newHandoff == PlanCommit(db, claim, context, ext, verdict).newHandoff
                    && tx.effect.newQuestion == PlanCommit(db, claim, context, ext, verdict).newQuestion)
  {
    BlockKeepsEffects(db, claim, BlockedDoNotContact);
    BlockKeepsEffects(db, claim, BlockedHandoff);
    if OwnsRow(db, claim) && Linked(db, claim) {
      var slot := ExecutionSlot(db.executions, DurableKey(claim.conversation, ext.messages));
      if slot < |db.executions| {
        var existing := db.executions[slot];
        CompleteKeepsEffects(db, claim, Completed, Some(existing.id), EvaluationOf(db.evaluations, existing.id));
      } else if Admitted(db, claim, context, ext) {
        PlannedApplies(db, claim, context, ext, verdict);
      }
    }
  }

  /** The step is a finalize that applies its extraction. */
  ghost predicate AppliesExtraction(s: System, step: Step, t: System) {
    && step.FinalizeStep? && step.token in s.workers && s.workers[step.token].phase.ReadyToFinalize?
    && Honest(s.db, step.ext) && ValidExtraction(s.workers[step.token].claim, step.ext)
    && var w := s.workers[step.token];
       var db := s.db;
       && IsApplied(db, t.db, w.claim, w.phase.context, step.ext, step.verdict)
       && var plan := PlanCommit(db, w.claim, w.phase.context, step.ext, step.verdict);
          t.log == s.log + [Finishing(w.claim, if step.ext.degraded then CompletedDegraded else Completed,
            Applied(db.conversations[w.claim.conversation].contact, db.conversations[w.claim.conversation].lead,
                    step.ext.dnc, plan.newHandoff, plan.newQuestion))]
  }

  /** The step leaves the effect tables alone, and the outcome it logs, if any, applies nothing. */
  ghost predicate AppliesNothing(s: System, t: System) {
    && SameEffects(s.db, t.db)
    && (t.log == s.log
        || exists e :: t.log == s.log + [e] && (e.Finishing? ==> !e.effect.Applied?))
  }

  lemma SettleQuietly(s: System, token: Id, tx: Tx)
    requires token in s.workers
    requires tx.Commit? ==> SameEffects(s.db, tx.db) && !tx.effect.Applied?
    ensures AppliesNothing(s, Settle(s, token, tx))
  {
    if tx.Commit? {
      var e := Finishing(s.workers[token].claim, tx.status, tx.effect);
      assert Settle(s, token, tx).log == s.log + [e];
    }
  }

  lemma PrepareChangesNothing(s: System, step: Step, config: Config)
    requires step.PrepareStep?
    ensures AppliesNothing(s, Next(s, step, config))
  {
    var token := step.token;
    if token in s.workers && s.workers[token].phase == Claimed {
      var claim := s.workers[token].claim;
      BlockKeepsEffects(s.db, claim, BlockedDoNotContact);
      BlockKeepsEffects(s.db, claim, BlockedHandoff);
      if Prepare(s.db, claim).Settled? {
        SettleQuietly(s, token, Prepare(s.db, claim).tx);
      }
    }
  }

  lemma FailureChangesNothing(s: System, step: Step, config: Config)
    requires step.FailStep?
    ensures AppliesNothing(s, Next(s, step, config))
  {
    var token := step.token;
    if token in s.workers && s.workers[token].phase.Failing? {
      var w := s.workers[token];
      FailKeepsEffects(s.db, w.claim,
                       FailureStatus(w.claim.attempts, w.phase.retryable, w.phase.invalid, config.maxAttempts),
                       step.now + Backoff(w.claim.attempts));
      SettleQuietly(s, token,
                    RecordFailure(s.db, w.claim, w.phase.retryable, w.phase.invalid, step.now, config.maxAttempts));
    }
  }

  lemma ClaimChangesNothing(s: System, step: Step, config: Config)
    requires step.ClaimStep?
    ensures AppliesNothing(s, Next(s, step, config))
  {
    if Candidate(s.db, step.now, step.locked, step.message) {
      var e := Claiming(ClaimOf(s.db, step.message));
      assert Next(s, step, config).log == s.log + [e];
    }
  }

  lemma NextEffects(s: System, step: Step, config: Config)
    requires Refs(s.db)
    ensures var t := Next(s, step, config);
            || AppliesNothing(s, t)
            || (step.IngestStep? && IsIngest(s, t))
            || AppliesExtraction(s, step, t)
  {
    match step
    case IngestStep(command, now) =>
      NextIsShaped(s, step, config);
    case ClaimStep(m, locked, now) =>
      ClaimChangesNothing(s, step, config);
    case PrepareStep(token) =>
      PrepareChangesNothing(s, step, config);
    case FinalizeStep(token, ext, verdict) =>
      if token in s.workers && s.workers[token].phase.ReadyToFinalize? && Honest(s.db, ext)
        && ValidExtraction(s.workers[token].claim, ext) {
        FinalizeStepEffects(s, step, config);
      }
    case FailStep(token, now) =>
      FailureChangesNothing(s, step, config);
    case ExtractorErrorStep(token, error) =>
    case CrashStep(token) =>
  }

  lemma FinalizeStepEffects(s: System, step: Step, config: Config)
    requires step.FinalizeStep? && step.token in s.workers && s.workers[step.token].phase.ReadyToFinalize?
    requires Honest(s.db, step.ext) && ValidExtraction(s.workers[step.token].claim, step.ext)
    ensures AppliesNothing(s, Next(s, step, config)) || AppliesExtraction(s, step, Next(s, step, config))
  {
    var w := s.workers[step.token];
    var tx := Finalize(s.db, w.claim, w.phase.context, step.ext, step.verdict);
    FinalizeEffects(s.db, w.claim, w.phase.context, step.ext, step.verdict);
    if !(tx.Commit? && tx.effect.Applied?) {
      SettleQuietly(s, step.token, tx);
    } else {
      PlannedApplies(s.db, w.claim, w.phase.context, step.ext, step.verdict);
    }
  }

  // ---------------------------------------------------------------- handoffs and questions of a conversation

  ghost predicate OneActiveHandoff(handoffs: seq<Handoff>) {
    forall c, i, j :: 0 <= i < |handoffs| && 0 <= j < |handoffs| && IsActive(handoffs[i], c) && IsActive(handoffs[j], c)
      ==> i == j
  }

  predicate QuestionPending(questions: seq<Question>, conversation: Id) {
    QuestionSlot(questions, conversation) < |questions|
  }

  ghost predicate OnePendingQuestion(questions: seq<Question>) {
    forall c, i, j :: 0 <= i < |questions| && 0 <= j < |questions| && IsAsked(questions[i], c) && IsAsked(questions[j], c)
      ==> i == j
  }

  lemma CancelledHandoffs(handoffs: seq<Handoff>, c: Id, d: Id)
    ensures HandoffActive(CancelHandoffs(handoffs, c), d) <==> d != c && HandoffActive(handoffs, d)
    ensures OneActiveHandoff(handoffs) ==> OneActiveHandoff(CancelHandoffs(handoffs, c))
  {
    var after := CancelHandoffs(handoffs, c);
    assert forall i, e :: 0 <= i < |after| && IsActive(after[i], e) ==> e != c && IsActive(handoffs[i], e);
    var slot := HandoffSlot(handoffs, d);
    if slot < |handoffs| && d != c {
      assert IsActive(after[slot], d);
    }
  }

  lemma CreatedHandoff(handoffs: seq<Handoff>, c: Id, ext: Extraction, verdict: Verdict, id: Id, d: Id)
    ensures var after := CreateHandoff(handoffs, c, ext, verdict, id).0;
            && (HandoffActive(after, d) <==> d == c || HandoffActive(handoffs, d))
            && (OneActiveHandoff(handoffs) ==> OneActiveHandoff(after))
  {
    var after := CreateHandoff(handoffs, c, ext, verdict, id).0;
    var slot := HandoffSlot(handoffs, c);
    if slot == |handoffs| {
      assert IsActive(after[|handoffs|], c);
      assert after[..|handoffs|] == handoffs;
      assert forall i, e :: 0 <= i < |handoffs| && IsActive(after[i], e) ==> IsActive(handoffs[i], e);
    }
    var other := HandoffSlot(handoffs, d);
    if other < |handoffs| {
      assert IsActive(after[other], d);
    }
  }

  lemma CancelledQuestions(questions: seq<Question>, c: Id, d: Id)
    ensures QuestionPending(CancelQuestions(questions, c), d) <==> d != c && QuestionPending(questions, d)
    ensures OnePendingQuestion(questions) ==> OnePendingQuestion(CancelQuestions(questions, c))
  {
    var after := CancelQuestions(questions, c);
    assert forall i, e :: 0 <= i < |after| && IsAsked(after[i], e) ==> e != c && IsAsked(questions[i], e);
    var slot := QuestionSlot(questions, d);
    if slot < |questions| && d != c {
      assert IsAsked(after[slot], d);
    }
  }

  lemma UpdatedQuestion(
    questions: seq<Question>, c: Id, changed: bool, silent: bool, question: Option<Profile.Field>, id: Id, d: Id)
    ensures var (after, asked) := UpdateQuestion(questions, c, changed, silent, question, id);
            && (d != c ==> (QuestionPending(after, d) <==> QuestionPending(questions, d)))
            && (silent ==> !QuestionPending(after, c))
            && (asked.Some? <==> !silent && question.Some?)
            && (asked.Some? ==> QuestionPending(after, c) && exists i :: 0 <= i < |after| && IsAsked(after[i], c) && asked == Some(after[i].id))
            && (OnePendingQuestion(questions) ==> OnePendingQuestion(after))
  {
    var (after, asked) := UpdateQuestion(questions, c, changed, silent, question, id);
    var kept := if changed || silent then CancelQuestions(questions, c) else questions;
    CancelledQuestions(questions, c, c);
    CancelledQuestions(questions, c, d);
    var slot := QuestionSlot(kept, c);
    if !silent && question.Some? {
      if slot == |kept| {
        assert IsAsked(after[|kept|], c);
        assert forall i, e :: 0 <= i < |kept| && IsAsked(after[i], e) ==> IsAsked(kept[i], e);
      } else {
        assert IsAsked(after[slot], c);
      }
      var other := QuestionSlot(kept, d);
      if other < |kept| {
        assert IsAsked(after[other], d);
      }
    }
  }

  /** The handoffs and questions a commit leaves, conversation by conversation. */
  lemma HandoffsLeft(handoffs: seq<Handoff>, c: Id, ext: Extraction, verdict: Verdict, n: Id, d: Id)
    ensures var (after, handoff) := HandoffsAfter(handoffs, c, ext, verdict, n);
            && (d != c ==> (HandoffActive(after, d) <==> HandoffActive(handoffs, d)))
            && (HandoffActive(after, c) <==> !ext.dnc && (NeedsHandoff(ext, verdict) || HandoffActive(handoffs, c)))
            && (handoff.Some? <==> NeedsHandoff(ext, verdict))
            && (OneActiveHandoff(handoffs) ==> OneActiveHandoff(after))
  {
    if NeedsHandoff(ext, verdict) {
      CreatedHandoff(handoffs, c, ext, verdict, n + 2, d);
      CreatedHandoff(handoffs, c, ext, verdict, n + 2, c);
    } else {
      CancelledHandoffs(handoffs, c, d);
      CancelledHandoffs(handoffs, c, c);
    }
  }

  lemma QuestionsLeft(
    questions: seq<Question>, c: Id, changed: bool, ext: Extraction, verdict: Verdict, n: Id, d: Id)
    ensures var (after, asked) := QuestionsAfter(questions, c, changed, ext, verdict, n);
            && (d != c ==> (QuestionPending(after, d) <==> QuestionPending(questions, d)))
            && (ext.dnc || NeedsHandoff(ext, verdict) ==> !QuestionPending(after, c))
            && (asked.Some? <==> !ext.dnc && !NeedsHandoff(ext, verdict) && ext.question.Some?)
            && (asked.Some? ==> QuestionPending(after, c))
            && (OnePendingQuestion(questions) ==> OnePendingQuestion(after))
  {
    var silent := ext.dnc || NeedsHandoff(ext, verdict);
    UpdatedQuestion(questions, c, changed, silent, ext.question, n + 3, d);
    var updated := UpdateQuestion(questions, c, changed, silent, ext.question, n + 3).0;
    CancelledQuestions(updated, c, d);
    CancelledQuestions(updated, c, c);
  }

  /** A handoff is created only when none is active, requested by the customer's own wish first, then specialized;
      otherwise the active one is the conversation's handoff and nothing is added. */
  lemma HandoffCreatedOnce(handoffs: seq<Handoff>, c: Id, ext: Extraction, verdict: Verdict, n: Id)
    requires NeedsHandoff(ext, verdict)
    ensures var (after, handoff) := HandoffsAfter(handoffs, c, ext, verdict, n);
            && handoff.Some?
            && (exists i :: 0 <= i < |after| && IsActive(after[i], c) && handoff == Some(after[i].id))
            && (HandoffActive(handoffs, c) ==> after == handoffs)
            && (!HandoffActive(handoffs, c) ==>
                  && |after| == |handoffs| + 1 && after[..|handoffs|] == handoffs
                  && var created := after[|handoffs|];
                     && created.conversation == c && created.status == Requested
                     && created.specialized == (ext.specialized || verdict.specialized)
                     && (ext.humanRequested ==> created.priority > 900)
                     && (!ext.humanRequested ==> (created.priority == 900 <==> created.specialized) && 850 <= created.priority <= 900))
  {
    var (after, handoff) := HandoffsAfter(handoffs, c, ext, verdict, n);
    var slot := HandoffSlot(handoffs, c);
    assert slot == |handoffs| ==> IsActive(after[|handoffs|], c);
  }

  /** A changed profile withdraws the pending question; a suggested one is then asked anew, while an unchanged
      profile keeps what is pending and adds nothing to it. */
  lemma QuestionFollowsProfile(
    questions: seq<Question>, c: Id, changed: bool, ext: Extraction, verdict: Verdict, n: Id)
    requires !ext.dnc && !NeedsHandoff(ext, verdict)
    ensures var (after, asked) := QuestionsAfter(questions, c, changed, ext, verdict, n);
            && (ext.question.None? ==> asked == None && (QuestionPending(after, c) <==> QuestionPending(questions, c) && !changed))
            && (ext.question.Some? && (changed || !QuestionPending(questions, c)) ==>
                  && |after| == |questions| + 1 && after[|questions|].conversation == c
                  && after[|questions|].field == ext.question.value && after[|questions|].status == Asked
                  && asked == Some(after[|questions|].id))
            && (!changed && QuestionPending(questions, c) ==> after == questions)
  {
    CancelledQuestions(questions, c, c);
  }

  lemma PlannedHandoffs(db: Db, claim: Claim, context: Context, ext: Extraction, verdict: Verdict, d: Id)
    requires Linked(db, claim)
    ensures var plan := PlanCommit(db, claim, context, ext, verdict);
            var c := claim.conversation;
            && (d != c ==> (HandoffActive(plan.handoffs, d) <==> HandoffActive(db.handoffs, d)))
            && (HandoffActive(plan.handoffs, c) <==> !ext.dnc && (NeedsHandoff(ext, verdict) || HandoffActive(db.handoffs, c)))
            && (plan.newHandoff.Some? <==> NeedsHandoff(ext, verdict))
            && (OneActiveHandoff(db.handoffs) ==> OneActiveHandoff(plan.handoffs))
  {
    var plan := PlanCommit(db, claim, context, ext, verdict);
    assert (plan.handoffs, plan.newHandoff) == HandoffsAfter(db.handoffs, claim.conversation, ext, verdict, db.nextId);
    HandoffsLeft(db.handoffs, claim.conversation, ext, verdict, db.nextId, d);
  }

  /** Whether a commit's plan changes the profile. */
  function ProfileChanges(db: Db, claim: Claim, context: Context, ext: Extraction): bool
    requires Linked(db, claim)
  {
    var lead := db.leads[db.conversations[claim.conversation].lead];
    ProfileHistory.ChangesProfile(
      PlannedDecisions(context, lead, ext, db.messages[claim.message].correctionText))
  }

  lemma PlannedQuestions(db: Db, claim: Claim, context: Context, ext: Extraction, verdict: Verdict, d: Id)
    requires Linked(db, claim)
    ensures var plan := PlanCommit(db, claim, context, ext, verdict);
            var c := claim.conversation;
            && (d != c ==> (QuestionPending(plan.questions, d) <==> QuestionPending(db.questions, d)))
            && (ext.dnc || NeedsHandoff(ext, verdict) ==> !QuestionPending(plan.questions, c))
            && (plan.newQuestion.Some? <==> !ext.dnc && !NeedsHandoff(ext, verdict) && ext.question.Some?)
            && (plan.newQuestion.Some? ==> QuestionPending(plan.questions, c))
            && (OnePendingQuestion(db.questions) ==> OnePendingQuestion(plan.questions))
  {
    var plan := PlanCommit(db, claim, context, ext, verdict);
    var changed := ProfileChanges(db, claim, context, ext);
    assert (plan.questions, plan.newQuestion)
        == QuestionsAfter(db.questions, claim.conversation, changed, ext, verdict, db.nextId);
    QuestionsLeft(db.questions, claim.conversation, changed, ext, verdict, db.nextId, d);
  }

  // ---------------------------------------------------------------- the coupling

  /** The state of a conversation, its automation flag, its handoffs, its questions and its contact agree. */
  ghost predicate Coupled(db: Db, c: Id)
    requires c in db.conversations && db.conversations[c].contact in db.contacts
  {
    var conversation := db.conversations[c];
    && conversation.state in {Open, Qualifying, WaitingCustomer, WaitingHuman, DoNotContact}
    && (conversation.state == WaitingHuman <==> HandoffActive(db.handoffs, c))
    && (!conversation.automation <==> conversation.state == WaitingHuman || conversation.state == DoNotContact)
    && (!conversation.automation || conversation.state == Open ==> !QuestionPending(db.questions, c))
    && (conversation.state == WaitingCustomer ==> QuestionPending(db.questions, c))
    && (conversation.state == DoNotContact ==> db.contacts[conversation.contact].doNotContact)
  }

  ghost predicate AllCoupled(db: Db)
    requires ConversationRefs(db)
  {
    forall c :: c in db.conversations ==> Coupled(db, c)
  }

  ghost predicate LeadSettled(db: Db, l: Id)
    requires l in db.leads && db.leads[l].contact in db.contacts
  {
    && db.leads[l].state in {New, LeadQualifying, Qualified, LeadDoNotContact}
    && (db.leads[l].state == LeadDoNotContact ==> db.contacts[db.leads[l].contact].doNotContact)
  }

  /** Leads are in one of four states, and in do-not-contact only with their contact. */
  ghost predicate LeadsSettled(db: Db)
    requires ConversationRefs(db)
  {
    forall c :: c in db.conversations ==> LeadSettled(db, db.conversations[c].lead)
  }

  ghost predicate NothingMissing(db: Db) {
    forall i :: 0 <= i < |db.evaluations| ==> db.evaluations[i].missing == []
  }

  /** Handoffs and questions belong to stored conversations. */
  ghost predicate EffectRefs(db: Db) {
    && (forall i :: 0 <= i < |db.handoffs| ==> db.handoffs[i].conversation in db.conversations)
    && (forall i :: 0 <= i < |db.questions| ==> db.questions[i].conversation in db.conversations)
  }

  ghost predicate Coupling(db: Db) {
    && ConversationRefs(db) && EffectRefs(db)
    && AllCoupled(db) && LeadsSettled(db) && NothingMissing(db)
    && OneActiveHandoff(db.handoffs) && OnePendingQuestion(db.questions)
  }

  // ---------------------------------------------------------------- preservation

  lemma SameEffectsKeepCoupling(a: Db, b: Db)
    requires Coupling(a) && SameEffects(a, b)
    ensures Coupling(b)
  {
    assert ConversationRefs(b);
    forall c | c in b.conversations ensures Coupled(b, c) && LeadSettled(b, b.conversations[c].lead) {
      assert Coupled(a, c) && LeadSettled(a, a.conversations[c].lead);
    }
  }

  lemma AddingKeepsCoupling(a: Db, b: Db)
    requires Coupling(a) && IdsIssued(a) && OnlyAdds(a, b) && ConversationRefs(b)
    ensures Coupling(b)
  {
    forall c | c in b.conversations ensures Coupled(b, c) && LeadSettled(b, b.conversations[c].lead) {
      if c in a.conversations {
        assert Coupled(a, c) && LeadSettled(a, a.conversations[c].lead);
      } else {
        var l := b.conversations[c].lead;
        assert l in b.leads && l !in a.leads;
      }
    }
  }

  lemma HandoffsStayKnown(handoffs: seq<Handoff>, c: Id, ext: Extraction, verdict: Verdict, n: Id)
    ensures var after := HandoffsAfter(handoffs, c, ext, verdict, n).0;
            && |handoffs| <= |after| <= |handoffs| + 1
            && (forall i :: 0 <= i < |handoffs| ==> after[i].conversation == handoffs[i].conversation)
            && (forall i :: |handoffs| <= i < |after| ==> after[i].conversation == c)
  {
  }

  lemma QuestionsStayKnown(questions: seq<Question>, c: Id, changed: bool, ext: Extraction, verdict: Verdict, n: Id)
    ensures var after := QuestionsAfter(questions, c, changed, ext, verdict, n).0;
            && |questions| <= |after| <= |questions| + 1
            && (forall i :: 0 <= i < |questions| ==> after[i].conversation == questions[i].conversation)
            && (forall i :: |questions| <= i < |after| ==> after[i].conversation == c)
  {
  }

  lemma PlanKeepsEffectRefs(db: Db, claim: Claim, context: Context, ext: Extraction, verdict: Verdict)
    requires Linked(db, claim) && EffectRefs(db)
    ensures var plan := PlanCommit(db, claim, context, ext, verdict);
            && (forall i :: 0 <= i < |plan.handoffs| ==> plan.handoffs[i].conversation in db.conversations)
            && (forall i :: 0 <= i < |plan.questions| ==> plan.questions[i].conversation in db.conversations)
  {
    HandoffsStayKnown(db.handoffs, claim.conversation, ext, verdict, db.nextId);
    QuestionsStayKnown(db.questions, claim.conversation, ProfileChanges(db, claim, context, ext), ext, verdict, db.nextId);
  }

  lemma EffectsKeepLinks(db: Db, claim: Claim, ext: Extraction, plan: CommitPlan)
    requires Linked(db, claim) && ConversationRefs(db)
    ensures ConversationRefs(WithEffects(db, claim, ext, plan))
    ensures WithEffects(db, claim, ext, plan).conversations.Keys == db.conversations.Keys
  {
  }

  lemma EffectsKeepReferences(db: Db, claim: Claim, context: Context, ext: Extraction, verdict: Verdict)
    requires Linked(db, claim) && ConversationRefs(db) && EffectRefs(db) && NothingMissing(db)
    ensures var after := WithEffects(db, claim, ext, PlanCommit(db, claim, context, ext, verdict));
            ConversationRefs(after) && EffectRefs(after) && NothingMissing(after)
  {
    EffectsKeepLinks(db, claim, ext, PlanCommit(db, claim, context, ext, verdict));
    PlanKeepsEffectRefs(db, claim, context, ext, verdict);
  }

  /** With nothing ever missing, the lead never becomes incomplete, so its transition is always allowed. */
  lemma LeadTransitionAllowed(db: Db, claim: Claim, context: Context, ext: Extraction, verdict: Verdict)
    requires Linked(db, claim) && Coupling(db) && Admitted(db, claim, context, ext)
    ensures var plan := PlanCommit(db, claim, context, ext, verdict);
            var current := db.leads[db.conversations[claim.conversation].lead].state;
            && plan.missing == []
            && plan.leadState in {LeadQualifying, Qualified, LeadDoNotContact}
            && (plan.leadState == LeadDoNotContact <==> ext.dnc)
            && (plan.leadState == Qualified <==> !ext.dnc && verdict.qualifies)
            && (current != plan.leadState ==> LeadAllows(current, plan.leadState, WorkerActor, OtherCause))
  {
    assert LeadSettled(db, db.conversations[claim.conversation].lead);
  }

  lemma OwnConversationStaysCoupled(db: Db, claim: Claim, context: Context, ext: Extraction, verdict: Verdict)
    requires Coupling(db) && Admitted(db, claim, context, ext)
    ensures var after := WithEffects(db, claim, ext, PlanCommit(db, claim, context, ext, verdict));
            && after.conversations[claim.conversation].contact in after.contacts
            && Coupled(after, claim.conversation)
  {
    PlannedHandoffs(db, claim, context, ext, verdict, claim.conversation);
    PlannedQuestions(db, claim, context, ext, verdict, claim.conversation);
  }

  lemma OtherConversationStaysCoupled(db: Db, claim: Claim, context: Context, ext: Extraction, verdict: Verdict, d: Id)
    requires Coupling(db) && Admitted(db, claim, context, ext) && d in db.conversations && d != claim.conversation
    ensures var after := WithEffects(db, claim, ext, PlanCommit(db, claim, context, ext, verdict));
            after.conversations[d].contact in after.contacts && Coupled(after, d)
  {
    PlannedHandoffs(db, claim, context, ext, verdict, d);
    PlannedQuestions(db, claim, context, ext, verdict, d);
    assert Coupled(db, d);
  }

  lemma LeadsStaySettled(db: Db, claim: Claim, context: Context, ext: Extraction, verdict: Verdict)
    requires Coupling(db) && Admitted(db, claim, context, ext)
    ensures var after := WithEffects(db, claim, ext, PlanCommit(db, claim, context, ext, verdict));
            ConversationRefs(after) && LeadsSettled(after)
  {
    LeadTransitionAllowed(db, claim, context, ext, verdict);
    EffectsKeepReferences(db, claim, context, ext, verdict);
    var after := WithEffects(db, claim, ext, PlanCommit(db, claim, context, ext, verdict));
    forall d | d in after.conversations ensures LeadSettled(after, after.conversations[d].lead) {
      assert LeadSettled(db, db.conversations[d].lead);
    }
  }

  lemma EffectsKeepCoupling(db: Db, claim: Claim, context: Context, ext: Extraction, verdict: Verdict)
    requires Coupling(db) && Admitted(db, claim, context, ext)
    ensures Coupling(WithEffects(db, claim, ext, PlanCommit(db, claim, context, ext, verdict)))
  {
    EffectsKeepReferences(db, claim, context, ext, verdict);
    LeadsStaySettled(db, claim, context, ext, verdict);
    PlannedHandoffs(db, claim, context, ext, verdict, claim.conversation);
    PlannedQuestions(db, claim, context, ext, verdict, claim.conversation);
    var after := WithEffects(db, claim, ext, PlanCommit(db, claim, context, ext, verdict));
    forall d | d in after.conversations ensures Coupled(after, d) {
      if d == claim.conversation {
        OwnConversationStaysCoupled(db, claim, context, ext, verdict);
      } else {
        OtherConversationStaysCoupled(db, claim, context, ext, verdict, d);
      }
    }
  }

  lemma NextKeepsCoupling(s: System, step: Step, config: Config)
    requires Refs(s.db) && Coupling(s.db)
    ensures Coupling(Next(s, step, config).db)
  {
    var t := Next(s, step, config);
    NextEffects(s, step, config);
    if AppliesNothing(s, t) {
      SameEffectsKeepCoupling(s.db, t.db);
    } else if step.IngestStep? {
      AddingKeepsCoupling(s.db, t.db);
    } else {
      var w := s.workers[step.token];
      EffectsKeepCoupling(s.db, w.claim, w.phase.context, step.ext, step.verdict);
      SameEffectsKeepCoupling(
        WithEffects(s.db, w.claim, step.ext, PlanCommit(s.db, w.claim, w.phase.context, step.ext, step.verdict)), t.db);
    }
  }

  /** In every reachable state: WAITING_HUMAN iff a handoff is active; automation is off iff WAITING_HUMAN or
      DO_NOT_CONTACT, and then no question is pending; WAITING_CUSTOMER implies a pending question; there is at
      most one active handoff and one pending question per conversation. */
  lemma {:induction false} RunsAreCoupled(steps: seq<Step>, config: Config)
    ensures Coupling(Run(steps, config).db)
  {
    if steps != [] {
      var front := steps[..|steps| - 1];
      RunsAreCoupled(front, config);
      RunsAreFenced(front, config);
      NextKeepsCoupling(Run(front, config), steps[|steps| - 1], config);
    }
  }

  // ---------------------------------------------------------------- transition safety

  lemma InvalidTransitionMeans(db: Db, claim: Claim, context: Context, ext: Extraction, verdict: Verdict)
    ensures Finalize(db, claim, context, ext, verdict) == Abort(InvalidTransition) <==>
      && Admitted(db, claim, context, ext)
      && !TransitionsAllowed(db.conversations[claim.conversation].state,
                             db.leads[db.conversations[claim.conversation].lead].state,
                             PlanCommit(db, claim, context, ext, verdict))
  {
    BlockKeepsEffects(db, claim, BlockedDoNotContact);
    BlockKeepsEffects(db, claim, BlockedHandoff);
  }

  /** In a reachable state a commit is refused by the state machines exactly when the first applied extraction
      of an OPEN conversation asks the customer a question: OPEN has no transition to WAITING_CUSTOMER. */
  lemma OnlyTheFirstQuestionIsRefused(
    steps: seq<Step>, config: Config, claim: Claim, context: Context, ext: Extraction, verdict: Verdict)
    ensures var db := Run(steps, config).db;
            Finalize(db, claim, context, ext, verdict) == Abort(InvalidTransition) <==>
              && Admitted(db, claim, context, ext)
              && db.conversations[claim.conversation].state == Open
              && !ext.dnc && !NeedsHandoff(ext, verdict) && ext.question.Some?
  {
    RunsAreCoupled(steps, config);
    RefusedIffFirstQuestion(Run(steps, config).db, claim, context, ext, verdict);
  }

  lemma RefusedIffFirstQuestion(db: Db, claim: Claim, context: Context, ext: Extraction, verdict: Verdict)
    requires Coupling(db)
    ensures Finalize(db, claim, context, ext, verdict) == Abort(InvalidTransition) <==>
              && Admitted(db, claim, context, ext)
              && db.conversations[claim.conversation].state == Open
              && !ext.dnc && !NeedsHandoff(ext, verdict) && ext.question.Some?
  {
    InvalidTransitionMeans(db, claim, context, ext, verdict);
    if Admitted(db, claim, context, ext) {
      AllowedUnlessFirstQuestion(db, claim, context, ext, verdict);
    }
  }

  lemma PlannedTarget(db: Db, claim: Claim, context: Context, ext: Extraction, verdict: Verdict)
    requires Linked(db, claim)
    ensures PlanCommit(db, claim, context, ext, verdict).state ==
            if ext.dnc then DoNotContact
            else if NeedsHandoff(ext, verdict) then WaitingHuman
            else if ext.question.Some? then WaitingCustomer
            else Qualifying
  {
    PlannedHandoffs(db, claim, context, ext, verdict, claim.conversation);
    PlannedQuestions(db, claim, context, ext, verdict, claim.conversation);
  }

  /** Which targets the worker reaches from the states automation works in, and from the silenced ones. */
  lemma WorkerMoves(current: ConversationState, target: ConversationState)
    requires current in {Open, Qualifying, WaitingCustomer, WaitingHuman, DoNotContact}
    requires target in {Qualifying, WaitingCustomer, WaitingHuman, DoNotContact}
    requires current == DoNotContact || current == WaitingHuman ==> target == DoNotContact
    ensures (current != target ==> ConversationAllows(current, target, WorkerActor, OtherCause))
            <==> !(current == Open && target == WaitingCustomer)
  {
  }

  lemma AllowedUnlessFirstQuestion(db: Db, claim: Claim, context: Context, ext: Extraction, verdict: Verdict)
    requires Coupling(db) && Admitted(db, claim, context, ext)
    ensures TransitionsAllowed(db.conversations[claim.conversation].state,
                               db.leads[db.conversations[claim.conversation].lead].state,
                               PlanCommit(db, claim, context, ext, verdict)) <==>
            !(db.conversations[claim.conversation].state == Open && !ext.dnc && !NeedsHandoff(ext, verdict)
              && ext.question.Some?)
  {
    LeadTransitionAllowed(db, claim, context, ext, verdict);
    PlannedTarget(db, claim, context, ext, verdict);
    assert Coupled(db, claim.conversation);
    WorkerMoves(db.conversations[claim.conversation].state, PlanCommit(db, claim, context, ext, verdict).state);
  }
}
