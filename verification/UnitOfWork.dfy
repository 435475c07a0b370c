// The use cases as they work: tables updated statement by statement inside one transaction, with a rollback
// when an error is raised. Each transaction is tied to the atomic step of module Protocol.
module UnitOfWorks {
  import opened Wrappers
  import opened StateMachines
  import opened Protocol
  import Profile
  import Theorems = ProfileTheorems
  import ProfileHistory

  datatype Outcome = Done(status: Status, effect: Effect) | Raised(error: Error)

  /** A transaction ended as the given atomic step says: committed with its rows, or rolled back. */
  predicate Matches(outcome: Outcome, before: Db, after: Db, tx: Tx) {
    match tx
    case Commit(db, status, effect) => outcome == Done(status, effect) && after == db
    case Abort(error) => outcome == Raised(error) && after == before
  }

  datatype Answer = Extracted(ext: Extraction, verdict: Verdict) | ExtractorFailed(error: Error)

  /** A claim worked from start to end with no other transaction in between, as steps of the system. */
  ghost function WorkedAlone(db: Db, claim: Claim, answer: Answer, now: int, config: Config): System {
    var start := System(db, map[claim.token := Worker(claim, Claimed)], []);
    var prepared := Next(start, PrepareStep(claim.token), config);
    var answered :=
      match answer
      case Extracted(ext, verdict) => Next(prepared, FinalizeStep(claim.token, ext, verdict), config)
      case ExtractorFailed(error) => Next(prepared, ExtractorErrorStep(claim.token, error), config);
    Next(answered, FailStep(claim.token, now), config)
  }

  /** `m` is among the `seen` rows and comes first of the claimable ones there. */
  ghost predicate FirstAmong(db: Db, now: int, locked: set<Id>, seen: set<Id>, m: Id) {
    && m in seen && Claimable(db, now, locked, m)
    && forall other :: other in seen && Claimable(db, now, locked, other) ==> ClaimsBefore(db, m, other)
  }

  predicate Claimable(db: Db, now: int, locked: set<Id>, m: Id) {
    Eligible(db, now, m) && db.rows[m].conversation !in locked
  }

  class UnitOfWork {
    var nextId: Id
    var contactIndex: map<int, Id>
    var contacts: map<Id, Contact>
    var conversationIndex: map<int, Id>
    var conversations: map<Id, Conversation>
    var leads: map<Id, Lead>
    var messageIndex: map<int, Id>
    var messages: map<Id, Message>
    var rows: map<Id, Row>
    var executions: seq<Execution>
    var evaluations: seq<Evaluation>
    var handoffs: seq<Handoff>
    var questions: seq<Question>

    constructor ()
      ensures State() == EMPTY
    {
      nextId := 0;
      contactIndex, contacts, conversationIndex, conversations, leads := map[], map[], map[], map[], map[];
      messageIndex, messages, rows := map[], map[], map[];
      executions, evaluations, handoffs, questions := [], [], [], [];
    }

    function State(): Db
      reads this
    {
      Db(nextId, contactIndex, contacts, conversationIndex, conversations, leads, messageIndex, messages, rows,
         executions, evaluations, handoffs, questions)
    }

    /** What an aborted transaction leaves: the rows as they were. */
    method Rollback(before: Db)
      modifies this
      ensures State() == before
    {
      RestoreTables(before);
      RestoreRows(before);
    }

    method RestoreTables(before: Db)
      modifies this`nextId, this`contactIndex, this`contacts, this`conversationIndex, this`conversations, this`leads
      ensures nextId == before.nextId && contactIndex == before.contactIndex && contacts == before.contacts
      ensures conversationIndex == before.conversationIndex && conversations == before.conversations && leads == before.leads
    {
      nextId := before.nextId;
      contactIndex := before.contactIndex;
      contacts := before.contacts;
      conversationIndex := before.conversationIndex;
      conversations := before.conversations;
      leads := before.leads;
    }

    method RestoreRows(before: Db)
      modifies this`messageIndex, this`messages, this`rows, this`executions, this`evaluations, this`handoffs, this`questions
      ensures messageIndex == before.messageIndex && messages == before.messages && rows == before.rows
      ensures executions == before.executions && evaluations == before.evaluations
      ensures handoffs == before.handoffs && questions == before.questions
    {
      messageIndex := before.messageIndex;
      messages := before.messages;
      rows := before.rows;
      executions := before.executions;
      evaluations := before.evaluations;
      handoffs := before.handoffs;
      questions := before.questions;
    }

    // -------------------------------------------------------------- ingest

    method IngestMessage(c: Command, now: int) returns (result: Ingested)
      modifies this
      ensures result == Ingest(old(State()), c, now)
      ensures State() == if result.Created? then result.db else old(State())
    {
      var before := State();
      if c.key in messageIndex {
        var m := messageIndex[c.key];
        return if m in messages && messages[m].fingerprint == c.fingerprint then Replayed else Rejected(IdempotencyConflict);
      }
      var contact := ResolveContact(c);
      var conversation := ResolveConversation(c, contact);
      if c.conversation in before.conversationIndex && conversation in conversations
        && conversations[conversation].contact != contact {
        Rollback(before);
        return Rejected(IdempotencyConflict);
      }
      StoreMessage(c, conversation, now);
      result := Created(State());
    }

    method ResolveContact(c: Command) returns (contact: Id)
      modifies this`nextId, this`contactIndex, this`contacts
      ensures contact == ContactFor(old(State()), c) && State() == WithContact(old(State()), c)
    {
      if c.contact in contactIndex {
        contact := contactIndex[c.contact];
      } else {
        contact := nextId;
        contactIndex := contactIndex[c.contact := contact];
        contacts := contacts[contact := Contact(false)];
      }
      nextId := nextId + 1;
    }

    method ResolveConversation(c: Command, contact: Id) returns (conversation: Id)
      modifies this`nextId, this`conversationIndex, this`conversations, this`leads
      ensures conversation == ConversationFor(old(State()), c) && State() == WithConversation(old(State()), c, contact)
    {
      if c.conversation in conversationIndex {
        conversation := conversationIndex[c.conversation];
      } else {
        conversation := nextId;
        leads := leads[nextId + 1 :=
          Lead(contact, New, 1, Theorems.Opportunity(Theorems.UNIDENTIFIED, []), None, map[])];
        conversationIndex := conversationIndex[c.conversation := conversation];
        conversations := conversations[conversation := Conversation(contact, nextId + 1, Open, true, None)];
      }
      nextId := nextId + 2;
    }

    method StoreMessage(c: Command, conversation: Id, now: int)
      modifies this`nextId, this`messageIndex, this`messages, this`rows
      ensures State() == WithMessage(old(State()), c, conversation, now)
    {
      var m := nextId;
      messages := messages[m :=
        Message(conversation, c.fingerprint, c.sentAt, now, c.dncText, c.correctionText, Pending)];
      messageIndex := messageIndex[c.key := m];
      rows := rows[m := Row(m + 1, conversation, Pending, 0, None, now, None, None)];
      nextId := m + 2;
    }

    // -------------------------------------------------------------- claim

    /** The ordered query behind a claim: the first claimable row, skipping locked conversations. */
    method SelectCandidate(now: int, locked: set<Id>) returns (candidate: Option<Id>)
      ensures candidate.Some? ==> Candidate(State(), now, locked, candidate.value)
      ensures candidate.None? ==> forall m :: !Claimable(State(), now, locked, m)
    {
      candidate := None;
      var todo := rows.Keys;
      while todo != {}
        invariant todo <= rows.Keys
        invariant candidate.Some? ==> FirstAmong(State(), now, locked, rows.Keys - todo, candidate.value)
        invariant candidate.None? ==> forall m :: m in rows.Keys - todo ==> !Claimable(State(), now, locked, m)
        decreases |todo|
      {
        assert (forall m :: m !in todo) ==> todo == {};
        var m :| m in todo;
        todo := todo - {m};
        if Claimable(State(), now, locked, m) && (candidate.None? || !ClaimsBefore(State(), candidate.value, m)) {
          candidate := Some(m);
        }
      }
    }

    method ClaimNext(now: int, leaseSeconds: nat, locked: set<Id>) returns (claim: Option<Claim>)
      modifies this
      ensures claim.None? ==> State() == old(State()) && forall m :: !Claimable(State(), now, locked, m)
      ensures claim.Some? ==>
        && Candidate(old(State()), now, locked, claim.value.message)
        && claim.value == ClaimOf(old(State()), claim.value.message)
        && State() == ClaimMessage(old(State()), claim.value.message, now + leaseSeconds)
    {
      var candidate := SelectCandidate(now, locked);
      if candidate.None? {
        return None;
      }
      var m := candidate.value;
      var token, until := nextId, now + leaseSeconds;
      nextId := nextId + 1;
      var c := rows[m].conversation;
      conversations := conversations[c := conversations[c].(lease := Some(Lease(m, token, until)))];
      rows := rows[m := rows[m].(status := Processing, attempts := rows[m].attempts + 1, lease := Some(RowLease(token, until)))];
      messages := messages[m := messages[m].(status := Processing)];
      claim := Some(Claim(rows[m].id, c, m, token, rows[m].attempts));
    }

    // -------------------------------------------------------------- complete and fail

    /** Mirror the status on the message and clear the conversation lease, where both are still there. */
    method FinishMessageAndConversation(claim: Claim, status: Status) returns (both: bool)
      modifies this`messages, this`conversations
      ensures both <==> claim.message in old(messages) && OwnsConversation(old(State()), claim)
      ensures both ==>
        && messages == old(messages)[claim.message := old(messages)[claim.message].(status := status)]
        && conversations == old(conversations)[claim.conversation := old(conversations)[claim.conversation].(lease := None)]
    {
      var messageRows, conversationRows := 0, 0;
      if claim.message in messages {
        messages := messages[claim.message := messages[claim.message].(status := status)];
        messageRows := 1;
      }
      if OwnsConversation(State(), claim) {
        conversations := conversations[claim.conversation := conversations[claim.conversation].(lease := None)];
        conversationRows := 1;
      }
      both := messageRows == 1 && conversationRows == 1;
    }

    /** False when the row or the conversation is no longer owned; the caller then rolls back. */
    method CompleteRow(claim: Claim, status: Status, execution: Option<Id>, evaluation: Option<Id>) returns (owned: bool)
      modifies this`rows, this`messages, this`conversations
      ensures owned <==> Complete(old(State()), claim, status, execution, evaluation).Some?
      ensures owned ==> State() == Complete(old(State()), claim, status, execution, evaluation).value
    {
      if !OwnsRow(State(), claim) {
        return false;
      }
      rows := rows[claim.message :=
        rows[claim.message].(status := status, lease := None, execution := execution, evaluation := evaluation)];
      owned := FinishMessageAndConversation(claim, status);
    }

    method FailRow(claim: Claim, status: Status, nextAttempt: int) returns (owned: bool)
      modifies this`rows, this`messages, this`conversations
      ensures owned <==> Fail(old(State()), claim, status, nextAttempt).Some?
      ensures owned ==> State() == Fail(old(State()), claim, status, nextAttempt).value
    {
      if !OwnsRow(State(), claim) {
        return false;
      }
      rows := rows[claim.message := rows[claim.message].(status := status, lease := None, nextAttempt := nextAttempt)];
      owned := FinishMessageAndConversation(claim, status);
    }

    method CompleteBlocked(claim: Claim, status: Status) returns (outcome: Outcome)
      modifies this
      ensures Matches(outcome, old(State()), State(), Block(old(State()), claim, status))
    {
      var before := State();
      var owned := CompleteRow(claim, status, None, None);
      if !owned {
        Rollback(before);
        return Raised(ConcurrencyConflict);
      }
      outcome := Done(status, NoEffect);
    }

    method RecordTheFailure(claim: Claim, retryable: bool, invalid: bool, now: int, maxAttempts: nat) returns (outcome: Outcome)
      modifies this
      ensures Matches(outcome, old(State()), State(), RecordFailure(old(State()), claim, retryable, invalid, now, maxAttempts))
    {
      var before := State();
      if !RowExists(State(), claim) {
        return Raised(NotFound);
      }
      var mayRetry := retryable && claim.attempts < maxAttempts;
      var status := if mayRetry then RetryableFailure else if invalid then InvalidExtraction else PermanentFailure;
      var owned := FailRow(claim, status, now + Backoff(claim.attempts));
      if !owned {
        Rollback(before);
        return Raised(ConcurrencyConflict);
      }
      outcome := Done(status, NoEffect);
    }

    // -------------------------------------------------------------- prepare

    method PrepareClaim(claim: Claim) returns (context: Option<Context>, outcome: Outcome)
      modifies this
      ensures match Prepare(old(State()), claim)
              case Ready(read) => context == Some(read) && State() == old(State())
              case Settled(tx) => context == None && Matches(outcome, old(State()), State(), tx)
    {
      context, outcome := None, Raised(NotFound);
      if !RowExists(State(), claim) {
        return;
      }
      if !OwnsRow(State(), claim) {
        return None, Raised(ConcurrencyConflict);
      }
      if !Linked(State(), claim) {
        return;
      }
      var conversation := conversations[claim.conversation];
      var lead := leads[conversation.lead];
      var active := HandoffActive(handoffs, claim.conversation);
      if contacts[conversation.contact].doNotContact {
        outcome := CompleteBlocked(claim, BlockedDoNotContact);
      } else if active && !messages[claim.message].dncText {
        outcome := CompleteBlocked(claim, BlockedHandoff);
      } else if conversation.state == Closed {
        outcome := Raised(ValidationFault);
      } else {
        context := Some(Context(lead.version, lead.facts, active));
      }
    }

    // -------------------------------------------------------------- finalize

    method CancelPendingQuestions(conversation: Id)
      modifies this`questions
      ensures questions == CancelQuestions(old(questions), conversation)
    {
      for i := 0 to |questions|
        invariant |questions| == |old(questions)|
        invariant questions[..i] == CancelQuestions(old(questions), conversation)[..i]
        invariant questions[i..] == old(questions)[i..]
      {
        assert questions[i] == questions[i..][0] == old(questions)[i];
        if IsAsked(questions[i], conversation) {
          questions := questions[i := questions[i].(status := CancelledQuestion)];
        }
      }
    }

    method CancelActiveHandoffs(conversation: Id)
      modifies this`handoffs
      ensures handoffs == CancelHandoffs(old(handoffs), conversation)
    {
      for i := 0 to |handoffs|
        invariant |handoffs| == |old(handoffs)|
        invariant handoffs[..i] == CancelHandoffs(old(handoffs), conversation)[..i]
        invariant handoffs[i..] == old(handoffs)[i..]
      {
        assert handoffs[i] == handoffs[i..][0] == old(handoffs)[i];
        if IsActive(handoffs[i], conversation) {
          handoffs := handoffs[i := handoffs[i].(status := CancelledHandoff)];
        }
      }
    }

    method CreateHandoffIfNeeded(conversation: Id, ext: Extraction, verdict: Verdict, n: Id) returns (handoff: Option<Id>)
      modifies this`handoffs
      ensures ext.dnc ==> handoffs == old(handoffs) && handoff == None
      ensures !ext.dnc ==>
        && handoffs == HandoffsAfter(old(handoffs), conversation, ext, verdict, n).0
        && handoff == HandoffsAfter(old(handoffs), conversation, ext, verdict, n).1
    {
      if ext.dnc || !(ext.handoff || verdict.handoff) {
        return None;
      }
      var slot := HandoffSlot(handoffs, conversation);
      if slot < |handoffs| {
        return Some(handoffs[slot].id);
      }
      var specialized := ext.specialized || verdict.specialized;
      var priority := if ext.humanRequested then 950 else if specialized then 900 else 850;
      handoffs := handoffs + [Handoff(n + 2, conversation, specialized, priority, Requested)];
      handoff := Some(n + 2);
    }

    method AskQuestion(conversation: Id, changed: bool, silent: bool, question: Option<Profile.Field>, id: Id)
      returns (asked: Option<Id>)
      modifies this`questions
      ensures questions == UpdateQuestion(old(questions), conversation, changed, silent, question, id).0
      ensures asked == UpdateQuestion(old(questions), conversation, changed, silent, question, id).1
    {
      if changed {
        CancelPendingQuestions(conversation);
      }
      if silent {
        ghost var once := questions;
        CancelPendingQuestions(conversation);
        CancellingTwice(old(questions), conversation);
        return None;
      }
      if question.None? {
        return None;
      }
      var slot := QuestionSlot(questions, conversation);
      if slot < |questions| {
        return Some(questions[slot].id);
      }
      questions := questions + [Question(id, conversation, question.value, Asked)];
      asked := Some(id);
    }

    /** Hand off, ask and silence, in the order of a commit, and say where to move. */
    method PlanStates(
      conversation: Id, contact: Id, ext: Extraction, verdict: Verdict, n: Id,
      decisions: seq<Profile.Decision>, missing: seq<Profile.Field>, changed: bool)
      returns (plan: CommitPlan)
      modifies this`handoffs, this`questions, this`contacts
      ensures var h := HandoffsAfter(old(handoffs), conversation, ext, verdict, n);
              var q := QuestionsAfter(old(questions), conversation, changed, ext, verdict, n);
              && plan == PlanOf(decisions, missing, h.0, h.1, q.0, q.1, ext, verdict)
              && handoffs == plan.handoffs && questions == plan.questions
      ensures contacts == if ext.dnc then old(contacts)[contact := Contact(true)] else old(contacts)
    {
      var handoff := CreateHandoffIfNeeded(conversation, ext, verdict, n);
      var asked := AskQuestion(conversation, changed, ext.dnc || handoff.Some?, ext.question, n + 3);
      if ext.dnc {
        contacts := contacts[contact := Contact(true)];
        CancelActiveHandoffs(conversation);
        CancelPendingQuestions(conversation);
      }
      plan := PlanOf(decisions, missing, handoffs, handoff, questions, asked, ext, verdict);
    }

    /** Move the conversation and the lead, unless a state machine refuses. */
    method MoveStates(c: Id, l: Id, state: ConversationState, automation: bool, target: Lead) returns (moved: bool)
      requires c in conversations && l in leads
      modifies this`conversations, this`leads
      ensures moved <==>
        && (old(conversations)[c].state != state ==> ConversationAllows(old(conversations)[c].state, state, WorkerActor, OtherCause))
        && (old(leads)[l].state != target.state ==> LeadAllows(old(leads)[l].state, target.state, WorkerActor, OtherCause))
      ensures moved ==>
        && conversations == old(conversations)[c := old(conversations)[c].(state := state, automation := automation)]
        && leads == old(leads)[l := target]
    {
      if conversations[c].state != state && !ConversationAllows(conversations[c].state, state, WorkerActor, OtherCause) {
        return false;
      }
      conversations := conversations[c := conversations[c].(state := state, automation := automation)];
      if leads[l].state != target.state && !LeadAllows(leads[l].state, target.state, WorkerActor, OtherCause) {
        return false;
      }
      leads := leads[l := target];
      moved := true;
    }

    /** The two state changes that end a staged commit. */
    method FinishExtraction(ghost before: Db, claim: Claim, ext: Extraction, plan: CommitPlan, updated: Profile.Facts)
      returns (effect: Option<Effect>)
      requires Linked(before, claim)
      requires State() == WithEffects(before, claim, ext, plan).(conversations := before.conversations, leads := before.leads)
      requires updated == Profile.UpdatedFacts(before.leads[before.conversations[claim.conversation].lead].facts, plan.decisions)
      modifies this`conversations, this`leads
      ensures var conversation := before.conversations[claim.conversation];
              && (effect.Some? <==> TransitionsAllowed(conversation.state, before.leads[conversation.lead].state, plan))
              && (effect.Some? ==>
                    && State() == WithEffects(before, claim, ext, plan)
                    && effect.value == Applied(conversation.contact, conversation.lead, ext.dnc, plan.newHandoff, plan.newQuestion))
    {
      var conversation := conversations[claim.conversation];
      var lead := leads[conversation.lead];
      var target := lead.(state := plan.leadState, version := lead.version + 1, evaluation := Some(nextId - 3), facts := updated,
                          opportunity := Theorems.MergedOpportunity(lead.opportunity, ext.opportunity));
      var moved := MoveStates(claim.conversation, conversation.lead, plan.state, plan.automation, target);
      if !moved {
        return None;
      }
      effect := Some(Applied(conversation.contact, conversation.lead, ext.dnc, plan.newHandoff, plan.newQuestion));
    }

    /** Everything but the two state changes: stored rows, handoff, question, and the plan that says where to move. */
    method StageExtraction(claim: Claim, context: Context, ext: Extraction, verdict: Verdict)
      returns (plan: CommitPlan, updated: Profile.Facts)
      requires Linked(State(), claim)
      modifies this`nextId, this`executions, this`evaluations, this`handoffs, this`questions, this`contacts
      ensures var before := old(State());
              && plan == PlanCommit(before, claim, context, ext, verdict)
              && updated == Profile.UpdatedFacts(before.leads[before.conversations[claim.conversation].lead].facts, plan.decisions)
              && State() == WithEffects(before, claim, ext, plan).(conversations := before.conversations, leads := before.leads)
    {
      ghost var before := State();
      var n, c := nextId, claim.conversation;
      var conversation := conversations[c];
      var decisions, missing, changed;
      decisions, updated, missing, changed := RecordEvaluation(claim, conversation.lead, context, ext, n);
      plan := PlanStates(c, conversation.contact, ext, verdict, n, decisions, missing, changed);
      assert plan == PlanWith(before, claim, ext, verdict, decisions);
      assert plan.missing == missing;
      StagedRows(before, State(), claim, ext, plan, n);
    }

    /** Store the execution, plan the profile and store the evaluation of the lead as it was loaded. */
    method RecordEvaluation(claim: Claim, l: Id, context: Context, ext: Extraction, n: Id)
      returns (decisions: seq<Profile.Decision>, updated: Profile.Facts, missing: seq<Profile.Field>, changed: bool)
      requires l in leads && claim.message in messages && n == nextId
      modifies this`nextId, this`executions, this`evaluations
      ensures decisions == PlannedDecisions(context, leads[l], ext, messages[claim.message].correctionText)
      ensures updated == Profile.UpdatedFacts(leads[l].facts, decisions)
      ensures changed == ProfileHistory.ChangesProfile(decisions)
      ensures missing == CarriedMissing(old(evaluations), leads[l].evaluation)
      ensures nextId == n + 4
      ensures executions == old(executions) +
        [Execution(n, DurableKey(claim.conversation, ext.messages), l, claim.message, ext.resultHash)]
      ensures evaluations == old(evaluations) +
        [Evaluation(n + 1, l, claim.message, n, leads[l].opportunity, missing, ext.dnc)]
    {
      nextId := n + 4;
      executions := executions +
        [Execution(n, DurableKey(claim.conversation, ext.messages), l, claim.message, ext.resultHash)];
      var conflicts;
      decisions, updated, conflicts := Profile.Plan(
        leads[l].facts, [], Profile.Outputs(ext.resolved, context.facts), messages[claim.message].correctionText);
      ProfileHistory.ChangedFieldsTell(decisions);
      changed := ProfileHistory.ChangedFields(decisions) != [];
      missing := CarriedMissing(evaluations, leads[l].evaluation);
      evaluations := evaluations + [Evaluation(n + 1, l, claim.message, n, leads[l].opportunity, missing, ext.dnc)];
    }

    method FinalizeClaim(claim: Claim, context: Context, ext: Extraction, verdict: Verdict) returns (outcome: Outcome)
      modifies this
      ensures Matches(outcome, old(State()), State(), Finalize(old(State()), claim, context, ext, verdict))
    {
      var before := State();
      if !RowExists(State(), claim) {
        return Raised(NotFound);
      }
      if !OwnsRow(State(), claim) {
        return Raised(ConcurrencyConflict);
      }
      if !Linked(State(), claim) {
        return Raised(NotFound);
      }
      var conversation := conversations[claim.conversation];
      if leads[conversation.lead].version != context.leadVersion {
        return Raised(ConcurrencyConflict);
      }
      if contacts[conversation.contact].doNotContact && !ext.dnc {
        outcome := CompleteBlocked(claim, BlockedDoNotContact);
        return;
      }
      if HandoffActive(handoffs, claim.conversation) && !ext.dnc {
        outcome := CompleteBlocked(claim, BlockedHandoff);
        return;
      }
      var slot := ExecutionSlot(executions, DurableKey(claim.conversation, ext.messages));
      if slot < |executions| {
        outcome := FinishAppliedBefore(claim, executions[slot], ext.resultHash);
        return;
      }
      if ViolatesUniqueIndex(State(), claim) {
        return Raised(IntegrityViolation);
      }
      outcome := CommitExtraction(claim, context, ext, verdict);
    }

    method FinishAppliedBefore(claim: Claim, existing: Execution, resultHash: int) returns (outcome: Outcome)
      modifies this
      ensures Matches(outcome, old(State()), State(),
                      if existing.resultHash != resultHash then Abort(IdempotencyConflict)
                      else FinishDuplicate(old(State()), claim, existing))
    {
      var before := State();
      if existing.resultHash != resultHash {
        return Raised(IdempotencyConflict);
      }
      var owned := CompleteRow(claim, Completed, Some(existing.id), EvaluationOf(evaluations, existing.id));
      if !owned {
        Rollback(before);
        return Raised(ConcurrencyConflict);
      }
      outcome := Done(Completed, AlreadyApplied(existing.id));
    }

    method CommitExtraction(claim: Claim, context: Context, ext: Extraction, verdict: Verdict) returns (outcome: Outcome)
      requires Linked(State(), claim)
      modifies this
      ensures Matches(outcome, old(State()), State(),
                      CommitPlanned(old(State()), claim, ext, PlanCommit(old(State()), claim, context, ext, verdict)))
    {
      var before := State();
      var plan, updated := StageExtraction(claim, context, ext, verdict);
      outcome := CommitStaged(before, claim, ext, plan, updated);
    }

    /** End a staged commit: move the states and complete the claim, or roll back. */
    method CommitStaged(before: Db, claim: Claim, ext: Extraction, plan: CommitPlan, updated: Profile.Facts)
      returns (outcome: Outcome)
      requires Linked(before, claim)
      requires State() == WithEffects(before, claim, ext, plan).(conversations := before.conversations, leads := before.leads)
      requires updated == Profile.UpdatedFacts(before.leads[before.conversations[claim.conversation].lead].facts, plan.decisions)
      modifies this
      ensures Matches(outcome, before, State(), CommitPlanned(before, claim, ext, plan))
    {
      var effect := FinishExtraction(before, claim, ext, plan, updated);
      if effect.None? {
        Rollback(before);
        return Raised(InvalidTransition);
      }
      var status := if ext.degraded then CompletedDegraded else Completed;
      var owned := CompleteRow(claim, status, Some(before.nextId), Some(before.nextId + 1));
      if !owned {
        Rollback(before);
        return Raised(ConcurrencyConflict);
      }
      outcome := Done(status, effect.value);
    }

    // -------------------------------------------------------------- the whole use case

    method Execute(claim: Claim, answer: Answer, now: int, config: Config) returns (reported: Reported)
      requires answer.Extracted? ==> Honest(State(), answer.ext)
      modifies this
      ensures State() == WorkedAlone(old(State()), claim, answer, now, config).db
      ensures reported == ReportOf(old(State()), claim, DecisiveTx(old(State()), claim, answer), now, config)
    {
      ghost var before := State();
      WorkedAloneIs(before, claim, answer, now, config);
      var outcome := WorkClaim(claim, answer);
      reported := Report(before, DecisiveTx(before, claim, answer), outcome, claim, now, config);
    }

    /** Prepare, extract and finalize, up to the first error. */
    method WorkClaim(claim: Claim, answer: Answer) returns (outcome: Outcome)
      modifies this
      ensures Matches(outcome, old(State()), State(), DecisiveTx(old(State()), claim, answer))
    {
      var context;
      context, outcome := PrepareClaim(claim);
      if context.Some? {
        match answer
        case ExtractorFailed(error) =>
          outcome := Raised(error);
        case Extracted(ext, verdict) =>
          if ValidExtraction(claim, ext) {
            outcome := FinalizeClaim(claim, context.value, ext, verdict);
          } else {
            outcome := Raised(BadExtraction);
          }
      }
    }

    /** Report the outcome of the decisive transaction, recording the errors the use case catches. */
    method Report(ghost before: Db, ghost tx: Tx, outcome: Outcome, claim: Claim, now: int, config: Config)
      returns (reported: Reported)
      requires Matches(outcome, before, State(), tx)
      modifies this
      ensures State() == AfterTx(before, claim, tx, now, config)
      ensures reported == ReportOf(before, claim, tx, now, config)
    {
      match outcome
      case Done(status, effect) =>
        reported := Reports(status);
      case Raised(error) =>
        match AfterError(error)
        case Failing(retryable, invalid) =>
          var recorded := RecordTheFailure(claim, retryable, invalid, now, config.maxAttempts);
          reported :=
            if error == ConcurrencyConflict then ReportsConflict
            else match recorded
                 case Done(status, _) => Reports(status)
                 case Raised(escaping) => Escapes(escaping);
        case _ =>
          reported := Escapes(error);
    }
  }

  // What the use case answers: the status it left, a conflict, or an error that escapes to the caller.
  datatype Reported = Reports(status: Status) | ReportsConflict | Escapes(error: Error)

  /** The transaction that decides a claim worked alone. */
  function DecisiveTx(db: Db, claim: Claim, answer: Answer): Tx {
    match Prepare(db, claim)
    case Settled(tx) => tx
    case Ready(context) => AnswerTx(db, claim, context, answer)
  }

  /** A conflict of concurrency is always reported, recorded or not; another caught error reports what was recorded, or
      escapes as the error of the recording; any other error escapes as it is. */
  function ReportOf(db: Db, claim: Claim, tx: Tx, now: int, config: Config): Reported {
    match tx
    case Commit(_, status, _) => Reports(status)
    case Abort(error) =>
      match AfterError(error)
      case Failing(retryable, invalid) =>
        if error == ConcurrencyConflict then ReportsConflict
        else
          (match RecordFailure(db, claim, retryable, invalid, now, config.maxAttempts)
           case Commit(_, status, _) => Reports(status)
           case Abort(escaping) => Escapes(escaping))
      case _ => Escapes(error)
  }

  /** A refused transition always escapes unrecorded, and while the claim owns its leases every error but that one, a
      conflict of keys and a missing row is reported. */
  lemma OnlyUncaughtErrorsEscape(db: Db, claim: Claim, tx: Tx, now: int, config: Config)
    requires OwnsRow(db, claim) && OwnsConversation(db, claim) && claim.message in db.messages
    ensures ReportOf(db, claim, tx, now, config).Escapes? <==>
              tx.Abort? && tx.error in {IdempotencyConflict, InvalidTransition, NotFound, IntegrityViolation}
    ensures ReportOf(db, claim, tx, now, config).Escapes? ==> AfterTx(db, claim, tx, now, config) == db
  {
  }

  /** What a worked claim leaves, from what its prepare and its answer come to. */
  lemma WorkedAloneIs(db: Db, claim: Claim, answer: Answer, now: int, config: Config)
    requires answer.Extracted? ==> Honest(db, answer.ext)
    ensures WorkedAlone(db, claim, answer, now, config).db ==
            AfterTx(db, claim, DecisiveTx(db, claim, answer), now, config)
  {
    var start := System(db, map[claim.token := Worker(claim, Claimed)], []);
    var prepared := Next(start, PrepareStep(claim.token), config);
    PreparedAlone(db, claim, config);
    match Prepare(db, claim)
    case Settled(tx) =>
      SettledThenRecorded(start, claim, tx, now, config);
    case Ready(context) =>
      AnsweredAlone(prepared, claim, context, answer, config);
      SettledThenRecorded(prepared, claim, AnswerTx(db, claim, context, answer), now, config);
  }

  /** What the transaction after an answer comes to. */
  function AnswerTx(db: Db, claim: Claim, context: Context, answer: Answer): Tx {
    match answer
    case ExtractorFailed(error) => Abort(error)
    case Extracted(ext, verdict) =>
      if ValidExtraction(claim, ext) then Finalize(db, claim, context, ext, verdict) else Abort(BadExtraction)
  }

  lemma PreparedAlone(db: Db, claim: Claim, config: Config)
    ensures var start := System(db, map[claim.token := Worker(claim, Claimed)], []);
            Next(start, PrepareStep(claim.token), config) ==
              match Prepare(db, claim)
              case Settled(tx) => Settle(start, claim.token, tx)
              case Ready(context) => SetPhase(start, claim.token, ReadyToFinalize(context))
  {
  }

  lemma AnsweredAlone(s: System, claim: Claim, context: Context, answer: Answer, config: Config)
    requires claim.token in s.workers && s.workers[claim.token] == Worker(claim, ReadyToFinalize(context))
    requires answer.Extracted? ==> Honest(s.db, answer.ext)
    ensures (match answer
             case Extracted(ext, verdict) => Next(s, FinalizeStep(claim.token, ext, verdict), config)
             case ExtractorFailed(error) => Next(s, ExtractorErrorStep(claim.token, error), config))
            == Settle(s, claim.token, AnswerTx(s.db, claim, context, answer))
  {
  }

  /** A settled worker records its failure, if it has one to record, in its last step. */
  lemma SettledThenRecorded(s: System, claim: Claim, tx: Tx, now: int, config: Config)
    requires claim.token in s.workers && s.workers[claim.token].claim == claim
    ensures var settled := Settle(s, claim.token, tx);
            && Next(settled, FailStep(claim.token, now), config).db == AfterTx(s.db, claim, tx, now, config)
            && settled.workers[claim.token].phase in {Stopped, Failing(true, false), Failing(false, false), Failing(false, true)}
  {
  }

  /** The rows after a transaction: committed, or as before with the failure recorded if the error is a recorded one. */
  function AfterTx(db: Db, claim: Claim, tx: Tx, now: int, config: Config): Db {
    match tx
    case Commit(after, _, _) => after
    case Abort(error) =>
      match AfterError(error)
      case Failing(retryable, invalid) =>
        var failure := RecordFailure(db, claim, retryable, invalid, now, config.maxAttempts);
        if failure.Commit? then failure.db else db
      case _ => db
  }

  /** The rows of a staged commit, gathered. */
  lemma StagedRows(before: Db, after: Db, claim: Claim, ext: Extraction, plan: CommitPlan, n: Id)
    requires Linked(before, claim) && n == before.nextId
    requires after == before.(nextId := after.nextId, contacts := after.contacts, executions := after.executions,
                              evaluations := after.evaluations, handoffs := after.handoffs, questions := after.questions)
    requires after.nextId == n + 4 && after.handoffs == plan.handoffs && after.questions == plan.questions
    requires var contact := before.conversations[claim.conversation].contact;
             after.contacts == if ext.dnc then before.contacts[contact := Contact(true)] else before.contacts
    requires var l := before.conversations[claim.conversation].lead;
             && after.executions == before.executions +
                  [Execution(n, DurableKey(claim.conversation, ext.messages), l, claim.message, ext.resultHash)]
             && after.evaluations == before.evaluations +
                  [Evaluation(n + 1, l, claim.message, n, before.leads[l].opportunity, plan.missing, ext.dnc)]
    ensures after == WithEffects(before, claim, ext, plan).(conversations := before.conversations, leads := before.leads)
  {
  }

  lemma CancellingTwice(questions: seq<Question>, conversation: Id)
    ensures CancelQuestions(CancelQuestions(questions, conversation), conversation) == CancelQuestions(questions, conversation)
  {
  }
}
