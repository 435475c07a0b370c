// The conversation processing protocol: shared rows, the transactions over them, and the
// interleaving of workers. Every transaction is one atomic step; an abort changes nothing.
// Rows are those of one tenant. Identifiers and lease tokens come from one fresh-id counter.
// A message has one processing row (processing_version is always 1), so rows are keyed by message.
module Protocol {
  import opened Wrappers
  import opened StateMachines
  import Profile
  import Theorems = ProfileTheorems
  import ProfileHistory
  import Signals
  import SignalHistory

  type Id = int

  datatype Status =
    | Pending | Processing | Completed | CompletedDegraded | BlockedDoNotContact | BlockedHandoff
    | RetryableFailure | PermanentFailure | InvalidExtraction

  predicate Terminal(status: Status) {
    status != Pending && status != Processing && status != RetryableFailure
  }

  datatype Contact = Contact(doNotContact: bool)

  datatype Lead = Lead(
    contact: Id, state: LeadState, version: nat, opportunity: Theorems.Opportunity, evaluation: Option<Id>,
    facts: Profile.Facts)

  datatype Lease = Lease(message: Id, token: Id, until: int)

  datatype Conversation = Conversation(
    contact: Id, lead: Id, state: ConversationState, automation: bool, lease: Option<Lease>)

  // `dncText` and `correctionText` say whether the content matches the do-not-contact and correction patterns.
  datatype Message = Message(
    conversation: Id, fingerprint: int, sentAt: int, receivedAt: int, dncText: bool, correctionText: bool, status: Status)

  datatype RowLease = RowLease(token: Id, until: int)

  datatype Row = Row(
    id: Id, conversation: Id, status: Status, attempts: nat, lease: Option<RowLease>, nextAttempt: int,
    execution: Option<Id>, evaluation: Option<Id>)

  // The durable extraction key: a hash, taken to be injective, of the conversation and the selected messages.
  datatype DurableKey = DurableKey(conversation: Id, messages: seq<Id>)

  datatype Execution = Execution(id: Id, key: DurableKey, lead: Id, message: Id, resultHash: int)

  datatype Evaluation = Evaluation(
    id: Id, lead: Id, message: Id, execution: Id, opportunity: Theorems.Opportunity, missing: seq<Profile.Field>,
    dnc: bool)

  datatype HandoffStatus = Requested | Queued | Assigned | AcceptedByAdvisor | Resolved | CancelledHandoff | Expired

  datatype Handoff = Handoff(id: Id, conversation: Id, specialized: bool, priority: nat, status: HandoffStatus)

  datatype QuestionStatus = Asked | Consumed | CancelledQuestion

  datatype Question = Question(id: Id, conversation: Id, field: Profile.Field, status: QuestionStatus)

  datatype Db = Db(
    nextId: Id,
    contactIndex: map<int, Id>, contacts: map<Id, Contact>,
    conversationIndex: map<int, Id>, conversations: map<Id, Conversation>, leads: map<Id, Lead>,
    messageIndex: map<int, Id>, messages: map<Id, Message>, rows: map<Id, Row>,
    executions: seq<Execution>, evaluations: seq<Evaluation>, handoffs: seq<Handoff>, questions: seq<Question>)

  const EMPTY := Db(0, map[], map[], map[], map[], map[], map[], map[], map[], [], [], [], [])

  datatype Error =
    | ConcurrencyConflict | TransientFault | PermanentFault | ValidationFault | BadExtraction
    | IdempotencyConflict | InvalidTransition | NotFound | IntegrityViolation

  datatype Claim = Claim(processing: Id, conversation: Id, message: Id, token: Id, attempts: nat)

  datatype Context = Context(leadVersion: nat, facts: Profile.Facts, handoffConfirmed: bool)

  // What the extractor hands to the commit. `messages` are the selected messages.
  datatype Extraction = Extraction(
    conversation: Id, messages: seq<Id>, resolved: seq<Profile.Resolved>, opportunity: Theorems.Opportunity,
    dnc: bool, humanRequested: bool, handoff: bool, specialized: bool, question: Option<Profile.Field>,
    degraded: bool, resultHash: int, signals: seq<SignalHistory.Signal>)

  // What the scoring engine answers.
  datatype Verdict = Verdict(qualifies: bool, handoff: bool, specialized: bool)

  datatype Effect =
    | NoEffect
    | AlreadyApplied(existing: Id)
    | Applied(contact: Id, lead: Id, dnc: bool, newHandoff: Option<Id>, newQuestion: Option<Id>)

  datatype Tx = Commit(db: Db, status: Status, effect: Effect) | Abort(error: Error)

  // ---------------------------------------------------------------- ingest

  datatype Command = Command(
    contact: int, conversation: int, key: int, fingerprint: int, sentAt: int, dncText: bool, correctionText: bool)

  datatype Ingested = Created(db: Db) | Replayed | Rejected(error: Error)

  function ContactFor(db: Db, c: Command): Id {
    if c.contact in db.contactIndex then db.contactIndex[c.contact] else db.nextId
  }

  /** Resolve or create the contact. */
  function WithContact(db: Db, c: Command): Db {
    var n, known := db.nextId, c.contact in db.contactIndex;
    db.(nextId := n + 1,
        contactIndex := if known then db.contactIndex else db.contactIndex[c.contact := n],
        contacts := if known then db.contacts else db.contacts[n := Contact(false)])
  }

  function ConversationFor(db: Db, c: Command): Id {
    if c.conversation in db.conversationIndex then db.conversationIndex[c.conversation] else db.nextId
  }

  /** Resolve the conversation or create it together with its lead. */
  function WithConversation(db: Db, c: Command, contact: Id): Db {
    var n, known := db.nextId, c.conversation in db.conversationIndex;
    var lead := Lead(contact, New, 1, Theorems.Opportunity(Theorems.UNIDENTIFIED, []), None, map[]);
    db.(nextId := n + 2,
        conversationIndex := if known then db.conversationIndex else db.conversationIndex[c.conversation := n],
        conversations := if known then db.conversations
                         else db.conversations[n := Conversation(contact, n + 1, Open, true, None)],
        leads := if known then db.leads else db.leads[n + 1 := lead])
  }

  /** Store the message with its processing row. */
  function WithMessage(db: Db, c: Command, conversation: Id, now: int): Db {
    var n := db.nextId;
    db.(nextId := n + 2,
        messageIndex := db.messageIndex[c.key := n],
        messages := db.messages[n := Message(conversation, c.fingerprint, c.sentAt, now, c.dncText, c.correctionText, Pending)],
        rows := db.rows[n := Row(n + 1, conversation, Pending, 0, None, now, None, None)])
  }

  /** The external conversation identifier already belongs to another contact. */
  predicate ForeignConversation(db: Db, c: Command) {
    && c.conversation in db.conversationIndex
    && db.conversationIndex[c.conversation] in db.conversations
    && db.conversations[db.conversationIndex[c.conversation]].contact != ContactFor(db, c)
  }

  function Ingest(db: Db, c: Command, now: int): Ingested {
    if c.key in db.messageIndex then
      var m := db.messageIndex[c.key];
      if m in db.messages && db.messages[m].fingerprint == c.fingerprint then Replayed else Rejected(IdempotencyConflict)
    else if ForeignConversation(db, c) then Rejected(IdempotencyConflict)
    else
      var db1 := WithContact(db, c);
      var db2 := WithConversation(db1, c, ContactFor(db, c));
      Created(WithMessage(db2, c, ConversationFor(db1, c), now))
  }

  // ---------------------------------------------------------------- claim

  predicate Due(row: Row, now: int) {
    && row.nextAttempt <= now
    && (row.status == Pending || row.status == RetryableFailure
        || (row.status == Processing && row.lease.Some? && row.lease.value.until <= now))
  }

  predicate Eligible(db: Db, now: int, m: Id) {
    && m in db.rows && m in db.messages && db.rows[m].conversation in db.conversations
    && Due(db.rows[m], now)
    && var lease := db.conversations[db.rows[m].conversation].lease;
       lease.None? || lease.value.until <= now
  }

  /** The claim order: customer timestamp, then arrival, then row identifier. */
  predicate ClaimsBefore(db: Db, a: Id, b: Id)
    requires a in db.messages && a in db.rows && b in db.messages && b in db.rows
  {
    var x, y := db.messages[a], db.messages[b];
    || x.sentAt < y.sentAt
    || (x.sentAt == y.sentAt && x.receivedAt < y.receivedAt)
    || (x.sentAt == y.sentAt && x.receivedAt == y.receivedAt && db.rows[a].id <= db.rows[b].id)
  }

  /** `m` is the first eligible message whose conversation no other transaction has locked. */
  ghost predicate Candidate(db: Db, now: int, locked: set<Id>, m: Id) {
    && Eligible(db, now, m) && db.rows[m].conversation !in locked
    && forall other :: Eligible(db, now, other) && db.rows[other].conversation !in locked ==> ClaimsBefore(db, m, other)
  }

  function ClaimOf(db: Db, m: Id): Claim
    requires m in db.rows
  {
    Claim(db.rows[m].id, db.rows[m].conversation, m, db.nextId, db.rows[m].attempts + 1)
  }

  function ClaimMessage(db: Db, m: Id, until: int): Db
    requires m in db.rows && m in db.messages && db.rows[m].conversation in db.conversations
  {
    var row := db.rows[m];
    var conversation := db.conversations[row.conversation];
    db.(nextId := db.nextId + 1,
        conversations := db.conversations[row.conversation := conversation.(lease := Some(Lease(m, db.nextId, until)))],
        rows := db.rows[m := row.(status := Processing, attempts := row.attempts + 1,
                                  lease := Some(RowLease(db.nextId, until)))],
        messages := db.messages[m := db.messages[m].(status := Processing)])
  }

  // ---------------------------------------------------------------- finishing a claim

  predicate RowExists(db: Db, claim: Claim) {
    claim.message in db.rows && db.rows[claim.message].id == claim.processing
  }

  predicate OwnsRow(db: Db, claim: Claim) {
    && RowExists(db, claim)
    && db.rows[claim.message].status == Processing
    && db.rows[claim.message].lease.Some? && db.rows[claim.message].lease.value.token == claim.token
  }

  predicate OwnsConversation(db: Db, claim: Claim) {
    && claim.conversation in db.conversations
    && var lease := db.conversations[claim.conversation].lease;
       lease.Some? && lease.value.message == claim.message && lease.value.token == claim.token
  }

  /** Write the final row, mirror its status on the message, and give the conversation lease back. */
  function Release(db: Db, claim: Claim, row: Row): Option<Db> {
    if !OwnsRow(db, claim) || claim.message !in db.messages || !OwnsConversation(db, claim) then None
    else
      Some(db.(rows := db.rows[claim.message := row],
               messages := db.messages[claim.message := db.messages[claim.message].(status := row.status)],
               conversations := db.conversations[claim.conversation := db.conversations[claim.conversation].(lease := None)]))
  }

  function Complete(db: Db, claim: Claim, status: Status, execution: Option<Id>, evaluation: Option<Id>): Option<Db> {
    if !OwnsRow(db, claim) then None
    else Release(db, claim, db.rows[claim.message].(status := status, lease := None, execution := execution,
                                                    evaluation := evaluation))
  }

  function Fail(db: Db, claim: Claim, status: Status, nextAttempt: int): Option<Db> {
    if !OwnsRow(db, claim) then None
    else Release(db, claim, db.rows[claim.message].(status := status, lease := None, nextAttempt := nextAttempt))
  }

  function Block(db: Db, claim: Claim, status: Status): Tx {
    match Complete(db, claim, status, None, None)
    case None => Abort(ConcurrencyConflict)
    case Some(after) => Commit(after, status, NoEffect)
  }

  // ---------------------------------------------------------------- prepare

  predicate IsActive(h: Handoff, conversation: Id) {
    && h.conversation == conversation
    && (h.status == Requested || h.status == Queued || h.status == Assigned || h.status == AcceptedByAdvisor)
  }

  /** The position of the active handoff of a conversation, or the end. */
  function HandoffSlot(handoffs: seq<Handoff>, conversation: Id): (i: nat)
    ensures i <= |handoffs|
    ensures i < |handoffs| ==> IsActive(handoffs[i], conversation)
    ensures forall j :: 0 <= j < i ==> !IsActive(handoffs[j], conversation)
  {
    if handoffs == [] then 0 else if IsActive(handoffs[0], conversation) then 0
    else 1 + HandoffSlot(handoffs[1..], conversation)
  }

  predicate HandoffActive(handoffs: seq<Handoff>, conversation: Id) {
    HandoffSlot(handoffs, conversation) < |handoffs|
  }

  /** The rows the claim refers to are all there. */
  predicate Linked(db: Db, claim: Claim) {
    && claim.conversation in db.conversations && claim.message in db.messages
    && db.conversations[claim.conversation].contact in db.contacts
    && db.conversations[claim.conversation].lead in db.leads
  }

  datatype Prepared = Ready(context: Context) | Settled(tx: Tx)

  function Prepare(db: Db, claim: Claim): Prepared {
    if !RowExists(db, claim) then Settled(Abort(NotFound))
    else if !OwnsRow(db, claim) then Settled(Abort(ConcurrencyConflict))
    else if !Linked(db, claim) then Settled(Abort(NotFound))
    else
      var conversation := db.conversations[claim.conversation];
      var lead := db.leads[conversation.lead];
      var handoff := HandoffActive(db.handoffs, claim.conversation);
      if db.contacts[conversation.contact].doNotContact then Settled(Block(db, claim, BlockedDoNotContact))
      else if handoff && !db.messages[claim.message].dncText then Settled(Block(db, claim, BlockedHandoff))
      else if conversation.state == Closed then Settled(Abort(ValidationFault))
      else Ready(Context(lead.version, lead.facts, handoff))
  }

  // ---------------------------------------------------------------- finalize

  function ExecutionSlot(executions: seq<Execution>, key: DurableKey): (i: nat)
    ensures i <= |executions|
    ensures i < |executions| ==> executions[i].key == key
    ensures forall j :: 0 <= j < i ==> executions[j].key != key
  {
    if executions == [] then 0 else if executions[0].key == key then 0 else 1 + ExecutionSlot(executions[1..], key)
  }

  function EvaluationOf(evaluations: seq<Evaluation>, execution: Id): (r: Option<Id>)
    ensures r.Some? ==> exists i :: 0 <= i < |evaluations| && evaluations[i].execution == execution && evaluations[i].id == r.value
  {
    if evaluations == [] then None
    else if evaluations[0].execution == execution then Some(evaluations[0].id)
    else EvaluationOf(evaluations[1..], execution)
  }

  /** The missing information the reloaded profile carries: that of the lead's current evaluation. */
  function CarriedMissing(evaluations: seq<Evaluation>, current: Option<Id>): (r: seq<Profile.Field>)
    ensures r == [] || exists i :: 0 <= i < |evaluations| && evaluations[i].missing == r
  {
    if current.None? || evaluations == [] then []
    else if evaluations[0].id == current.value then evaluations[0].missing
    else CarriedMissing(evaluations[1..], current)
  }

  function LeadTarget(missing: seq<Profile.Field>, verdict: Verdict, dnc: bool): LeadState {
    if dnc then LeadDoNotContact
    else if missing != [] then IncompleteInformation
    else if verdict.qualifies then Qualified
    else LeadQualifying
  }

  function ConversationTarget(dnc: bool, handoff: bool, question: bool): (ConversationState, bool) {
    if dnc then (DoNotContact, false)
    else if handoff then (WaitingHuman, false)
    else if question then (WaitingCustomer, true)
    else (Qualifying, true)
  }

  function CancelHandoffs(handoffs: seq<Handoff>, conversation: Id): (r: seq<Handoff>)
    ensures |r| == |handoffs|
    ensures forall i :: 0 <= i < |r| ==>
      r[i] == if IsActive(handoffs[i], conversation) then handoffs[i].(status := CancelledHandoff) else handoffs[i]
  {
    seq(|handoffs|, i requires 0 <= i < |handoffs| =>
      if IsActive(handoffs[i], conversation) then handoffs[i].(status := CancelledHandoff) else handoffs[i])
  }

  /** Create a handoff unless one is active; either way the conversation then has the returned active one. */
  function CreateHandoff(handoffs: seq<Handoff>, conversation: Id, ext: Extraction, verdict: Verdict, id: Id)
    : (seq<Handoff>, Id)
  {
    var slot := HandoffSlot(handoffs, conversation);
    if slot < |handoffs| then (handoffs, handoffs[slot].id)
    else
      var specialized := ext.specialized || verdict.specialized;
      var priority := if ext.humanRequested then 950 else if specialized then 900 else 850;
      (handoffs + [Handoff(id, conversation, specialized, priority, Requested)], id)
  }

  predicate IsAsked(q: Question, conversation: Id) {
    q.conversation == conversation && q.status == Asked
  }

  function QuestionSlot(questions: seq<Question>, conversation: Id): (i: nat)
    ensures i <= |questions|
    ensures i < |questions| ==> IsAsked(questions[i], conversation)
    ensures forall j :: 0 <= j < i ==> !IsAsked(questions[j], conversation)
  {
    if questions == [] then 0 else if IsAsked(questions[0], conversation) then 0
    else 1 + QuestionSlot(questions[1..], conversation)
  }

  function CancelQuestions(questions: seq<Question>, conversation: Id): (r: seq<Question>)
    ensures |r| == |questions|
    ensures forall i :: 0 <= i < |r| ==>
      r[i] == if IsAsked(questions[i], conversation) then questions[i].(status := CancelledQuestion) else questions[i]
  {
    seq(|questions|, i requires 0 <= i < |questions| =>
      if IsAsked(questions[i], conversation) then questions[i].(status := CancelledQuestion) else questions[i])
  }

  /** Cancel on a profile change, silence on do-not-contact or handoff, otherwise ask unless one is pending. */
  function UpdateQuestion(
    questions: seq<Question>, conversation: Id, profileChanged: bool, silent: bool, question: Option<Profile.Field>, id: Id)
    : (seq<Question>, Option<Id>)
  {
    var kept := if profileChanged || silent then CancelQuestions(questions, conversation) else questions;
    if silent || question.None? then (kept, None)
    else
      var slot := QuestionSlot(kept, conversation);
      if slot < |kept| then (kept, Some(kept[slot].id))
      else (kept + [Question(id, conversation, question.value, Asked)], Some(id))
  }

  /** The plan of the commit: decided against the lead's current facts, from items reconciled before. */
  function PlannedDecisions(context: Context, lead: Lead, ext: Extraction, correction: bool): seq<Profile.Decision> {
    Profile.Decisions(lead.facts, Profile.Candidates(Profile.Outputs(ext.resolved, context.facts)), correction)
  }

  predicate NeedsHandoff(ext: Extraction, verdict: Verdict) {
    !ext.dnc && (ext.handoff || verdict.handoff)
  }

  // Everything a commit decides before it writes.
  datatype CommitPlan = CommitPlan(
    decisions: seq<Profile.Decision>, missing: seq<Profile.Field>, leadState: LeadState,
    handoffs: seq<Handoff>, newHandoff: Option<Id>, questions: seq<Question>, newQuestion: Option<Id>,
    state: ConversationState, automation: bool)

  // A commit takes four identifiers, from `n` on: execution, evaluation, handoff and question.

  /** The handoffs after a commit, and the conversation's handoff when one is needed. */
  function HandoffsAfter(handoffs: seq<Handoff>, conversation: Id, ext: Extraction, verdict: Verdict, n: Id)
    : (seq<Handoff>, Option<Id>)
  {
    if NeedsHandoff(ext, verdict) then
      var (created, handoff) := CreateHandoff(handoffs, conversation, ext, verdict, n + 2);
      (created, Some(handoff))
    else (if ext.dnc then CancelHandoffs(handoffs, conversation) else handoffs, None)
  }

  /** The questions after a commit, and the conversation's question when one is asked. */
  function QuestionsAfter(
    questions: seq<Question>, conversation: Id, changed: bool, ext: Extraction, verdict: Verdict, n: Id)
    : (seq<Question>, Option<Id>)
  {
    var (updated, question) :=
      UpdateQuestion(questions, conversation, changed, ext.dnc || NeedsHandoff(ext, verdict), ext.question, n + 3);
    (if ext.dnc then CancelQuestions(updated, conversation) else updated, question)
  }

  function PlanOf(
    decisions: seq<Profile.Decision>, missing: seq<Profile.Field>, handoffs: seq<Handoff>, handoff: Option<Id>,
    questions: seq<Question>, question: Option<Id>, ext: Extraction, verdict: Verdict): CommitPlan
  {
    var target := ConversationTarget(ext.dnc, handoff.Some?, question.Some?);
    CommitPlan(decisions, missing, LeadTarget(missing, verdict, ext.dnc), handoffs, handoff, questions, question,
               target.0, target.1)
  }

  /** The plan of a commit that makes the given decisions. */
  function PlanWith(db: Db, claim: Claim, ext: Extraction, verdict: Verdict, decisions: seq<Profile.Decision>): CommitPlan
    requires Linked(db, claim)
  {
    var c := claim.conversation;
    var h := HandoffsAfter(db.handoffs, c, ext, verdict, db.nextId);
    var q := QuestionsAfter(db.questions, c, ProfileHistory.ChangesProfile(decisions), ext, verdict, db.nextId);
    PlanOf(decisions, CarriedMissing(db.evaluations, db.leads[db.conversations[c].lead].evaluation),
           h.0, h.1, q.0, q.1, ext, verdict)
  }

  function PlanCommit(db: Db, claim: Claim, context: Context, ext: Extraction, verdict: Verdict): CommitPlan
    requires Linked(db, claim)
  {
    var lead := db.leads[db.conversations[claim.conversation].lead];
    PlanWith(db, claim, ext, verdict,
             PlannedDecisions(context, lead, ext, db.messages[claim.message].correctionText))
  }

  /** Both state machines accept the planned targets. */
  predicate TransitionsAllowed(current: ConversationState, currentLead: LeadState, plan: CommitPlan) {
    && (current != plan.state ==> ConversationAllows(current, plan.state, WorkerActor, OtherCause))
    && (currentLead != plan.leadState ==> LeadAllows(currentLead, plan.leadState, WorkerActor, OtherCause))
  }

  /** The lead after an evaluation was stored for it. */
  function LeadAfter(lead: Lead, ext: Extraction, plan: CommitPlan, evaluation: Id): Lead {
    lead.(state := plan.leadState, version := lead.version + 1, evaluation := Some(evaluation),
          opportunity := Theorems.MergedOpportunity(lead.opportunity, ext.opportunity),
          facts := Profile.UpdatedFacts(lead.facts, plan.decisions))
  }

  /** The rows a commit writes before it gives its lease back. */
  function WithEffects(db: Db, claim: Claim, ext: Extraction, plan: CommitPlan): Db
    requires Linked(db, claim)
  {
    var n := db.nextId;
    var conversation := db.conversations[claim.conversation];
    var lead := db.leads[conversation.lead];
    db.(nextId := n + 4,
        contacts := if ext.dnc then db.contacts[conversation.contact := Contact(true)] else db.contacts,
        conversations :=
          db.conversations[claim.conversation := conversation.(state := plan.state, automation := plan.automation)],
        leads := db.leads[conversation.lead := LeadAfter(lead, ext, plan, n + 1)],
        executions := db.executions +
          [Execution(n, DurableKey(claim.conversation, ext.messages), conversation.lead, claim.message, ext.resultHash)],
        evaluations := db.evaluations +
          [Evaluation(n + 1, conversation.lead, claim.message, n, lead.opportunity, plan.missing, ext.dnc)],
        handoffs := plan.handoffs,
        questions := plan.questions)
  }

  /** Write a plan whose transitions are allowed, then complete the claim. */
  function CommitPlanned(db: Db, claim: Claim, ext: Extraction, plan: CommitPlan): Tx
    requires Linked(db, claim)
  {
    var conversation := db.conversations[claim.conversation];
    var status := if ext.degraded then CompletedDegraded else Completed;
    if !TransitionsAllowed(conversation.state, db.leads[conversation.lead].state, plan) then Abort(InvalidTransition)
    else
      match Complete(WithEffects(db, claim, ext, plan), claim, status, Some(db.nextId), Some(db.nextId + 1))
      case None => Abort(ConcurrencyConflict)
      case Some(done) =>
        Commit(done, status, Applied(conversation.contact, conversation.lead, ext.dnc, plan.newHandoff, plan.newQuestion))
  }

  /** One execution per processing row and one evaluation per message: the unique indexes behind the inserts. */
  predicate ViolatesUniqueIndex(db: Db, claim: Claim) {
    || (exists i :: 0 <= i < |db.executions| && db.executions[i].message == claim.message)
    || (exists i :: 0 <= i < |db.evaluations| && db.evaluations[i].message == claim.message)
  }

  /** The extraction was applied before: complete the claim with the stored execution. */
  function FinishDuplicate(db: Db, claim: Claim, existing: Execution): Tx {
    match Complete(db, claim, Completed, Some(existing.id), EvaluationOf(db.evaluations, existing.id))
    case None => Abort(ConcurrencyConflict)
    case Some(after) => Commit(after, Completed, AlreadyApplied(existing.id))
  }

  function Finalize(db: Db, claim: Claim, context: Context, ext: Extraction, verdict: Verdict): Tx {
    if !RowExists(db, claim) then Abort(NotFound)
    else if !OwnsRow(db, claim) then Abort(ConcurrencyConflict)
    else if !Linked(db, claim) then Abort(NotFound)
    else
      var conversation := db.conversations[claim.conversation];
      if db.leads[conversation.lead].version != context.leadVersion then Abort(ConcurrencyConflict)
      else if db.contacts[conversation.contact].doNotContact && !ext.dnc then Block(db, claim, BlockedDoNotContact)
      else if HandoffActive(db.handoffs, claim.conversation) && !ext.dnc then Block(db, claim, BlockedHandoff)
      else
        var slot := ExecutionSlot(db.executions, DurableKey(claim.conversation, ext.messages));
        if slot < |db.executions| then
          if db.executions[slot].resultHash != ext.resultHash then Abort(IdempotencyConflict)
          else FinishDuplicate(db, claim, db.executions[slot])
        else if ViolatesUniqueIndex(db, claim) then Abort(IntegrityViolation)
        else CommitPlanned(db, claim, ext, PlanCommit(db, claim, context, ext, verdict))
  }

  // ---------------------------------------------------------------- recording a failure

  function Backoff(attempts: nat): nat {
    DoublingDelay(attempts, 300)
  }

  function FailureStatus(attempts: nat, retryable: bool, invalid: bool, maxAttempts: nat): Status {
    if retryable && attempts < maxAttempts then RetryableFailure
    else if invalid then InvalidExtraction
    else PermanentFailure
  }

  function RecordFailure(db: Db, claim: Claim, retryable: bool, invalid: bool, now: int, maxAttempts: nat): Tx {
    if !RowExists(db, claim) then Abort(NotFound)
    else
      var status := FailureStatus(claim.attempts, retryable, invalid, maxAttempts);
      match Fail(db, claim, status, now + Backoff(claim.attempts))
      case None => Abort(ConcurrencyConflict)
      case Some(after) => Commit(after, status, NoEffect)
  }

  // ---------------------------------------------------------------- workers

  datatype Phase = Claimed | ReadyToFinalize(context: Context) | Failing(retryable: bool, invalid: bool) | Stopped

  datatype Worker = Worker(claim: Claim, phase: Phase)

  /** Which failure, if any, the worker records for an error. Conflicts other than the concurrency one,
      missing rows and broken constraints escape: nothing is recorded and the lease is left to expire. */
  function AfterError(error: Error): Phase {
    match error
    case ConcurrencyConflict => Failing(true, false)
    case TransientFault => Failing(true, false)
    case PermanentFault => Failing(false, false)
    case ValidationFault => Failing(false, false)
    case BadExtraction => Failing(false, true)
    case _ => Stopped
  }

  predicate ValidExtraction(claim: Claim, ext: Extraction) {
    ext.conversation == claim.conversation && claim.message in ext.messages
  }

  /** Some selected message asks not to be contacted. */
  ghost predicate AsksForSilence(db: Db, ext: Extraction) {
    exists m :: m in ext.messages && m in db.messages && db.messages[m].dncText
  }

  /** What the extractor guarantees: resolver output; the do-not-contact control whenever a selected message matches the
      pattern; and signals of distinct codes that say do-not-contact exactly with the control, and with certainty when a
      message asked for it. Proved of every extractor run in module Composition. */
  ghost predicate Honest(db: Db, ext: Extraction) {
    && Theorems.FromResolver(ext.resolved)
    && (forall m :: m in ext.messages && m in db.messages && db.messages[m].dncText ==> ext.dnc)
    && SignalHistory.DistinctCodes(ext.signals)
    && (forall i :: 0 <= i < |ext.signals| ==> ext.signals[i].status == Profile.Accepted)
    && (ext.dnc <==> SignalHistory.Names(ext.signals, Signals.DoNotContactSignal))
    && (AsksForSilence(db, ext) ==> SignalHistory.Says(ext.signals, Signals.DoNotContactSignal, Profile.ONE))
  }

  datatype Event = Claiming(claim: Claim) | Finishing(claim: Claim, status: Status, effect: Effect)

  datatype System = System(db: Db, workers: map<Id, Worker>, log: seq<Event>)

  const START := System(EMPTY, map[], [])

  datatype Config = Config(maxAttempts: nat, leaseSeconds: nat)

  // Every step reads its own clock: nothing is assumed about how `now` evolves.
  datatype Step =
    | IngestStep(command: Command, now: int)
    | ClaimStep(message: Id, locked: set<Id>, now: int)
    | PrepareStep(token: Id)
    | ExtractorErrorStep(token: Id, error: Error)
    | FinalizeStep(token: Id, ext: Extraction, verdict: Verdict)
    | FailStep(token: Id, now: int)
    | CrashStep(token: Id)

  function SetPhase(s: System, token: Id, phase: Phase): System
    requires token in s.workers
  {
    s.(workers := s.workers[token := s.workers[token].(phase := phase)])
  }

  /** The worker after a transaction of its own: stopped on commit, following the error on abort. */
  function Settle(s: System, token: Id, tx: Tx): System
    requires token in s.workers
  {
    match tx
    case Abort(error) => SetPhase(s, token, AfterError(error))
    case Commit(db, status, effect) =>
      SetPhase(s.(db := db, log := s.log + [Finishing(s.workers[token].claim, status, effect)]), token, Stopped)
  }

  /** One step of the whole system; a step that is not enabled changes nothing. */
  ghost function Next(s: System, step: Step, config: Config): System {
    match step
    case IngestStep(command, now) =>
      (match Ingest(s.db, command, now)
       case Created(db) => s.(db := db)
       case _ => s)
    case ClaimStep(m, locked, now) =>
      if !Candidate(s.db, now, locked, m) then s
      else
        var claim := ClaimOf(s.db, m);
        System(ClaimMessage(s.db, m, now + config.leaseSeconds),
               s.workers[claim.token := Worker(claim, Claimed)],
               s.log + [Claiming(claim)])
    case PrepareStep(token) =>
      if token !in s.workers || s.workers[token].phase != Claimed then s
      else
        (match Prepare(s.db, s.workers[token].claim)
         case Ready(context) => SetPhase(s, token, ReadyToFinalize(context))
         case Settled(tx) => Settle(s, token, tx))
    case ExtractorErrorStep(token, error) =>
      if token !in s.workers || !s.workers[token].phase.ReadyToFinalize? then s
      else SetPhase(s, token, AfterError(error))
    case FinalizeStep(token, ext, verdict) =>
      if token !in s.workers || !s.workers[token].phase.ReadyToFinalize? || !Honest(s.db, ext) then s
      else if !ValidExtraction(s.workers[token].claim, ext) then SetPhase(s, token, AfterError(BadExtraction))
      else
        Settle(s, token, Finalize(s.db, s.workers[token].claim, s.workers[token].phase.context, ext, verdict))
    case FailStep(token, now) =>
      if token !in s.workers || !s.workers[token].phase.Failing? then s
      else
        var w := s.workers[token];
        (match RecordFailure(s.db, w.claim, w.phase.retryable, w.phase.invalid, now, config.maxAttempts)
         case Abort(_) => SetPhase(s, token, Stopped)
         case Commit(_, _, _) =>
           Settle(s, token, RecordFailure(s.db, w.claim, w.phase.retryable, w.phase.invalid, now, config.maxAttempts)))
    case CrashStep(token) =>
      if token !in s.workers then s else SetPhase(s, token, Stopped)
  }

  ghost function Run(steps: seq<Step>, config: Config): System {
    if steps == [] then START else Next(Run(steps[..|steps| - 1], config), steps[|steps| - 1], config)
  }
}
