// The extractor: normalization of a provider's answer, acceptance, the retry loop over an arbitrary provider, and
// the degraded path. The provider may answer anything or fail in any way at each attempt.
module Extraction {
  import opened Wrappers
  import opened Signals
  import Context
  import Profile
  import Theorems = ProfileTheorems

  type Field = Profile.Field
  type Opportunity = Theorems.Opportunity

  const DEVICE_WITH_PLAN: nat := 2
  const PORTABILITY: nat := 5
  const ACCESSORY: nat := 8
  const MULTIPLE_LINES: nat := 9
  const BUSINESS_ACCOUNT: nat := 10

  // The field that counts lines, and the stored type whose identity is the integer itself.
  const LINE_COUNT: Field := Profile.Attribute(0)
  const INTEGER_KIND: nat := 1

  datatype HandoffKind = NoHandoff | General | Specialized

  datatype Intent =
    | Exploration | Comparison | PriceInquiry | MonthlyPaymentInquiry | InventoryInquiry | RequirementsInquiry
    | QuoteRequest | PortabilityRequest | Contract | Purchase | CallRequest | BranchRequest | AdvisorRequest | UnknownIntent

  datatype CustomerUrgency = ImmediateUrgency | ThisWeekUrgency | ThisMonth | Future | Unspecified

  // ---------------------------------------------------------------- the provider's answer

  datatype Evidence = Evidence(declared: int, verbatim: bool, empty: bool, message: Option<int>)

  datatype FieldItem = FieldItem(mention: Profile.Mention, valid: bool)

  datatype SignalItem = SignalItem(code: SignalCode, declared: int, verbatim: bool, message: int)

  datatype ControlItem = ControlItem(control: Context.Control, declared: int, verbatim: bool, message: int)

  // `acceptable` covers length, number of question marks, sensitive words, reason and priority.
  datatype ProviderQuestion = ProviderQuestion(target: Field, acceptable: bool)

  datatype Payload = Payload(
    fields: seq<FieldItem>, signals: seq<SignalItem>, controls: seq<ControlItem>,
    opportunity: Opportunity, opportunityEvidence: Evidence, intent: Intent, intentEvidence: Evidence,
    urgency: CustomerUrgency, urgencyEvidence: Evidence, handoff: HandoffKind, handoffEvidence: Evidence,
    question: Option<ProviderQuestion>)

  datatype ProviderError = TransientError | InvalidResponse | PermanentError

  // `Raises` stands for any error that is neither transient nor permanent: it leaves the extractor.
  datatype Reply = Answers(payload: Payload) | Fails(error: ProviderError) | Raises

  predicate Ratio(confidence: int) {
    0 <= confidence <= Profile.ONE
  }

  /** A finding that is not the neutral one names its message and quotes its evidence. */
  predicate Sourced(e: Evidence, neutral: bool) {
    Ratio(e.declared) && (neutral || (e.message.Some? && !e.empty))
  }

  predicate SchemaValid(p: Payload) {
    && Theorems.ValidOpportunity(p.opportunity)
    && (forall i :: 0 <= i < |p.fields| ==> Ratio(p.fields[i].mention.declared))
    && (forall i :: 0 <= i < |p.signals| ==> Ratio(p.signals[i].declared))
    && (forall i :: 0 <= i < |p.controls| ==> Ratio(p.controls[i].declared))
    && Ratio(p.opportunityEvidence.declared)
    && Sourced(p.intentEvidence, p.intent == UnknownIntent)
    && Sourced(p.urgencyEvidence, p.urgency == Unspecified)
    && Sourced(p.handoffEvidence, p.handoff == NoHandoff)
  }

  // ---------------------------------------------------------------- normalization

  predicate Known(ids: set<int>, message: Option<int>) {
    message.Some? ==> message.value in ids
  }

  predicate ReferencesKnown(p: Payload, ids: set<int>) {
    && (forall i :: 0 <= i < |p.fields| ==> p.fields[i].mention.message in ids)
    && (forall i :: 0 <= i < |p.signals| ==> p.signals[i].message in ids)
    && (forall i :: 0 <= i < |p.controls| ==> p.controls[i].message in ids)
    && Known(ids, p.intentEvidence.message) && Known(ids, p.urgencyEvidence.message)
    && Known(ids, p.handoffEvidence.message) && Known(ids, p.opportunityEvidence.message)
  }

  function EvidenceConfidence(e: Evidence): int {
    if e.message.None? then (if !e.empty && e.declared > 3900 then 3900 else e.declared)
    else Profile.Clamp(if e.verbatim then e.declared else e.declared - 2000)
  }

  predicate ForbiddenSignal(code: SignalCode) {
    code in {PlanCompatible, DeviceCompatible, CoverageConfirmed, CommercialRequirementsCompatible, BudgetIncompatible,
             BudgetCompatible, BudgetIncompatibleNoAlternatives, NoCoverage, DeviceOutOfStock, ProlongedInactivity,
             ContradictoryInformation, DoNotContactSignal}
  }

  datatype Normalized = Normalized(
    mentions: seq<Profile.Mention>, signals: seq<SignalItem>,
    deterministic: map<Context.Control, Context.Finding>, suggested: seq<Context.Finding>,
    opportunity: Opportunity, opportunityConfidence: int, opportunityMessage: Option<int>,
    intent: Intent, intentConfidence: int, urgency: CustomerUrgency, urgencyConfidence: int,
    handoff: HandoffKind, handoffConfidence: int, question: Option<ProviderQuestion>)

  /** The fields the provider may speak about. */
  function OpenMentions(fields: seq<FieldItem>): seq<Profile.Mention> {
    if fields == [] then []
    else
      var rest, last := OpenMentions(fields[..|fields| - 1]), fields[|fields| - 1].mention;
      if Profile.IsForbidden(last.field) then rest else rest + [last]
  }

  function OpenSignals(signals: seq<SignalItem>): seq<SignalItem> {
    if signals == [] then []
    else
      var rest, last := OpenSignals(signals[..|signals| - 1]), signals[|signals| - 1];
      if ForbiddenSignal(last.code) then rest else rest + [last]
  }

  function ControlFinding(c: ControlItem): Context.Finding {
    Context.Finding(c.control, Profile.Clamp(if c.verbatim then c.declared else c.declared - 2000), c.message, false)
  }

  /** The provider's controls, but those already found deterministically. */
  function SuggestedControls(controls: seq<ControlItem>, deterministic: map<Context.Control, Context.Finding>)
    : seq<Context.Finding>
  {
    if controls == [] then []
    else
      var rest, last := SuggestedControls(controls[..|controls| - 1], deterministic), controls[|controls| - 1];
      if last.control in deterministic then rest else rest + [ControlFinding(last)]
  }

  predicate ValuesValid(fields: seq<FieldItem>) {
    forall i :: 0 <= i < |fields| ==> Profile.IsForbidden(fields[i].mention.field) || fields[i].valid
  }

  /** None stands for an invalid response. */
  function Normalize(p: Payload, ids: set<int>, deterministic: map<Context.Control, Context.Finding>): Option<Normalized> {
    if !SchemaValid(p) || !ReferencesKnown(p, ids) || !ValuesValid(p.fields) then None
    else
      Some(Normalized(
        OpenMentions(p.fields), OpenSignals(p.signals), deterministic, SuggestedControls(p.controls, deterministic),
        p.opportunity, EvidenceConfidence(p.opportunityEvidence), p.opportunityEvidence.message,
        p.intent, EvidenceConfidence(p.intentEvidence), p.urgency, EvidenceConfidence(p.urgencyEvidence),
        p.handoff, EvidenceConfidence(p.handoffEvidence), p.question))
  }

  method NormalizePayload(p: Payload, ids: set<int>, deterministic: map<Context.Control, Context.Finding>)
    returns (result: Option<Normalized>)
    ensures result == Normalize(p, ids, deterministic)
  {
    if !SchemaValid(p) || !ReferencesKnown(p, ids) {
      return None;
    }
    var mentions: seq<Profile.Mention> := [];
    for i := 0 to |p.fields|
      invariant mentions == OpenMentions(p.fields[..i]) && ValuesValid(p.fields[..i])
    {
      assert p.fields[..i + 1][..i] == p.fields[..i];
      var item := p.fields[i];
      if !Profile.IsForbidden(item.mention.field) {
        if !item.valid {
          return None;
        }
        mentions := mentions + [item.mention];
      }
    }
    assert p.fields[..|p.fields|] == p.fields;
    var signals: seq<SignalItem> := [];
    for i := 0 to |p.signals|
      invariant signals == OpenSignals(p.signals[..i])
    {
      assert p.signals[..i + 1][..i] == p.signals[..i];
      if !ForbiddenSignal(p.signals[i].code) {
        signals := signals + [p.signals[i]];
      }
    }
    assert p.signals[..|p.signals|] == p.signals;
    var suggested: seq<Context.Finding> := [];
    for i := 0 to |p.controls|
      invariant suggested == SuggestedControls(p.controls[..i], deterministic)
    {
      assert p.controls[..i + 1][..i] == p.controls[..i];
      if p.controls[i].control !in deterministic {
        suggested := suggested + [ControlFinding(p.controls[i])];
      }
    }
    assert p.controls[..|p.controls|] == p.controls;
    result := Some(Normalized(
      mentions, signals, deterministic, suggested,
      p.opportunity, EvidenceConfidence(p.opportunityEvidence), p.opportunityEvidence.message,
      p.intent, EvidenceConfidence(p.intentEvidence), p.urgency, EvidenceConfidence(p.urgencyEvidence),
      p.handoff, EvidenceConfidence(p.handoffEvidence), p.question));
  }

  // ---------------------------------------------------------------- acceptance

  datatype Command = Command(
    facts: Profile.Facts, opportunity: Opportunity, recentlyAsked: set<Field>, handoffConfirmed: bool)

  // The tables of required fields and question texts, over which everything is proved.
  datatype Tables = Tables(required: nat -> seq<Field>, hasText: Field -> bool)

  datatype AcceptedSignal = AcceptedSignal(code: SignalCode, confidence: int, message: int)

  datatype Accepted = Accepted(
    opportunity: Opportunity, opportunityConfidence: int, opportunityMessage: Option<int>,
    fields: seq<Profile.Resolved>, signals: seq<AcceptedSignal>, controls: map<Context.Control, Context.Finding>,
    contradictions: seq<Profile.Contradiction>, missing: seq<Field>, question: Option<Field>, handoff: HandoffKind,
    intent: Option<Intent>, urgency: Option<CustomerUrgency>)

  predicate Passes(f: Context.Finding, autoAccept: int) {
    f.deterministic || f.confidence >= autoAccept
  }

  /** Per control the passing finding of greatest confidence, the first of them on a tie. */
  function AcceptControls(
    found: map<Context.Control, Context.Finding>, suggested: seq<Context.Finding>, autoAccept: int)
    : map<Context.Control, Context.Finding>
  {
    if suggested == [] then found
    else
      var before, f := AcceptControls(found, suggested[..|suggested| - 1], autoAccept), suggested[|suggested| - 1];
      if Passes(f, autoAccept) && (f.control !in before || f.confidence > before[f.control].confidence)
      then before[f.control := f] else before
  }

  function AcceptSignals(signals: seq<SignalItem>, autoAccept: int): seq<AcceptedSignal> {
    if signals == [] then []
    else
      var rest, last := AcceptSignals(signals[..|signals| - 1], autoAccept), signals[|signals| - 1];
      var confidence := Profile.Clamp(if last.verbatim then last.declared else last.declared - 2000);
      if confidence >= autoAccept then rest + [AcceptedSignal(last.code, confidence, last.message)] else rest
  }

  function MissingFields(required: seq<Field>, facts: Profile.Facts, fields: seq<Profile.Resolved>): seq<Field> {
    Filter(required, (f: Field) => f !in facts && forall i :: 0 <= i < |fields| ==> fields[i].mention.field != f)
  }

  function LineCount(fields: seq<Profile.Resolved>): int {
    if fields == [] then 0
    else if fields[0].mention.field == LINE_COUNT && fields[0].mention.value.kind == INTEGER_KIND
    then fields[0].mention.value.identity
    else LineCount(fields[1..])
  }

  function SuggestHandoff(
    n: Normalized, controls: map<Context.Control, Context.Finding>, fields: seq<Profile.Resolved>, autoAccept: int)
    : HandoffKind
  {
    if Context.DoNotContactControl in controls then NoHandoff
    else if Context.HumanRequestedControl in controls then General
    else if Context.SuspectedFraud in controls || Context.Complaint in controls then Specialized
    else if n.opportunity.primary == BUSINESS_ACCOUNT || LineCount(fields) >= 10 then Specialized
    else if n.opportunity.primary == PORTABILITY && (n.urgency == ImmediateUrgency || n.urgency == ThisWeekUrgency)
         && n.urgencyConfidence >= autoAccept then General
    else if n.handoff != NoHandoff && n.handoffConfidence >= autoAccept then n.handoff
    else NoHandoff
  }

  function ContradictedFields(contradictions: seq<Profile.Contradiction>): (r: seq<Field>)
    ensures |r| == |contradictions|
  {
    seq(|contradictions|, i requires 0 <= i < |contradictions| => contradictions[i].field)
  }

  /** The field to ask about: the first contradicted or missing one not asked recently, when there is a text to ask. */
  function SuggestQuestion(
    n: Normalized, missing: seq<Field>, contradictions: seq<Profile.Contradiction>,
    controls: map<Context.Control, Context.Finding>, command: Command, tables: Tables): Option<Field>
  {
    if command.handoffConfirmed || Context.DoNotContactControl in controls || Context.HumanRequestedControl in controls
    then None
    else
      var targets := Filter(ContradictedFields(contradictions) + missing, (f: Field) => f !in command.recentlyAsked);
      if targets == [] then None
      else if n.question.Some? && n.question.value.target == targets[0] && n.question.value.acceptable then Some(targets[0])
      else if exists i :: 0 <= i < |targets| && tables.hasText(targets[i]) then Some(targets[0])
      else None
  }

  function Accept(
    n: Normalized, outputs: seq<Profile.Resolved>, contradictions: seq<Profile.Contradiction>, command: Command,
    policy: Profile.ConfidencePolicy, tables: Tables): Accepted
  {
    var controls := AcceptControls(n.deterministic, n.suggested, policy.autoAccept);
    var fields := Filter(outputs, Profile.IsAccepted);
    var opportunity :=
      if n.opportunityConfidence < policy.provisional then Theorems.Opportunity(Theorems.UNIDENTIFIED, []) else n.opportunity;
    var missing := MissingFields(tables.required(opportunity.primary), command.facts, fields);
    Accepted(opportunity, n.opportunityConfidence, n.opportunityMessage, fields,
             AcceptSignals(n.signals, policy.autoAccept), controls, contradictions, missing,
             SuggestQuestion(n, missing, contradictions, controls, command, tables),
             SuggestHandoff(n, controls, fields, policy.autoAccept),
             if n.intentConfidence >= policy.autoAccept then Some(n.intent) else None,
             if n.urgencyConfidence >= policy.autoAccept then Some(n.urgency) else None)
  }

  /** Without an answer: nothing extracted, the deterministic controls, and no question. */
  function Fallback(
    deterministic: map<Context.Control, Context.Finding>, newest: int, command: Command,
    policy: Profile.ConfidencePolicy, tables: Tables): Accepted
  {
    var n := Normalized([], [], deterministic, [], command.opportunity,
                        if command.opportunity.primary != Theorems.UNIDENTIFIED then Profile.ONE else 0, Some(newest),
                        UnknownIntent, 0, Unspecified, 0, NoHandoff, 0, None);
    Accept(n, [], [], command, policy, tables).(question := None)
  }

  // ---------------------------------------------------------------- attempts

  datatype Prepared = Prepared(ids: set<int>, newest: int, deterministic: map<Context.Control, Context.Finding>)

  datatype Setup = Setup(prepared: Prepared, command: Command, policy: Profile.ConfidencePolicy, tables: Tables, maxRetries: nat)

  datatype Attempt = Good(accepted: Accepted, resolved: seq<Profile.Resolved>) | Bad(error: ProviderError) | Escape

  datatype Result =
    | Completed(accepted: Accepted, resolved: seq<Profile.Resolved>, failures: seq<ProviderError>)
    | Degraded(accepted: Accepted, failures: seq<ProviderError>)
    | Escaped

  function TryReply(reply: Reply, s: Setup): Attempt {
    match reply
    case Fails(error) => Bad(error)
    case Raises => Escape
    case Answers(payload) =>
      match Normalize(payload, s.prepared.ids, s.prepared.deterministic)
      case None => Bad(InvalidResponse)
      case Some(n) =>
        var resolved := Profile.ResolveAll(n.mentions, s.policy);
        Good(Accept(n, Profile.Outputs(resolved, s.command.facts), Profile.Contradictions(resolved, s.command.facts),
                    s.command, s.policy, s.tables), resolved)
  }

  predicate Retryable(error: ProviderError) {
    error != PermanentError
  }

  function DegradedResult(s: Setup, failures: seq<ProviderError>): Result {
    Degraded(Fallback(s.prepared.deterministic, s.prepared.newest, s.command, s.policy, s.tables), failures)
  }

  /** What the attempts from `k` on come to. The provider is told whether to repair an invalid response. */
  function AttemptsFrom(provider: (nat, bool) -> Reply, s: Setup, k: nat, failures: seq<ProviderError>): Result
    decreases s.maxRetries + 1 - k
  {
    if k > s.maxRetries then DegradedResult(s, failures)
    else
      match TryReply(provider(k, InvalidResponse in failures), s)
      case Good(accepted, resolved) => Completed(accepted, resolved, failures)
      case Escape => Escaped
      case Bad(error) =>
        if Retryable(error) && k < s.maxRetries then AttemptsFrom(provider, s, k + 1, failures + [error])
        else DegradedResult(s, failures + [error])
  }

  method TryPayload(payload: Payload, s: Setup) returns (result: Option<Accepted>, resolved: seq<Profile.Resolved>)
    ensures match TryReply(Answers(payload), s)
            case Good(accepted, r) => result == Some(accepted) && resolved == r
            case Bad(error) => result == None && error == InvalidResponse
            case Escape => false
  {
    resolved := [];
    var n := NormalizePayload(payload, s.prepared.ids, s.prepared.deterministic);
    if n.None? {
      return None, [];
    }
    resolved := Profile.ResolveFields(n.value.mentions, s.policy);
    assert resolved == Profile.ResolveAll(n.value.mentions, s.policy);
    var outputs, contradictions := Profile.Reconcile(resolved, s.command.facts);
    result := Some(Accept(n.value, outputs, contradictions, s.command, s.policy, s.tables));
  }

  /** The retry loop. */
  method AttemptExtraction(provider: (nat, bool) -> Reply, s: Setup) returns (result: Result)
    ensures result == AttemptsFrom(provider, s, 0, [])
  {
    var failures: seq<ProviderError> := [];
    var k: nat := 0;
    while k <= s.maxRetries
      invariant k <= s.maxRetries + 1
      invariant AttemptsFrom(provider, s, 0, []) == AttemptsFrom(provider, s, k, failures)
      decreases s.maxRetries + 1 - k
    {
      var error := PermanentError;
      match provider(k, InvalidResponse in failures) {
        case Raises =>
          return Escaped;
        case Fails(raised) =>
          error := raised;
        case Answers(payload) =>
          var accepted, resolved := TryPayload(payload, s);
          if accepted.Some? {
            return Completed(accepted.value, resolved, failures);
          }
          error := InvalidResponse;
      }
      failures := failures + [error];
      if !(Retryable(error) && k < s.maxRetries) {
        break;
      }
      k := k + 1;
    }
    result := DegradedResult(s, failures);
  }

  // ---------------------------------------------------------------- signals for the qualification

  datatype Method = ByAi | Explicit | BySystem

  datatype Candidate = Candidate(confidence: int, message: Option<int>, how: Method)

  function IntentSignal(intent: Intent): Option<SignalCode> {
    match intent
    case Exploration => Some(ResearchOnly)
    case Comparison => Some(ComparesProducts)
    case PriceInquiry => Some(AsksPrice)
    case MonthlyPaymentInquiry => Some(AsksMonthlyPayment)
    case InventoryInquiry => Some(AsksAvailability)
    case RequirementsInquiry => Some(AsksRequirements)
    case QuoteRequest => Some(RequestsQuote)
    case PortabilityRequest => Some(RequestsPortability)
    case Contract => Some(WantsContractNow)
    case Purchase => Some(WantsContractNow)
    case _ => None
  }

  function UrgencySignal(urgency: CustomerUrgency): Option<SignalCode> {
    match urgency
    case ImmediateUrgency => Some(Immediate)
    case ThisWeekUrgency => Some(ThisWeek)
    case Future => Some(PurchaseOverThreeMonths)
    case _ => None
  }

  function OpportunitySignal(primary: nat): Option<SignalCode> {
    if primary == DEVICE_WITH_PLAN then Some(DeviceAndPlan)
    else if primary == ACCESSORY then Some(AccessoryInterest)
    else if primary == MULTIPLE_LINES then Some(MultipleLines)
    else if primary == BUSINESS_ACCOUNT then Some(BusinessAccount)
    else None
  }

  function ControlSignal(control: Context.Control): Option<SignalCode> {
    match control
    case DoNotContactControl => Some(DoNotContactSignal)
    case HumanRequestedControl => Some(RequestsHuman)
    case _ => None
  }

  function FromFinding(f: Context.Finding): Candidate {
    Candidate(f.confidence, Some(f.message), if f.deterministic then Explicit else ByAi)
  }

  function LeastConfidence(contradictions: seq<Profile.Contradiction>): int
    requires contradictions != []
  {
    var last := contradictions[|contradictions| - 1].confidence;
    if |contradictions| == 1 then last
    else
      var rest := LeastConfidence(contradictions[..|contradictions| - 1]);
      if last < rest then last else rest
  }

  function Default(candidates: map<SignalCode, Candidate>, code: Option<SignalCode>, c: Candidate): map<SignalCode, Candidate> {
    if code.None? || code.value in candidates then candidates else candidates[code.value := c]
  }

  function ProviderCandidates(signals: seq<AcceptedSignal>): map<SignalCode, Candidate> {
    if signals == [] then map[]
    else
      var last := signals[|signals| - 1];
      ProviderCandidates(signals[..|signals| - 1])[last.code := Candidate(last.confidence, Some(last.message), ByAi)]
  }

  function WithControl(candidates: map<SignalCode, Candidate>, a: Accepted, control: Context.Control): map<SignalCode, Candidate> {
    if control in a.controls && ControlSignal(control).Some?
    then candidates[ControlSignal(control).value := FromFinding(a.controls[control])]
    else candidates
  }

  /** The candidate signals: the provider's, overridden by controls and contradictions, completed by what intent,
      urgency and opportunity imply. */
  function Candidates(a: Accepted): map<SignalCode, Candidate> {
    var spoken := ProviderCandidates(a.signals);
    var controlled := WithControl(WithControl(spoken, a, Context.DoNotContactControl), a, Context.HumanRequestedControl);
    var contradicted :=
      if a.contradictions == [] then controlled
      else
        controlled[ContradictoryInformation :=
          Candidate(LeastConfidence(a.contradictions), Some(a.contradictions[0].message), BySystem)];
    var implied := Candidate(a.opportunityConfidence, a.opportunityMessage, ByAi);
    var sourced := a.opportunityMessage.Some?;
    var intended :=
      if a.intent.Some? && sourced then Default(contradicted, IntentSignal(a.intent.value), implied) else contradicted;
    var urged := if a.urgency.Some? && sourced then Default(intended, UrgencySignal(a.urgency.value), implied) else intended;
    Default(urged, OpportunitySignal(a.opportunity.primary), implied)
  }

  method CollectCandidates(a: Accepted) returns (candidates: map<SignalCode, Candidate>)
    ensures candidates == Candidates(a)
  {
    candidates := map[];
    for i := 0 to |a.signals|
      invariant candidates == ProviderCandidates(a.signals[..i])
    {
      assert a.signals[..i + 1][..i] == a.signals[..i];
      var item := a.signals[i];
      candidates := candidates[item.code := Candidate(item.confidence, Some(item.message), ByAi)];
    }
    assert a.signals[..|a.signals|] == a.signals;
    candidates := WithControl(candidates, a, Context.DoNotContactControl);
    candidates := WithControl(candidates, a, Context.HumanRequestedControl);
    if a.contradictions != [] {
      candidates := candidates[ContradictoryInformation :=
        Candidate(LeastConfidence(a.contradictions), Some(a.contradictions[0].message), BySystem)];
    }
    var implied := Candidate(a.opportunityConfidence, a.opportunityMessage, ByAi);
    if a.intent.Some? && a.opportunityMessage.Some? {
      candidates := Default(candidates, IntentSignal(a.intent.value), implied);
    }
    if a.urgency.Some? && a.opportunityMessage.Some? {
      candidates := Default(candidates, UrgencySignal(a.urgency.value), implied);
    }
    candidates := Default(candidates, OpportunitySignal(a.opportunity.primary), implied);
  }

  // ---------------------------------------------------------------- theorems

  /** Failures an extraction may end with: all but the last were worth retrying, and there are at most
      max_retries + 1 of them. */
  ghost predicate LegalFailures(failures: seq<ProviderError>, maxRetries: nat) {
    && |failures| <= maxRetries + 1
    && (forall i :: 0 <= i < |failures| - 1 ==> Retryable(failures[i]))
  }

  lemma {:induction false} AttemptsAreBounded(provider: (nat, bool) -> Reply, s: Setup, k: nat, failures: seq<ProviderError>)
    requires |failures| == k <= s.maxRetries
    requires forall i :: 0 <= i < k ==> Retryable(failures[i])
    ensures match AttemptsFrom(provider, s, k, failures)
            case Completed(_, _, f) => |f| <= s.maxRetries && forall i :: 0 <= i < |f| ==> Retryable(f[i])
            case Degraded(_, f) =>
              f != [] && LegalFailures(f, s.maxRetries) && (|f| == s.maxRetries + 1 || !Retryable(f[|f| - 1]))
            case Escaped => true
    decreases s.maxRetries - k
  {
    match TryReply(provider(k, InvalidResponse in failures), s)
    case Bad(error) =>
      if Retryable(error) && k < s.maxRetries {
        AttemptsAreBounded(provider, s, k + 1, failures + [error]);
      }
    case _ =>
  }

  /** Extraction degrades only after a failure not worth retrying or after max_retries + 1 attempts, and completes
      after at most max_retries failures, all worth retrying. */
  lemma RetriesAreBounded(provider: (nat, bool) -> Reply, s: Setup)
    ensures match AttemptsFrom(provider, s, 0, [])
            case Completed(_, _, f) => |f| <= s.maxRetries && forall i :: 0 <= i < |f| ==> Retryable(f[i])
            case Degraded(_, f) =>
              f != [] && LegalFailures(f, s.maxRetries) && (|f| == s.maxRetries + 1 || !Retryable(f[|f| - 1]))
            case Escaped => true
  {
    AttemptsAreBounded(provider, s, 0, []);
  }

  /** The deterministic controls are certain, one per control. */
  ghost predicate Certain(deterministic: map<Context.Control, Context.Finding>) {
    forall c :: c in deterministic ==>
      deterministic[c].deterministic && deterministic[c].confidence == Profile.ONE && deterministic[c].control == c
  }

  lemma {:induction false} SuggestionsAreOthers(controls: seq<ControlItem>, deterministic: map<Context.Control, Context.Finding>)
    ensures forall i :: 0 <= i < |SuggestedControls(controls, deterministic)| ==>
      var f := SuggestedControls(controls, deterministic)[i];
      f.control !in deterministic && !f.deterministic && Ratio(f.confidence)
  {
    if controls != [] {
      SuggestionsAreOthers(controls[..|controls| - 1], deterministic);
    }
  }

  /** A control is accepted exactly when it was found deterministically or suggested confidently; nothing suggested
      replaces what was found, and a suggested control keeps its most confident finding. */
  lemma {:induction false} AcceptedControlsAre(
    found: map<Context.Control, Context.Finding>, suggested: seq<Context.Finding>, autoAccept: int)
    requires forall i :: 0 <= i < |suggested| ==> suggested[i].control !in found
    ensures var accepted := AcceptControls(found, suggested, autoAccept);
            && (forall c :: c in accepted <==>
                  c in found || exists i :: 0 <= i < |suggested| && suggested[i].control == c && Passes(suggested[i], autoAccept))
            && (forall c :: c in found ==> accepted[c] == found[c])
            && (forall i :: 0 <= i < |suggested| && Passes(suggested[i], autoAccept) ==>
                  accepted[suggested[i].control].confidence >= suggested[i].confidence)
  {
    if suggested != [] {
      var n := |suggested| - 1;
      AcceptedControlsAre(found, suggested[..n], autoAccept);
      var before, accepted := AcceptControls(found, suggested[..n], autoAccept), AcceptControls(found, suggested, autoAccept);
      assert forall i :: 0 <= i < n ==> suggested[..n][i] == suggested[i];
      forall c
        ensures c in accepted <==>
          c in found || exists i :: 0 <= i < |suggested| && suggested[i].control == c && Passes(suggested[i], autoAccept)
      {
        if c in before && c !in found {
          var i :| 0 <= i < n && suggested[..n][i].control == c && Passes(suggested[..n][i], autoAccept);
          assert suggested[i].control == c;
        }
      }
    }
  }

  lemma {:induction false} FilterSplits(a: seq<Field>, b: seq<Field>, p: Field -> bool)
    ensures Filter(a + b, p) == Filter(a, p) + Filter(b, p)
  {
    if b == [] {
      assert a + b == a && Filter(a, p) + [] == Filter(a, p);
    } else {
      assert (a + b)[..|a + b| - 1] == a + b[..|b| - 1];
      FilterSplits(a, b[..|b| - 1], p);
    }
  }

  /** A question is about a contradicted or missing field that was not asked recently, about a contradicted one as
      long as there is one, and never put to a customer who is silenced or handed over. */
  lemma QuestionIsRelevant(
    n: Normalized, missing: seq<Field>, contradictions: seq<Profile.Contradiction>,
    controls: map<Context.Control, Context.Finding>, command: Command, tables: Tables)
    ensures var q := SuggestQuestion(n, missing, contradictions, controls, command, tables);
            q.Some? ==>
              && q.value !in command.recentlyAsked
              && (q.value in ContradictedFields(contradictions) || q.value in missing)
              && ((exists f :: f in ContradictedFields(contradictions) && f !in command.recentlyAsked) ==>
                    q.value in ContradictedFields(contradictions))
              && !command.handoffConfirmed
              && Context.DoNotContactControl !in controls && Context.HumanRequestedControl !in controls
  {
    var open := (f: Field) => f !in command.recentlyAsked;
    var contradicted := ContradictedFields(contradictions);
    FilterSplits(contradicted, missing, open);
    var targets := Filter(contradicted + missing, open);
    if targets != [] {
      assert targets[0] in targets;
      if Filter(contradicted, open) != [] {
        assert targets[0] == Filter(contradicted, open)[0];
        assert targets[0] in Filter(contradicted, open);
      }
    }
  }

  /** What an accepted extraction must be once the do-not-contact control was found. */
  predicate Silent(a: Accepted) {
    && Context.DoNotContactControl in a.controls
    && a.question == None && a.handoff == NoHandoff
  }

  lemma DeterministicSurvivesAcceptance(
    n: Normalized, outputs: seq<Profile.Resolved>, contradictions: seq<Profile.Contradiction>, s: Setup)
    requires n.deterministic == s.prepared.deterministic
    requires forall i :: 0 <= i < |n.suggested| ==> n.suggested[i].control !in n.deterministic
    requires Context.DoNotContactControl in s.prepared.deterministic
    ensures var a := Accept(n, outputs, contradictions, s.command, s.policy, s.tables);
            && Silent(a)
            && a.controls[Context.DoNotContactControl] == s.prepared.deterministic[Context.DoNotContactControl]
  {
    AcceptedControlsAre(n.deterministic, n.suggested, s.policy.autoAccept);
  }

  lemma ReplyKeepsDoNotContact(reply: Reply, s: Setup)
    requires Context.DoNotContactControl in s.prepared.deterministic
    ensures var t := TryReply(reply, s);
            t.Good? ==>
              && Silent(t.accepted)
              && t.accepted.controls[Context.DoNotContactControl] == s.prepared.deterministic[Context.DoNotContactControl]
  {
    if reply.Answers? {
      var n := Normalize(reply.payload, s.prepared.ids, s.prepared.deterministic);
      if n.Some? {
        SuggestionsAreOthers(reply.payload.controls, s.prepared.deterministic);
        var resolved := Profile.ResolveAll(n.value.mentions, s.policy);
        DeterministicSurvivesAcceptance(n.value, Profile.Outputs(resolved, s.command.facts),
                                        Profile.Contradictions(resolved, s.command.facts), s);
      }
    }
  }

  lemma {:induction false} AttemptsKeepDoNotContact(provider: (nat, bool) -> Reply, s: Setup, k: nat, failures: seq<ProviderError>)
    requires Context.DoNotContactControl in s.prepared.deterministic
    ensures var r := AttemptsFrom(provider, s, k, failures);
            !r.Escaped? ==>
              && Silent(r.accepted)
              && r.accepted.controls[Context.DoNotContactControl] == s.prepared.deterministic[Context.DoNotContactControl]
    decreases s.maxRetries + 1 - k
  {
    var n := Normalized([], [], s.prepared.deterministic, [], s.command.opportunity,
                        if s.command.opportunity.primary != Theorems.UNIDENTIFIED then Profile.ONE else 0,
                        Some(s.prepared.newest), UnknownIntent, 0, Unspecified, 0, NoHandoff, 0, None);
    DeterministicSurvivesAcceptance(n, [], [], s);
    if k <= s.maxRetries {
      var reply := provider(k, InvalidResponse in failures);
      ReplyKeepsDoNotContact(reply, s);
      match TryReply(reply, s)
      case Bad(error) =>
        if Retryable(error) && k < s.maxRetries {
          AttemptsKeepDoNotContact(provider, s, k + 1, failures + [error]);
        }
      case _ =>
    }
  }

  lemma OnlyControlsSilence(a: Accepted)
    requires forall i :: 0 <= i < |a.signals| ==> !ForbiddenSignal(a.signals[i].code)
    ensures DoNotContactSignal in Candidates(a) <==> Context.DoNotContactControl in a.controls
    ensures Context.DoNotContactControl in a.controls ==>
      Candidates(a)[DoNotContactSignal] == FromFinding(a.controls[Context.DoNotContactControl])
  {
    ProviderNeverSays(a.signals, DoNotContactSignal);
  }

  lemma {:induction false} ProviderNeverSays(signals: seq<AcceptedSignal>, code: SignalCode)
    requires forall i :: 0 <= i < |signals| ==> signals[i].code != code
    ensures code !in ProviderCandidates(signals)
  {
    if signals != [] {
      ProviderNeverSays(signals[..|signals| - 1], code);
    }
  }

  lemma {:induction false} OpenSignalsAreOpen(signals: seq<SignalItem>)
    ensures forall i :: 0 <= i < |OpenSignals(signals)| ==> !ForbiddenSignal(OpenSignals(signals)[i].code)
  {
    if signals != [] {
      OpenSignalsAreOpen(signals[..|signals| - 1]);
    }
  }

  lemma {:induction false} AcceptedSignalsAreOpen(signals: seq<SignalItem>, autoAccept: int)
    requires forall i :: 0 <= i < |signals| ==> !ForbiddenSignal(signals[i].code)
    ensures forall i :: 0 <= i < |AcceptSignals(signals, autoAccept)| ==>
      !ForbiddenSignal(AcceptSignals(signals, autoAccept)[i].code)
  {
    if signals != [] {
      AcceptedSignalsAreOpen(signals[..|signals| - 1], autoAccept);
    }
  }

  /** The provider's answers never carry a signal it is not trusted with. */
  lemma {:induction false} NoForbiddenSignals(provider: (nat, bool) -> Reply, s: Setup, k: nat, failures: seq<ProviderError>)
    ensures var r := AttemptsFrom(provider, s, k, failures);
            !r.Escaped? ==> forall i :: 0 <= i < |r.accepted.signals| ==> !ForbiddenSignal(r.accepted.signals[i].code)
    decreases s.maxRetries + 1 - k
  {
    if k <= s.maxRetries {
      var reply := provider(k, InvalidResponse in failures);
      match TryReply(reply, s)
      case Good(_, _) =>
        OpenSignalsAreOpen(reply.payload.signals);
        AcceptedSignalsAreOpen(OpenSignals(reply.payload.signals), s.policy.autoAccept);
      case Bad(error) =>
        if Retryable(error) && k < s.maxRetries {
          NoForbiddenSignals(provider, s, k + 1, failures + [error]);
        }
      case Escape =>
    }
  }

  /** Do-not-contact survives every provider: whatever it answers and however it fails, a returned result carries the
      control found in the messages, asks nothing, hands off to nobody, and signals do-not-contact with certainty. */
  lemma DoNotContactSurvives(provider: (nat, bool) -> Reply, s: Setup)
    requires Certain(s.prepared.deterministic) && Context.DoNotContactControl in s.prepared.deterministic
    ensures var r := AttemptsFrom(provider, s, 0, []);
            !r.Escaped? ==>
              && Silent(r.accepted)
              && DoNotContactSignal in Candidates(r.accepted)
              && Candidates(r.accepted)[DoNotContactSignal].confidence == Profile.ONE
              && Candidates(r.accepted)[DoNotContactSignal].how == Explicit
  {
    AttemptsKeepDoNotContact(provider, s, 0, []);
    NoForbiddenSignals(provider, s, 0, []);
    var r := AttemptsFrom(provider, s, 0, []);
    if !r.Escaped? {
      OnlyControlsSilence(r.accepted);
    }
  }

  /** Whatever a returned result resolved came out of the resolver: nothing in it is contradicted yet. */
  lemma {:induction false} ResultsComeFromResolver(provider: (nat, bool) -> Reply, s: Setup, k: nat, failures: seq<ProviderError>)
    ensures AttemptsFrom(provider, s, k, failures).Completed? ==>
      Theorems.FromResolver(AttemptsFrom(provider, s, k, failures).resolved)
    decreases s.maxRetries + 1 - k
  {
    if k <= s.maxRetries {
      match TryReply(provider(k, InvalidResponse in failures), s)
      case Good(_, resolved) =>
        forall r | r in resolved ensures r.treatment != Profile.Contradicted {
          var i :| 0 <= i < |resolved| && resolved[i] == r;
        }
      case Bad(error) =>
        if Retryable(error) && k < s.maxRetries {
          ResultsComeFromResolver(provider, s, k + 1, failures + [error]);
        }
      case Escape =>
    }
  }
}
