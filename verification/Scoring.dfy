// The scoring policy, what makes one valid, and what the engine computes from it and a set of usable signals.
// Rule codes, texts and offers are integers ordered as their strings are; confidences are in ten-thousandths.
module Scoring {
  import opened Wrappers
  import opened Signals
  import opened StateMachines
  import Sorting

  datatype Dimension = NeedCompatibility | PurchaseIntent | BudgetPayment | Urgency | Engagement | CommercialPotential

  /** The position of the dimension's name in alphabetical order. */
  function DimensionRank(d: Dimension): int {
    match d
    case BudgetPayment => 0
    case CommercialPotential => 1
    case Engagement => 2
    case NeedCompatibility => 3
    case PurchaseIntent => 4
    case Urgency => 5
  }

  datatype Classification = Exploration | Cold | Warm | Hot | Priority

  datatype Action =
    | ResolveAndPresentOptions | AutomatedFollowUp | CollectMissingInformation | NotifyAdvisor
    | ImmediateHandoff | SpecializedHandoff | SearchAlternatives | StopAutomation

  function ActionRank(a: Action): int {
    match a
    case AutomatedFollowUp => 0
    case CollectMissingInformation => 1
    case ImmediateHandoff => 2
    case NotifyAdvisor => 3
    case ResolveAndPresentOptions => 4
    case SearchAlternatives => 5
    case SpecializedHandoff => 6
    case StopAutomation => 7
  }

  datatype Effect = PointPenalty | OfferBlock | Disqualification | TemporaryExclusion | DoNotContactEffect

  datatype PolicyStatus = Draft | Published | Retired

  datatype DimensionDefinition = DimensionDefinition(dimension: Dimension, maxPoints: int)

  datatype Criterion = Criterion(
    code: int, dimension: Dimension, points: int, required: set<SignalCode>, excluded: set<SignalCode>,
    group: Option<int>, explanation: int)

  datatype Penalty = Penalty(
    code: int, adjustment: int, effect: Effect, required: set<SignalCode>, explanation: int,
    action: Option<Action>, blockedOffer: Option<int>)

  datatype Decision = Decision(
    code: int, priority: int, required: set<SignalCode>, action: Action, explanation: int,
    handoffRequired: bool, specialized: bool, reason: Option<int>, state: Option<LeadState>)

  datatype Band = Band(minimum: int, maximum: int, classification: Classification, action: Action)

  // What a policy says besides its rules.
  datatype Header = Header(
    id: int, tenant: int, name: int, version: int, opportunity: int, status: PolicyStatus, minimumConfidence: int,
    publishedAt: int)

  datatype Policy = Policy(
    header: Header, dimensions: seq<DimensionDefinition>, criteria: seq<Criterion>, penalties: seq<Penalty>,
    decisions: seq<Decision>, bands: seq<Band>)

  // ---------------------------------------------------------------- validity

  predicate ValidCriterion(c: Criterion) {
    c.points > 0 && c.required != {} && c.required * c.excluded == {}
  }

  predicate ValidPenalty(p: Penalty) {
    && -100 <= p.adjustment <= 0
    && (p.effect == PointPenalty ==> p.adjustment != 0)
    && p.required != {}
    && (p.effect == OfferBlock ==> p.blockedOffer.Some?)
  }

  predicate ValidDecision(d: Decision) {
    && d.priority >= 0 && d.required != {}
    && (d.handoffRequired ==> d.reason.Some?)
    && (d.specialized ==> d.handoffRequired)
  }

  predicate ValidBand(b: Band) {
    0 <= b.minimum <= b.maximum <= 100
  }

  function TotalMaximum(dimensions: seq<DimensionDefinition>): int {
    if dimensions == [] then 0
    else TotalMaximum(dimensions[..|dimensions| - 1]) + dimensions[|dimensions| - 1].maxPoints
  }

  ghost predicate ValidDimensions(dimensions: seq<DimensionDefinition>) {
    && (forall i :: 0 <= i < |dimensions| ==> 1 <= dimensions[i].maxPoints <= 100)
    && (forall i, j :: 0 <= i < j < |dimensions| ==> dimensions[i].dimension != dimensions[j].dimension)
    && (forall d: Dimension :: Defines(dimensions, d))
    && TotalMaximum(dimensions) == 100
  }

  ghost predicate Defines(dimensions: seq<DimensionDefinition>, d: Dimension) {
    exists i :: 0 <= i < |dimensions| && dimensions[i].dimension == d
  }

  /** No rule code is used twice, within a kind of rule or across kinds. */
  ghost predicate UniqueCodes(p: Policy) {
    && (forall i, j :: 0 <= i < j < |p.criteria| ==> p.criteria[i].code != p.criteria[j].code)
    && (forall i, j :: 0 <= i < j < |p.penalties| ==> p.penalties[i].code != p.penalties[j].code)
    && (forall i, j :: 0 <= i < j < |p.decisions| ==> p.decisions[i].code != p.decisions[j].code)
    && (forall c, q :: c in p.criteria && q in p.penalties ==> c.code != q.code)
    && (forall c, d :: c in p.criteria && d in p.decisions ==> c.code != d.code)
    && (forall q, d :: q in p.penalties && d in p.decisions ==> q.code != d.code)
  }

  predicate BandOrder(a: Band, b: Band) {
    a.minimum <= b.minimum
  }

  /** In order of their minimum, the bands run from 0 to 100 without a gap or an overlap. */
  ghost predicate Chained(bands: seq<Band>) {
    && bands != [] && bands[0].minimum == 0 && bands[|bands| - 1].maximum == 100
    && (forall i :: 0 <= i < |bands| - 1 ==> bands[i + 1].minimum == bands[i].maximum + 1)
  }

  ghost predicate ValidBands(bands: seq<Band>) {
    && (forall i :: 0 <= i < |bands| ==> ValidBand(bands[i]))
    && Chained(Sorting.Sort(bands, BandOrder))
    && (forall i, j :: 0 <= i < j < |bands| ==> bands[i].classification != bands[j].classification)
  }

  ghost predicate ValidPolicy(p: Policy) {
    && 0 <= p.header.minimumConfidence <= 10000 && p.header.version > 0
    && ValidDimensions(p.dimensions)
    && (forall c :: c in p.criteria ==> ValidCriterion(c))
    && (forall q :: q in p.penalties ==> ValidPenalty(q))
    && (forall d :: d in p.decisions ==> ValidDecision(d))
    && UniqueCodes(p)
    && (forall c, i :: c in p.criteria && 0 <= i < |p.dimensions| && p.dimensions[i].dimension == c.dimension ==>
          c.points <= p.dimensions[i].maxPoints)
    && ValidBands(p.bands)
  }

  // ---------------------------------------------------------------- signals

  datatype ValidationStatus = Hypothesis | AcceptedSignal | Confirmed | Rejected

  datatype Signal = Signal(code: SignalCode, confidence: int, observedAt: int, status: ValidationStatus)

  predicate Usable(s: Signal, minimum: int) {
    s.status != Rejected && (s.status == Confirmed || s.confidence >= minimum)
  }

  /** The codes the engine works with: it never looks at a signal but for its code. */
  function UsableCodes(signals: seq<Signal>, minimum: int): set<SignalCode> {
    set s | s in signals && Usable(s, minimum) :: s.code
  }

  // ---------------------------------------------------------------- criteria

  predicate Matches(c: Criterion, codes: set<SignalCode>) {
    c.required <= codes && c.excluded * codes == {}
  }

  /** Two criteria compete in the same exclusive group of the same dimension. */
  predicate Compete(a: Criterion, b: Criterion) {
    a.group.Some? && a.group == b.group && a.dimension == b.dimension
  }

  /** The order within a group: more points first, then the smaller code. */
  predicate Beats(a: Criterion, b: Criterion) {
    a.points > b.points || (a.points == b.points && a.code <= b.code)
  }

  /** Selected: it matches, and in an exclusive group nothing that matches beats it. */
  predicate Selected(criteria: seq<Criterion>, codes: set<SignalCode>, c: Criterion) {
    && Matches(c, codes)
    && forall other :: other in criteria && Matches(other, codes) && Compete(c, other) ==> Beats(c, other)
  }

  predicate CriterionOrder(a: Criterion, b: Criterion) {
    || DimensionRank(a.dimension) < DimensionRank(b.dimension)
    || (DimensionRank(a.dimension) == DimensionRank(b.dimension) && a.code <= b.code)
  }

  function Contributions(criteria: seq<Criterion>, codes: set<SignalCode>): seq<Criterion> {
    Sorting.Sort(Filter(criteria, c => Selected(criteria, codes, c)), CriterionOrder)
  }

  // ---------------------------------------------------------------- dimensions

  function RawPoints(contributions: seq<Criterion>, d: Dimension): int {
    if contributions == [] then 0
    else
      var last := contributions[|contributions| - 1];
      RawPoints(contributions[..|contributions| - 1], d) + (if last.dimension == d then last.points else 0)
  }

  datatype DimensionScore = DimensionScore(dimension: Dimension, raw: int, points: int, maximum: int)

  function Min(a: int, b: int): int {
    if a < b then a else b
  }

  function DimensionScores(dimensions: seq<DimensionDefinition>, contributions: seq<Criterion>): (r: seq<DimensionScore>)
    ensures |r| == |dimensions|
  {
    seq(|dimensions|, i requires 0 <= i < |dimensions| =>
      var raw := RawPoints(contributions, dimensions[i].dimension);
      DimensionScore(dimensions[i].dimension, raw, Min(raw, dimensions[i].maxPoints), dimensions[i].maxPoints))
  }

  function Subtotal(scores: seq<DimensionScore>): int {
    if scores == [] then 0 else Subtotal(scores[..|scores| - 1]) + scores[|scores| - 1].points
  }

  // ---------------------------------------------------------------- penalties, decisions, bands

  predicate PenaltyOrder(a: Penalty, b: Penalty) {
    a.code <= b.code
  }

  function MatchedPenalties(penalties: seq<Penalty>, codes: set<SignalCode>): seq<Penalty> {
    Filter(Sorting.Sort(penalties, PenaltyOrder), (p: Penalty) => p.required <= codes)
  }

  function Adjustment(penalties: seq<Penalty>): int {
    if penalties == [] then 0
    else Adjustment(penalties[..|penalties| - 1]) + penalties[|penalties| - 1].adjustment
  }

  function Score(subtotal: int, penalties: seq<Penalty>): int {
    var total := Min(100, subtotal + Adjustment(penalties));
    if total < 0 then 0 else total
  }

  predicate DecisionOrder(a: Decision, b: Decision) {
    a.priority > b.priority || (a.priority == b.priority && a.code <= b.code)
  }

  function MatchedDecisions(decisions: seq<Decision>, codes: set<SignalCode>): seq<Decision> {
    Filter(Sorting.Sort(decisions, DecisionOrder), (d: Decision) => d.required <= codes)
  }

  predicate InBand(b: Band, score: int) {
    b.minimum <= score <= b.maximum
  }

  function Classify(bands: seq<Band>, score: int): Option<Band> {
    if bands == [] then None else if InBand(bands[0], score) then Some(bands[0]) else Classify(bands[1..], score)
  }

  predicate IsHandoffAction(a: Action) {
    a == NotifyAdvisor || a == ImmediateHandoff || a == SpecializedHandoff
  }

  predicate HasEffect(penalties: seq<Penalty>, effect: Effect) {
    exists i :: 0 <= i < |penalties| && penalties[i].effect == effect
  }

  /** The alphabetically first action the penalties recommend. */
  function LeastAction(penalties: seq<Penalty>): Option<Action> {
    if penalties == [] then None
    else
      var rest, last := LeastAction(penalties[..|penalties| - 1]), penalties[|penalties| - 1].action;
      if last.None? then rest
      else if rest.None? || ActionRank(last.value) < ActionRank(rest.value) then last
      else rest
  }

  function FirstAbout(decisions: seq<Decision>, code: SignalCode): Option<Decision> {
    if decisions == [] then None
    else if code in decisions[0].required then Some(decisions[0])
    else FirstAbout(decisions[1..], code)
  }

  function Recommend(fromBand: Action, penalties: seq<Penalty>, decisions: seq<Decision>): (Action, Option<Decision>) {
    if HasEffect(penalties, DoNotContactEffect) then (StopAutomation, FirstAbout(decisions, DoNotContactSignal))
    else if decisions != [] then (decisions[0].action, Some(decisions[0]))
    else if !IsHandoffAction(fromBand) && LeastAction(penalties).Some? then (LeastAction(penalties).value, None)
    else (fromBand, None)
  }

  datatype Reason = RuleReason(text: int) | ScoreReason(classification: Classification)

  datatype HandoffAdvice = HandoffAdvice(required: bool, specialized: bool, reasons: seq<Reason>)

  function HandoffReasons(decisions: seq<Decision>): seq<Reason> {
    if decisions == [] then []
    else
      var last := decisions[|decisions| - 1];
      HandoffReasons(decisions[..|decisions| - 1])
      + (if last.handoffRequired && last.reason.Some? then [RuleReason(last.reason.value)] else [])
  }

  function AdviseHandoff(action: Action, classification: Classification, selected: Option<Decision>, matched: seq<Decision>)
    : HandoffAdvice
  {
    if action == StopAutomation || (selected.Some? && !selected.value.handoffRequired) then HandoffAdvice(false, false, [])
    else
      var reasons := HandoffReasons(matched);
      var required := IsHandoffAction(action) || reasons != [];
      HandoffAdvice(required,
                    if selected.Some? then selected.value.specialized else action == SpecializedHandoff,
                    if required && reasons == [] then [ScoreReason(classification)] else reasons)
  }

  function AdviseState(selected: Option<Decision>, penalties: seq<Penalty>): Option<LeadState> {
    if selected.Some? && selected.value.state.Some? then selected.value.state
    else if HasEffect(penalties, DoNotContactEffect) then Some(LeadDoNotContact)
    else if HasEffect(penalties, Disqualification) then Some(NotEligible)
    else None
  }

  function SignalsUsed(contributions: seq<Criterion>, penalties: seq<Penalty>, decisions: seq<Decision>): set<SignalCode> {
    (set c, s | c in contributions && s in c.required :: s)
    + (set p, s | p in penalties && s in p.required :: s)
    + (set d, s | d in decisions && s in d.required :: s)
  }

  // ---------------------------------------------------------------- the evaluation

  datatype Request = Request(tenant: int, opportunity: int, signals: seq<Signal>)

  // Sorted tuples of a set are given as the set.
  datatype Evaluation = Evaluation(
    score: int, subtotal: int, classification: Classification, dimensions: seq<DimensionScore>,
    contributions: seq<Criterion>, penalties: seq<Penalty>, decisions: seq<Decision>, effects: set<Effect>,
    blockedOffers: set<int>, action: Action, handoff: HandoffAdvice, state: Option<LeadState>,
    signalsUsed: set<SignalCode>)

  datatype Answer = Evaluated(evaluation: Evaluation) | NotPublished | ForeignTenant | WrongOpportunity | NoBand

  function EvaluateCodes(p: Policy, codes: set<SignalCode>): Answer {
    var contributions := Contributions(p.criteria, codes);
    var dimensions := DimensionScores(p.dimensions, contributions);
    var penalties := MatchedPenalties(p.penalties, codes);
    var decisions := MatchedDecisions(p.decisions, codes);
    var score := Score(Subtotal(dimensions), penalties);
    var band := Classify(p.bands, score);
    if band.None? then NoBand
    else
      var (action, selected) := Recommend(band.value.action, penalties, decisions);
      Evaluated(Evaluation(
        score, Subtotal(dimensions), band.value.classification, dimensions, contributions, penalties, decisions,
        set q | q in penalties :: q.effect,
        set q | q in penalties && q.blockedOffer.Some? :: q.blockedOffer.value,
        action, AdviseHandoff(action, band.value.classification, selected, decisions),
        AdviseState(selected, penalties), SignalsUsed(contributions, penalties, decisions)))
  }

  function Evaluate(request: Request, p: Policy): Answer {
    if p.header.status != Published then NotPublished
    else if p.header.tenant != request.tenant then ForeignTenant
    else if p.header.opportunity != request.opportunity then WrongOpportunity
    else EvaluateCodes(p, UsableCodes(request.signals, p.header.minimumConfidence))
  }

  // ---------------------------------------------------------------- the fingerprint

  predicate DimensionOrder(a: DimensionDefinition, b: DimensionDefinition) {
    DimensionRank(a.dimension) <= DimensionRank(b.dimension)
  }

  predicate CodeOrder(a: Criterion, b: Criterion) {
    a.code <= b.code
  }

  predicate DecisionCodeOrder(a: Decision, b: Decision) {
    a.code <= b.code
  }

  /** The canonical data the fingerprint hashes; the hash is taken to be injective. */
  function Canonical(p: Policy): Policy {
    Policy(p.header,
           Sorting.Sort(p.dimensions, DimensionOrder), Sorting.Sort(p.criteria, CodeOrder),
           Sorting.Sort(p.penalties, PenaltyOrder), Sorting.Sort(p.decisions, DecisionCodeOrder),
           Sorting.Sort(p.bands, BandOrder))
  }
}
