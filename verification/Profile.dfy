// The lead profile pipeline in memory: confidence resolution, contradiction
// reconciliation, acceptance and the incremental profile plan.
// Confidences are integers in ten-thousandths, the scale of their database column.
module Profile {
  import opened Wrappers
  import Sorting

  const ONE := 10000

  // Two fields are closed to the AI pipeline; the others differ only by name.
  datatype Field = Coverage | Inventory | Attribute(code: nat)

  // `identity` is the class of the value under Python's ==, `text` its str() form and `kind`
  // its stored type. None determines another: Decimal("1.0") == 1, and 5 and "5" print alike.
  datatype Value = Value(identity: int, text: int, kind: nat)

  datatype ProviderState = Observed | Inferred | Unknown
  datatype Treatment = AutoAccept | Provisional | ConfirmationRequired | Discarded | Contradicted
  datatype ValidationStatus = Hypothesis | Accepted | Confirmed | Rejected

  datatype Fact = Fact(
    field: Field, value: Value, message: Option<nat>, observedAt: int, confidence: int, status: ValidationStatus)

  type Facts = map<Field, Fact>

  // A normalized field of the provider's answer.
  datatype Mention = Mention(
    field: Field, value: Value, state: ProviderState, declared: int, verbatim: bool, message: nat, observedAt: int)

  datatype Resolved = Resolved(mention: Mention, confidence: int, treatment: Treatment)

  datatype ConfidencePolicy = ConfidencePolicy(autoAccept: int, provisional: int, confirmation: int)

  ghost predicate ValidPolicy(policy: ConfidencePolicy) {
    0 <= policy.confirmation <= policy.provisional <= policy.autoAccept <= ONE
  }

  ghost predicate KeyedByField(facts: Facts) {
    forall f :: f in facts ==> facts[f].field == f
  }

  function Lookup(facts: Facts, f: Field): Option<Fact> {
    if f in facts then Some(facts[f]) else None
  }

  // ---------------------------------------------------------------- resolution

  /** How many mentions give this field this printed value. */
  function Support(mentions: seq<Mention>, field: Field, text: int): nat {
    if mentions == [] then 0
    else
      var last := mentions[|mentions| - 1];
      Support(mentions[..|mentions| - 1], field, text)
      + (if last.field == field && last.value.text == text then 1 else 0)
  }

  function Clamp(confidence: int): int {
    if confidence < 0 then 0 else if confidence > ONE then ONE else confidence
  }

  function FieldTreatment(confidence: int, state: ProviderState, policy: ConfidencePolicy): Treatment {
    if confidence >= policy.autoAccept && state == Observed then AutoAccept
    else if confidence >= policy.provisional then Provisional
    else if confidence >= policy.confirmation then ConfirmationRequired
    else Discarded
  }

  /** An inference or an unknown value never reaches the confidence it declared. */
  function ResolveOne(m: Mention, support: nat, policy: ConfidencePolicy): (r: Resolved)
    ensures r.mention == m
    ensures 0 <= r.confidence <= ONE
    ensures r.treatment != Contradicted
    ensures r.treatment == AutoAccept ==> m.state == Observed && r.confidence >= policy.autoAccept
    ensures m.state == Inferred && m.declared <= ONE ==> r.confidence <= 9000
    ensures m.state == Unknown ==> r.confidence <= 4400
    ensures !m.verbatim && support <= 1 && m.declared <= ONE ==> r.confidence <= 8000
  {
    var checked := if m.verbatim then m.declared else m.declared - 2000;
    var weighed := match m.state
      case Observed => checked
      case Inferred => checked - 1500
      case Unknown => if checked < 3900 then checked else 3900;
    var supported := if support > 1 then weighed + 500 else weighed;
    var confidence := Clamp(supported);
    Resolved(m, confidence, FieldTreatment(confidence, m.state, policy))
  }

  /** Every mention resolved by its own evidence and the support of its printed value. */
  function ResolveAll(mentions: seq<Mention>, policy: ConfidencePolicy): (r: seq<Resolved>)
    ensures |r| == |mentions|
    ensures forall i :: 0 <= i < |r| ==>
      r[i] == ResolveOne(mentions[i], Support(mentions, mentions[i].field, mentions[i].value.text), policy)
  {
    seq(|mentions|, i requires 0 <= i < |mentions| =>
      ResolveOne(mentions[i], Support(mentions, mentions[i].field, mentions[i].value.text), policy))
  }

  method ResolveFields(mentions: seq<Mention>, policy: ConfidencePolicy) returns (resolved: seq<Resolved>)
    ensures resolved == ResolveAll(mentions, policy)
  {
    var support: map<(Field, int), nat> := map[];
    for i := 0 to |mentions|
      invariant forall f, t ::
        Support(mentions[..i], f, t) == if (f, t) in support then support[(f, t)] else 0
    {
      var key := (mentions[i].field, mentions[i].value.text);
      assert mentions[..i + 1][..i] == mentions[..i];
      support := support[key := (if key in support then support[key] else 0) + 1];
    }
    assert mentions[..|mentions|] == mentions;
    resolved := [];
    for i := 0 to |mentions|
      invariant |resolved| == i
      invariant forall j :: 0 <= j < i ==>
        resolved[j] == ResolveOne(mentions[j], Support(mentions, mentions[j].field, mentions[j].value.text), policy)
    {
      var key := (mentions[i].field, mentions[i].value.text);
      var count := if key in support then support[key] else 0;
      resolved := resolved + [ResolveOne(mentions[i], count, policy)];
    }
  }

  // ---------------------------------------------------------------- reconciliation

  datatype Contradiction = Contradiction(
    field: Field, previous: Value, next: Value, message: nat, confidence: int, betweenMentions: bool)

  predicate Earlier(a: Resolved, b: Resolved) {
    a.mention.observedAt <= b.mention.observedAt
  }

  /** The candidates of one field, in input order. */
  function Group(resolved: seq<Resolved>, f: Field): seq<Resolved> {
    if resolved == [] then []
    else
      var last := resolved[|resolved| - 1];
      var rest := Group(resolved[..|resolved| - 1], f);
      if last.mention.field == f then rest + [last] else rest
  }

  /** The mentioned fields, each once, in order of first mention. */
  function FieldsInOrder(resolved: seq<Resolved>): seq<Field> {
    if resolved == [] then []
    else
      var last := resolved[|resolved| - 1];
      var rest := FieldsInOrder(resolved[..|resolved| - 1]);
      if last.mention.field in rest then rest else rest + [last.mention.field]
  }

  lemma {:induction false} GroupMembers(resolved: seq<Resolved>, f: Field)
    ensures forall x :: x in Group(resolved, f) <==> x in resolved && x.mention.field == f
  {
    if resolved != [] {
      GroupMembers(resolved[..|resolved| - 1], f);
      assert resolved == resolved[..|resolved| - 1] + [resolved[|resolved| - 1]];
    }
  }

  lemma {:induction false} FieldsInOrderMembers(resolved: seq<Resolved>)
    ensures forall x :: x in resolved ==> x.mention.field in FieldsInOrder(resolved)
    ensures forall f :: f in FieldsInOrder(resolved) ==> Group(resolved, f) != []
    ensures forall i, j :: 0 <= i < j < |FieldsInOrder(resolved)| ==> FieldsInOrder(resolved)[i] != FieldsInOrder(resolved)[j]
  {
    if resolved != [] {
      FieldsInOrderMembers(resolved[..|resolved| - 1]);
      assert resolved == resolved[..|resolved| - 1] + [resolved[|resolved| - 1]];
    }
  }

  /** The slot of the representative with this printed value, or the end. */
  function Slot(acc: seq<Resolved>, text: int): (i: nat)
    ensures i <= |acc|
    ensures i < |acc| ==> acc[i].mention.value.text == text
    ensures forall j :: 0 <= j < i ==> acc[j].mention.value.text != text
  {
    if acc == [] then 0
    else if acc[0].mention.value.text == text then 0
    else 1 + Slot(acc[1..], text)
  }

  /** One dictionary update: an equal or higher confidence replaces the value in its slot. */
  function Upsert(acc: seq<Resolved>, item: Resolved): seq<Resolved> {
    var i := Slot(acc, item.mention.value.text);
    if i == |acc| then acc + [item]
    else if item.confidence >= acc[i].confidence then acc[i := item]
    else acc
  }

  function ByValue(items: seq<Resolved>): seq<Resolved> {
    if items == [] then []
    else Upsert(ByValue(items[..|items| - 1]), items[|items| - 1])
  }

  /** Some representative prints like `y` and is at least as confident. */
  ghost predicate Covers(reps: seq<Resolved>, y: Resolved) {
    exists i :: 0 <= i < |reps| && reps[i].mention.value.text == y.mention.value.text && reps[i].confidence >= y.confidence
  }

  /** One representative per printed value: a most confident mention of it. */
  ghost predicate Represent(reps: seq<Resolved>, items: seq<Resolved>) {
    && (forall x :: x in reps ==> x in items)
    && (forall i, j :: 0 <= i < j < |reps| ==> reps[i].mention.value.text != reps[j].mention.value.text)
    && (forall y :: y in items ==> Covers(reps, y))
  }

  lemma UpsertCovers(acc: seq<Resolved>, item: Resolved, y: Resolved)
    requires y == item || Covers(acc, y)
    ensures Covers(Upsert(acc, item), y)
  {
    var reps := Upsert(acc, item);
    var slot := Slot(acc, item.mention.value.text);
    assert reps[slot].mention.value.text == item.mention.value.text && reps[slot].confidence >= item.confidence;
    if y != item {
      var i :| 0 <= i < |acc| && acc[i].mention.value.text == y.mention.value.text && acc[i].confidence >= y.confidence;
      assert reps[i].mention.value.text == y.mention.value.text && reps[i].confidence >= y.confidence;
    }
  }

  lemma {:induction false} ByValueRepresents(items: seq<Resolved>)
    ensures Represent(ByValue(items), items)
  {
    if items != [] {
      var front, item := items[..|items| - 1], items[|items| - 1];
      ByValueRepresents(front);
      assert items == front + [item];
      forall y | y in items ensures Covers(ByValue(items), y) {
        UpsertCovers(ByValue(front), item, y);
      }
    }
  }

  /** The representatives of a field in time order; the last one is the winner. */
  function Representatives(candidates: seq<Resolved>): (reps: seq<Resolved>)
    requires candidates != []
    ensures reps != []
  {
    RepresentativesCover(candidates);
    Sorting.Sort(ByValue(Sorting.Sort(candidates, Earlier)), Earlier)
  }

  lemma RepresentativesCover(candidates: seq<Resolved>)
    ensures var reps := Sorting.Sort(ByValue(Sorting.Sort(candidates, Earlier)), Earlier);
            && (candidates != [] ==> reps != [])
            && |reps| == |ByValue(Sorting.Sort(candidates, Earlier))|
            && (forall x :: x in reps <==> x in ByValue(Sorting.Sort(candidates, Earlier)))
            && (forall x :: x in reps ==> x in candidates)
  {
    var items := Sorting.Sort(candidates, Earlier);
    Sorting.SortPermutes(candidates, Earlier);
    Sorting.SortPermutes(ByValue(items), Earlier);
    ByValueRepresents(items);
    if candidates != [] {
      assert candidates[0] in items;
    }
  }

  function AsContradicted(r: Resolved): Resolved {
    r.(confidence := if r.confidence < 2500 then 0 else r.confidence - 2500, treatment := Contradicted)
  }

  function ReconcileField(candidates: seq<Resolved>, existing: Option<Fact>): (Resolved, Option<Contradiction>)
    requires candidates != []
  {
    var reps := Representatives(candidates);
    var latest := reps[|reps| - 1];
    if |reps| > 1 then
      var previous := reps[|reps| - 2];
      (AsContradicted(latest),
       Some(Contradiction(latest.mention.field, previous.mention.value, latest.mention.value, latest.mention.message,
                          if previous.confidence < latest.confidence then previous.confidence else latest.confidence,
                          true)))
    else if existing.Some? && existing.value.value.identity != latest.mention.value.identity then
      (AsContradicted(latest),
       Some(Contradiction(existing.value.field, existing.value.value, latest.mention.value, latest.mention.message,
                          latest.confidence, false)))
    else (latest, None)
  }

  /** Two candidates print differently, or the profile already holds an unequal value. */
  ghost predicate Disagrees(candidates: seq<Resolved>, existing: Option<Fact>, winner: Value) {
    || (exists a, b :: a in candidates && b in candidates && a.mention.value.text != b.mention.value.text)
    || (existing.Some? && existing.value.value.identity != winner.identity)
  }

  /** The reconciled item is one of the candidates, and it is marked contradicted exactly on disagreement. */
  lemma ContradictedIffDisagreement(candidates: seq<Resolved>, existing: Option<Fact>)
    requires candidates != []
    requires forall r :: r in candidates ==> r.treatment != Contradicted
    ensures var (item, found) := ReconcileField(candidates, existing);
            && (exists r :: r in candidates && item.mention == r.mention)
            && (item.treatment == Contradicted <==> Disagrees(candidates, existing, item.mention.value))
            && (found.Some? <==> Disagrees(candidates, existing, item.mention.value))
            && (item.treatment != Contradicted ==> item in candidates)
  {
    var reps := Representatives(candidates);
    RepresentativesCover(candidates);
    assert reps[|reps| - 1] in candidates;
    ManyIffPrintsDiffer(candidates);
  }

  /** There are several representatives exactly when two candidates print differently. */
  lemma ManyIffPrintsDiffer(candidates: seq<Resolved>)
    requires candidates != []
    ensures |Representatives(candidates)| > 1 <==>
            exists a, b :: a in candidates && b in candidates && a.mention.value.text != b.mention.value.text
  {
    var sorted := Sorting.Sort(candidates, Earlier);
    var byValue := ByValue(sorted);
    RepresentativesCover(candidates);
    Sorting.SortPermutes(candidates, Earlier);
    ByValueRepresents(sorted);
    if |byValue| > 1 {
      assert byValue[0] in candidates && byValue[1] in candidates;
      assert byValue[0].mention.value.text != byValue[1].mention.value.text;
    } else {
      forall a, b | a in candidates && b in candidates
        ensures a.mention.value.text == b.mention.value.text
      {
        assert a in sorted && b in sorted;
      }
    }
  }

  function OutputsFor(resolved: seq<Resolved>, facts: Facts, fields: seq<Field>): (r: seq<Resolved>)
    requires forall f :: f in fields ==> Group(resolved, f) != []
    ensures |r| == |fields|
    ensures forall i :: 0 <= i < |fields| ==>
      r[i] == ReconcileField(Group(resolved, fields[i]), Lookup(facts, fields[i])).0
  {
    if fields == [] then []
    else
      var n := |fields| - 1;
      OutputsFor(resolved, facts, fields[..n]) + [ReconcileField(Group(resolved, fields[n]), Lookup(facts, fields[n])).0]
  }

  function ContradictionsFor(resolved: seq<Resolved>, facts: Facts, fields: seq<Field>): seq<Contradiction>
    requires forall f :: f in fields ==> Group(resolved, f) != []
  {
    if fields == [] then []
    else
      var n := |fields| - 1;
      var rest := ContradictionsFor(resolved, facts, fields[..n]);
      match ReconcileField(Group(resolved, fields[n]), Lookup(facts, fields[n])).1
      case None => rest
      case Some(found) => rest + [found]
  }

  function Outputs(resolved: seq<Resolved>, facts: Facts): seq<Resolved> {
    FieldsInOrderMembers(resolved);
    OutputsFor(resolved, facts, FieldsInOrder(resolved))
  }

  function Contradictions(resolved: seq<Resolved>, facts: Facts): seq<Contradiction> {
    FieldsInOrderMembers(resolved);
    ContradictionsFor(resolved, facts, FieldsInOrder(resolved))
  }

  method GroupByField(resolved: seq<Resolved>) returns (order: seq<Field>, grouped: map<Field, seq<Resolved>>)
    ensures order == FieldsInOrder(resolved)
    ensures forall f :: f in grouped <==> f in order
    ensures forall f :: f in grouped ==> grouped[f] == Group(resolved, f)
  {
    order, grouped := [], map[];
    for i := 0 to |resolved|
      invariant order == FieldsInOrder(resolved[..i])
      invariant forall f :: f in grouped <==> f in order
      invariant forall f :: Group(resolved[..i], f) == if f in grouped then grouped[f] else []
    {
      var f := resolved[i].mention.field;
      assert resolved[..i + 1][..i] == resolved[..i];
      if f in grouped {
        grouped := grouped[f := grouped[f] + [resolved[i]]];
      } else {
        order := order + [f];
        grouped := grouped[f := [resolved[i]]];
      }
    }
    assert resolved[..|resolved|] == resolved;
  }

  method Reconcile(resolved: seq<Resolved>, facts: Facts)
    returns (output: seq<Resolved>, contradictions: seq<Contradiction>)
    ensures output == Outputs(resolved, facts)
    ensures contradictions == Contradictions(resolved, facts)
  {
    var order, grouped := GroupByField(resolved);
    FieldsInOrderMembers(resolved);
    output, contradictions := [], [];
    for i := 0 to |order|
      invariant output == OutputsFor(resolved, facts, order[..i])
      invariant contradictions == ContradictionsFor(resolved, facts, order[..i])
    {
      assert order[..i + 1][..i] == order[..i];
      var (item, found) := ReconcileField(grouped[order[i]], Lookup(facts, order[i]));
      output := output + [item];
      if found.Some? {
        contradictions := contradictions + [found.value];
      }
    }
    assert order[..|order|] == order;
  }

  ghost predicate DistinctFields(items: seq<Resolved>) {
    forall i, j :: 0 <= i < j < |items| ==> items[i].mention.field != items[j].mention.field
  }

  /** Reconciliation leaves one item per mentioned field, contradicted exactly when its field disagrees. */
  lemma OneOutputPerField(resolved: seq<Resolved>, facts: Facts)
    requires forall r :: r in resolved ==> r.treatment != Contradicted
    ensures DistinctFields(Outputs(resolved, facts))
    ensures forall x :: x in Outputs(resolved, facts) ==> IsOutput(resolved, facts, x)
    ensures forall r :: r in resolved ==>
      exists x :: x in Outputs(resolved, facts) && x.mention.field == r.mention.field
  {
    var fields := FieldsInOrder(resolved);
    var outputs := Outputs(resolved, facts);
    FieldsInOrderMembers(resolved);
    forall i | 0 <= i < |fields| ensures outputs[i].mention.field == fields[i] {
      OutputOfField(resolved, facts, fields[i]);
    }
    forall x | x in outputs ensures IsOutput(resolved, facts, x) {
      var i :| 0 <= i < |outputs| && outputs[i] == x;
      OutputOfField(resolved, facts, fields[i]);
    }
    forall r | r in resolved
      ensures exists x :: x in outputs && x.mention.field == r.mention.field
    {
      var i :| 0 <= i < |fields| && fields[i] == r.mention.field;
      assert outputs[i] in outputs;
    }
  }

  /** The reconciled item of a mentioned field: one of its mentions, contradicted exactly on disagreement. */
  ghost predicate IsOutput(resolved: seq<Resolved>, facts: Facts, x: Resolved) {
    && Group(resolved, x.mention.field) != []
    && x == ReconcileField(Group(resolved, x.mention.field), Lookup(facts, x.mention.field)).0
    && (exists r :: r in resolved && r.mention == x.mention)
    && (x.treatment == Contradicted <==>
        Disagrees(Group(resolved, x.mention.field), Lookup(facts, x.mention.field), x.mention.value))
  }

  lemma OutputOfField(resolved: seq<Resolved>, facts: Facts, f: Field)
    requires Group(resolved, f) != []
    requires forall r :: r in resolved ==> r.treatment != Contradicted
    ensures var x := ReconcileField(Group(resolved, f), Lookup(facts, f)).0;
            x.mention.field == f && IsOutput(resolved, facts, x)
  {
    GroupMembers(resolved, f);
    ContradictedIffDisagreement(Group(resolved, f), Lookup(facts, f));
    var x := ReconcileField(Group(resolved, f), Lookup(facts, f)).0;
    var r :| r in Group(resolved, f) && x.mention == r.mention;
    assert r in resolved;
  }

  // ---------------------------------------------------------------- acceptance

  predicate IsAccepted(r: Resolved) {
    r.treatment == AutoAccept || r.treatment == Provisional
  }

  predicate IsContradicted(r: Resolved) {
    r.treatment == Contradicted
  }

  /** The candidates of the plan: accepted items first, then the contradicted ones. */
  function Candidates(outputs: seq<Resolved>): seq<Resolved> {
    Filter(outputs, IsAccepted) + Filter(outputs, IsContradicted)
  }

  lemma {:induction false} FilterKeepsDistinct(items: seq<Resolved>, p: Resolved -> bool)
    requires DistinctFields(items)
    ensures DistinctFields(Filter(items, p))
  {
    if items != [] {
      var front, last := items[..|items| - 1], items[|items| - 1];
      FilterKeepsDistinct(front, p);
      forall x | x in Filter(front, p) ensures x.mention.field != last.mention.field {
        assert x in front;
      }
    }
  }

  lemma CandidatesAreDistinct(outputs: seq<Resolved>)
    requires DistinctFields(outputs)
    ensures DistinctFields(Candidates(outputs))
    ensures forall x :: x in Candidates(outputs) <==> x in outputs && (IsAccepted(x) || IsContradicted(x))
  {
    var a, b := Filter(outputs, IsAccepted), Filter(outputs, IsContradicted);
    FilterKeepsDistinct(outputs, IsAccepted);
    FilterKeepsDistinct(outputs, IsContradicted);
    forall i, j | 0 <= i < |a| && 0 <= j < |b| ensures a[i].mention.field != b[j].mention.field {
      assert a[i] in outputs && b[j] in outputs;
      assert a[i] != b[j];
    }
  }

  // ---------------------------------------------------------------- the plan

  datatype Action = NewCurrent | ReinforceCurrent | SupersedeCurrent | HistoricalOnly | Duplicate | Forbidden
  datatype Reason = CorrectionApplied | ConfirmedPreserved | HigherConfidenceApplied | ExistingPreserved

  predicate ActionMakesCurrent(action: Action) {
    action == NewCurrent || action == ReinforceCurrent || action == SupersedeCurrent
  }

  datatype Decision = Decision(candidate: Fact, action: Action, previous: Option<Fact>, reason: Option<Reason>) {
    predicate MakesCurrent() {
      ActionMakesCurrent(action)
    }

    predicate CreatesConflict() {
      reason.Some? && previous.Some?
    }
  }

  predicate IsForbidden(f: Field) {
    f == Coverage || f == Inventory
  }

  function ToFact(item: Resolved, corrected: bool): Fact {
    var status :=
      if corrected || item.treatment == AutoAccept then Accepted
      else if item.treatment == Provisional then Hypothesis
      else Rejected;
    Fact(item.mention.field, item.mention.value, Some(item.mention.message), item.mention.observedAt,
         item.confidence, status)
  }

  function Decide(existing: Option<Fact>, item: Resolved, correction: bool): Decision {
    var candidate := ToFact(item, false);
    if IsForbidden(candidate.field) then Decision(candidate, Forbidden, existing, None)
    else if existing.None? then
      if IsAccepted(item) then Decision(candidate, NewCurrent, None, None)
      else Decision(candidate, HistoricalOnly, None, None)
    else
      var held := existing.value;
      var same := held.value.identity == candidate.value.identity;
      if held.message == candidate.message && same then Decision(candidate, Duplicate, existing, None)
      else if same then
        var stronger := candidate.confidence > held.confidence
                        || (held.status == Hypothesis && candidate.status == Accepted);
        Decision(candidate, if stronger then ReinforceCurrent else HistoricalOnly, existing, None)
      else if correction && item.mention.state == Observed && held.status != Confirmed then
        Decision(ToFact(item, true), SupersedeCurrent, existing, Some(CorrectionApplied))
      else if held.status == Confirmed then
        Decision(candidate, HistoricalOnly, existing, Some(ConfirmedPreserved))
      else if candidate.confidence > held.confidence && item.mention.state == Observed && candidate.status == Accepted then
        Decision(candidate, SupersedeCurrent, existing, Some(HigherConfidenceApplied))
      else
        Decision(candidate, HistoricalOnly, existing, Some(ExistingPreserved))
  }

  function Decisions(facts: Facts, candidates: seq<Resolved>, correction: bool): (r: seq<Decision>)
    ensures |r| == |candidates|
    ensures forall i :: 0 <= i < |r| ==>
      r[i] == Decide(Lookup(facts, candidates[i].mention.field), candidates[i], correction)
  {
    seq(|candidates|, i requires 0 <= i < |candidates| =>
      Decide(Lookup(facts, candidates[i].mention.field), candidates[i], correction))
  }

  function UpdatedFacts(facts: Facts, decisions: seq<Decision>): Facts {
    if decisions == [] then facts
    else
      var before := UpdatedFacts(facts, decisions[..|decisions| - 1]);
      var last := decisions[|decisions| - 1];
      if last.MakesCurrent() then before[last.candidate.field := last.candidate] else before
  }

  datatype FactConflict = FactConflict(previous: Fact, current: Fact, reason: Reason)

  function AddedConflicts(decisions: seq<Decision>): seq<FactConflict> {
    if decisions == [] then []
    else
      var before := AddedConflicts(decisions[..|decisions| - 1]);
      var last := decisions[|decisions| - 1];
      if last.CreatesConflict()
      then before + [FactConflict(last.previous.value, last.candidate, last.reason.value)]
      else before
  }

  method Plan(facts: Facts, conflicts: seq<FactConflict>, outputs: seq<Resolved>, correction: bool)
    returns (decisions: seq<Decision>, updated: Facts, allConflicts: seq<FactConflict>)
    ensures decisions == Decisions(facts, Candidates(outputs), correction)
    ensures updated == UpdatedFacts(facts, decisions)
    ensures allConflicts == conflicts + AddedConflicts(decisions)
  {
    decisions := Decisions(facts, Candidates(outputs), correction);
    updated, allConflicts := facts, conflicts;
    for i := 0 to |decisions|
      invariant updated == UpdatedFacts(facts, decisions[..i])
      invariant allConflicts == conflicts + AddedConflicts(decisions[..i])
    {
      assert decisions[..i + 1][..i] == decisions[..i];
      var decision := decisions[i];
      if decision.MakesCurrent() {
        updated := updated[decision.candidate.field := decision.candidate];
      }
      if decision.CreatesConflict() {
        allConflicts := allConflicts + [FactConflict(decision.previous.value, decision.candidate, decision.reason.value)];
      }
    }
    assert decisions[..|decisions|] == decisions;
  }

  /** The facts after the whole pipeline ran against one profile. */
  function PipelineFacts(facts: Facts, resolved: seq<Resolved>, correction: bool): Facts {
    UpdatedFacts(facts, Decisions(facts, Candidates(Outputs(resolved, facts)), correction))
  }
}
