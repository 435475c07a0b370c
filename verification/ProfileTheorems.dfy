// What the profile pipeline may and may not do to a current value.
module ProfileTheorems {
  import opened Wrappers
  import opened Profile

  /** Only the resolver feeds the reconciler, and it never marks an item contradicted. */
  ghost predicate FromResolver(resolved: seq<Resolved>) {
    forall r :: r in resolved ==> r.treatment != Contradicted
  }

  ghost predicate DistinctDecisions(decisions: seq<Decision>) {
    forall i, j :: 0 <= i < j < |decisions| ==> decisions[i].candidate.field != decisions[j].candidate.field
  }

  /** The item reconciliation keeps for a mentioned field. */
  function Winner(resolved: seq<Resolved>, facts: Facts, f: Field): Resolved
    requires Group(resolved, f) != []
  {
    ReconcileField(Group(resolved, f), Lookup(facts, f)).0
  }

  lemma {:induction false} FieldUntouched(facts: Facts, decisions: seq<Decision>, f: Field)
    requires forall i :: 0 <= i < |decisions| ==> decisions[i].candidate.field != f
    ensures Lookup(UpdatedFacts(facts, decisions), f) == Lookup(facts, f)
  {
    if decisions != [] {
      FieldUntouched(facts, decisions[..|decisions| - 1], f);
    }
  }

  lemma {:induction false} FieldSettledBy(facts: Facts, decisions: seq<Decision>, f: Field, k: nat)
    requires DistinctDecisions(decisions) && k < |decisions| && decisions[k].candidate.field == f
    ensures Lookup(UpdatedFacts(facts, decisions), f)
            == if decisions[k].MakesCurrent() then Some(decisions[k].candidate) else Lookup(facts, f)
  {
    var front := decisions[..|decisions| - 1];
    if k < |front| {
      FieldSettledBy(facts, front, f, k);
    } else {
      FieldUntouched(facts, front, f);
    }
  }

  /** With one decision per field, each field is settled by its own decision alone. */
  lemma EachFieldSettledOnce(facts: Facts, decisions: seq<Decision>, f: Field)
    requires DistinctDecisions(decisions)
    ensures forall d :: d in decisions && d.candidate.field == f ==>
      Lookup(UpdatedFacts(facts, decisions), f) == if d.MakesCurrent() then Some(d.candidate) else Lookup(facts, f)
    ensures (forall d :: d in decisions ==> d.candidate.field != f) ==>
      Lookup(UpdatedFacts(facts, decisions), f) == Lookup(facts, f)
  {
    forall d | d in decisions && d.candidate.field == f
      ensures Lookup(UpdatedFacts(facts, decisions), f) == if d.MakesCurrent() then Some(d.candidate) else Lookup(facts, f)
    {
      var k :| 0 <= k < |decisions| && decisions[k] == d;
      FieldSettledBy(facts, decisions, f, k);
    }
    if forall d :: d in decisions ==> d.candidate.field != f {
      FieldUntouched(facts, decisions, f);
    }
  }

  lemma DecisionKeepsField(existing: Option<Fact>, item: Resolved, correction: bool)
    ensures Decide(existing, item, correction).candidate.field == item.mention.field
  {
  }

  /** A field with one candidate is settled by the decision on it; a field without one stays. */
  lemma CandidateSettlesField(planned: Facts, candidates: seq<Resolved>, correction: bool, f: Field)
    requires DistinctFields(candidates)
    ensures forall x :: x in candidates && x.mention.field == f ==>
      var d := Decide(Lookup(planned, f), x, correction);
      Lookup(UpdatedFacts(planned, Decisions(planned, candidates, correction)), f)
      == if d.MakesCurrent() then Some(d.candidate) else Lookup(planned, f)
    ensures (forall x :: x in candidates ==> x.mention.field != f) ==>
      Lookup(UpdatedFacts(planned, Decisions(planned, candidates, correction)), f) == Lookup(planned, f)
  {
    var decisions := Decisions(planned, candidates, correction);
    forall i | 0 <= i < |candidates| ensures decisions[i].candidate.field == candidates[i].mention.field {
      DecisionKeepsField(Lookup(planned, candidates[i].mention.field), candidates[i], correction);
    }
    EachFieldSettledOnce(planned, decisions, f);
    forall x | x in candidates && x.mention.field == f
      ensures Decide(Lookup(planned, f), x, correction) in decisions
    {
      var i :| 0 <= i < |candidates| && candidates[i] == x;
      assert decisions[i] in decisions;
    }
  }

  /** Reconciliation keeps exactly the winner of each mentioned field. */
  lemma OutputsAreWinners(resolved: seq<Resolved>, seen: Facts, f: Field)
    requires FromResolver(resolved)
    ensures Group(resolved, f) == [] ==> forall x :: x in Outputs(resolved, seen) ==> x.mention.field != f
    ensures Group(resolved, f) != [] ==>
      var w := Winner(resolved, seen, f);
      && w in Outputs(resolved, seen)
      && w.mention.field == f
      && (exists r :: r in resolved && r.mention == w.mention)
      && (w.treatment == Contradicted <==> Disagrees(Group(resolved, f), Lookup(seen, f), w.mention.value))
      && forall x :: x in Outputs(resolved, seen) && x.mention.field == f ==> x == w
  {
    OneOutputPerField(resolved, seen);
    GroupMembers(resolved, f);
    if Group(resolved, f) != [] {
      var first := Group(resolved, f)[0];
      assert first in Group(resolved, f);
      var x :| x in Outputs(resolved, seen) && x.mention.field == first.mention.field;
    }
  }

  /** The pipeline settles a field by the decision on its winner; an unmentioned field stays. */
  lemma FieldFollowsWinner(planned: Facts, seen: Facts, resolved: seq<Resolved>, correction: bool, f: Field)
    requires FromResolver(resolved)
    ensures var after := UpdatedFacts(planned, Decisions(planned, Candidates(Outputs(resolved, seen)), correction));
            if Group(resolved, f) == [] then Lookup(after, f) == Lookup(planned, f)
            else
              var w := Winner(resolved, seen, f);
              var d := Decide(Lookup(planned, f), w, correction);
              Lookup(after, f) ==
                if (IsAccepted(w) || IsContradicted(w)) && d.MakesCurrent() then Some(d.candidate) else Lookup(planned, f)
  {
    var outputs := Outputs(resolved, seen);
    OneOutputPerField(resolved, seen);
    CandidatesAreDistinct(outputs);
    CandidateSettlesField(planned, Candidates(outputs), correction, f);
    OutputsAreWinners(resolved, seen, f);
  }

  /** A contradicted candidate replaces an unequal value exactly as an observed correction of an unconfirmed one. */
  lemma DecideOnUnequal(held: Fact, item: Resolved, correction: bool)
    requires held.value.identity != item.mention.value.identity && item.treatment == Contradicted
    ensures var d := Decide(Some(held), item, correction);
            && (d.MakesCurrent() <==>
                correction && !IsForbidden(item.mention.field) && held.status != Confirmed && item.mention.state == Observed)
            && (d.MakesCurrent() ==> d.candidate.value == item.mention.value && d.candidate.status == Accepted)
            && d.reason != Some(HigherConfidenceApplied)
  {
  }

  lemma DecideOnEqual(held: Fact, item: Resolved, correction: bool)
    requires held.value.identity == item.mention.value.identity
    ensures var d := Decide(Some(held), item, correction);
            d.candidate.value == item.mention.value && d.reason == None
  {
  }

  /** What must hold, before the plan, for a current value to be replaced by another one. */
  ghost predicate CorrectionApplies(facts: Facts, resolved: seq<Resolved>, correction: bool, f: Field)
    requires f in facts
  {
    && correction
    && !IsForbidden(f)
    && facts[f].status != Confirmed
    && Group(resolved, f) != []
    && var w := Winner(resolved, facts, f);
       w.mention.state == Observed && w.mention.value.identity != facts[f].value.identity
  }

  /** A current value changes exactly when the customer corrects an unconfirmed value with an observed one. */
  lemma ValueChangesIffCorrected(facts: Facts, resolved: seq<Resolved>, correction: bool, f: Field)
    requires FromResolver(resolved) && KeyedByField(facts) && f in facts
    ensures f in PipelineFacts(facts, resolved, correction)
    ensures PipelineFacts(facts, resolved, correction)[f].value.identity != facts[f].value.identity
            <==> CorrectionApplies(facts, resolved, correction, f)
    ensures CorrectionApplies(facts, resolved, correction, f) ==>
      && PipelineFacts(facts, resolved, correction)[f].status == Accepted
      && PipelineFacts(facts, resolved, correction)[f].value == Winner(resolved, facts, f).mention.value
      && exists r :: r in resolved && r.mention == Winner(resolved, facts, f).mention
  {
    FieldFollowsWinner(facts, facts, resolved, correction, f);
    OutputsAreWinners(resolved, facts, f);
    if Group(resolved, f) != [] {
      var w := Winner(resolved, facts, f);
      if w.mention.value.identity != facts[f].value.identity {
        DecideOnUnequal(facts[f], w, correction);
      } else {
        DecideOnEqual(facts[f], w, correction);
      }
    }
  }

  lemma DecideOnAbsent(item: Resolved, correction: bool)
    ensures Decide(None, item, correction).MakesCurrent() <==> !IsForbidden(item.mention.field) && IsAccepted(item)
  {
  }

  /** A field enters the profile exactly when its winner is accepted and the field is open to the AI. */
  lemma FieldAppearsIffAccepted(facts: Facts, resolved: seq<Resolved>, correction: bool, f: Field)
    requires FromResolver(resolved) && f !in facts
    ensures f in PipelineFacts(facts, resolved, correction)
            <==> !IsForbidden(f) && Group(resolved, f) != [] && IsAccepted(Winner(resolved, facts, f))
    ensures f in PipelineFacts(facts, resolved, correction) ==>
      !Disagrees(Group(resolved, f), None, Winner(resolved, facts, f).mention.value)
  {
    FieldFollowsWinner(facts, facts, resolved, correction, f);
    OutputsAreWinners(resolved, facts, f);
    if Group(resolved, f) != [] {
      DecideOnAbsent(Winner(resolved, facts, f), correction);
    }
  }

  /** The "higher confidence" branch of the plan never fires: a differing candidate arrives contradicted. */
  lemma HigherConfidenceNeverFires(facts: Facts, resolved: seq<Resolved>, correction: bool)
    requires FromResolver(resolved)
    ensures forall d :: d in Decisions(facts, Candidates(Outputs(resolved, facts)), correction) ==>
      d.reason != Some(HigherConfidenceApplied)
  {
    var outputs := Outputs(resolved, facts);
    var candidates := Candidates(outputs);
    OneOutputPerField(resolved, facts);
    CandidatesAreDistinct(outputs);
    forall i | 0 <= i < |candidates|
      ensures Decide(Lookup(facts, candidates[i].mention.field), candidates[i], correction).reason
              != Some(HigherConfidenceApplied)
    {
      var w := candidates[i];
      assert w in outputs;
      if w.mention.field in facts {
        if w.mention.value.identity != facts[w.mention.field].value.identity {
          DecideOnUnequal(facts[w.mention.field], w, correction);
        } else {
          DecideOnEqual(facts[w.mention.field], w, correction);
        }
      }
    }
  }

  lemma SingleMention(r: Resolved, existing: Option<Fact>)
    requires r.treatment != Contradicted
    requires existing.Some? ==> existing.value.value.identity == r.mention.value.identity
    ensures Group([r], r.mention.field) == [r]
    ensures ReconcileField([r], existing).0 == r
  {
    assert [r][..0] == [];
    ContradictedIffDisagreement([r], existing);
  }

  lemma DecideOnSurer(held: Fact, item: Resolved)
    requires !IsForbidden(item.mention.field) && held.value.identity != item.mention.value.identity
    requires held.status != Confirmed && held.confidence < item.confidence
    requires item.treatment == AutoAccept && item.mention.state == Observed
    ensures var d := Decide(Some(held), item, false);
            d.MakesCurrent() && d.candidate == ToFact(item, false) && d.reason == Some(HigherConfidenceApplied)
  {
  }

  /** Without the version check the branch does fire: an item reconciled against a profile that lacked
      the field overwrites a less confident value recorded since, with no correction in the message. */
  lemma StaleProfileOverwrites(planned: Facts, seen: Facts, resolved: seq<Resolved>, r: Resolved)
    requires resolved == [r]
    requires r.mention.field in planned && r.mention.field !in seen && !IsForbidden(r.mention.field)
    requires r.treatment == AutoAccept && r.mention.state == Observed
    requires planned[r.mention.field].value.identity != r.mention.value.identity
    requires planned[r.mention.field].status != Confirmed && planned[r.mention.field].confidence < r.confidence
    ensures Lookup(UpdatedFacts(planned, Decisions(planned, Candidates(Outputs(resolved, seen)), false)), r.mention.field)
            == Some(ToFact(r, false))
  {
    var f := r.mention.field;
    assert Group(resolved, f) != [] && Winner(resolved, seen, f) == r by {
      SingleMention(r, None);
    }
    assert FromResolver(resolved);
    FieldFollowsWinner(planned, seen, resolved, false, f);
    DecideOnSurer(planned[f], r);
  }

  /** The branch that replaces a confirmed fact by an unconfirmed one of equal value. */
  ghost predicate ReinforcementReplaces(facts: Facts, resolved: seq<Resolved>, f: Field)
    requires f in facts
  {
    && !IsForbidden(f)
    && Group(resolved, f) != []
    && var w := Winner(resolved, facts, f);
       && (IsAccepted(w) || IsContradicted(w))
       && w.mention.value.identity == facts[f].value.identity
       && facts[f].message != Some(w.mention.message)
       && w.confidence > facts[f].confidence
  }

  lemma DecideOnConfirmed(held: Fact, item: Resolved, correction: bool)
    requires held.status == Confirmed
    ensures var d := Decide(Some(held), item, correction);
            && (d.MakesCurrent() <==>
                !IsForbidden(item.mention.field) && item.mention.value.identity == held.value.identity
                && held.message != Some(item.mention.message) && item.confidence > held.confidence)
            && d.candidate.value == item.mention.value && d.candidate.status != Confirmed
  {
  }

  /** A confirmed value never changes; its confirmed status is lost exactly to a more confident repetition. */
  lemma ConfirmedKeepsValueAndLosesStatusIff(facts: Facts, resolved: seq<Resolved>, correction: bool, f: Field)
    requires FromResolver(resolved) && KeyedByField(facts) && f in facts && facts[f].status == Confirmed
    ensures f in PipelineFacts(facts, resolved, correction)
    ensures PipelineFacts(facts, resolved, correction)[f].value.identity == facts[f].value.identity
    ensures PipelineFacts(facts, resolved, correction)[f].status != Confirmed
            <==> ReinforcementReplaces(facts, resolved, f)
  {
    FieldFollowsWinner(facts, facts, resolved, correction, f);
    if Group(resolved, f) != [] {
      OutputsAreWinners(resolved, facts, f);
      DecideOnConfirmed(facts[f], Winner(resolved, facts, f), correction);
    }
  }

  lemma RepetitionReplaces(facts: Facts, r: Resolved)
    requires r.mention.field in facts && !IsForbidden(r.mention.field) && IsAccepted(r)
    requires r.mention.value.identity == facts[r.mention.field].value.identity
    requires facts[r.mention.field].message != Some(r.mention.message) && r.confidence > facts[r.mention.field].confidence
    ensures ReinforcementReplaces(facts, [r], r.mention.field)
  {
    SingleMention(r, Some(facts[r.mention.field]));
  }

  lemma LosesStatus(facts: Facts, resolved: seq<Resolved>, f: Field)
    requires FromResolver(resolved) && KeyedByField(facts) && f in facts && facts[f].status == Confirmed
    requires ReinforcementReplaces(facts, resolved, f)
    ensures exists p: Facts, r, g ::
      && FromResolver(r) && KeyedByField(p) && g in p && p[g].status == Confirmed
      && g in PipelineFacts(p, r, false) && PipelineFacts(p, r, false)[g].status != Confirmed
  {
    ConfirmedKeepsValueAndLosesStatusIff(facts, resolved, false, f);
  }

  /** A repetition of a confirmed value can cost it the confirmed status. */
  lemma ConfirmedStatusCanBeLost()
    ensures exists facts: Facts, resolved, f ::
      && FromResolver(resolved) && KeyedByField(facts) && f in facts && facts[f].status == Confirmed
      && f in PipelineFacts(facts, resolved, false)
      && PipelineFacts(facts, resolved, false)[f].status != Confirmed
  {
    var f := Attribute(0);
    var facts: Facts := map[f := Fact(f, Value(1, 1, 0), Some(1), 0, 5000, Confirmed)];
    var r := Resolved(Mention(f, Value(1, 1, 0), Observed, 9000, true, 2, 5), 9000, AutoAccept);
    assert FromResolver([r]) && KeyedByField(facts);
    RepetitionReplaces(facts, r);
    LosesStatus(facts, [r], f);
  }

  // ---------------------------------------------------------------- the opportunity

  /** An opportunity type; 0 stands for the unidentified one. */
  datatype Opportunity = Opportunity(primary: nat, secondary: seq<nat>)

  const UNIDENTIFIED: nat := 0

  predicate Unique(s: seq<nat>) {
    forall i, j :: 0 <= i < j < |s| ==> s[i] != s[j]
  }

  predicate ValidOpportunity(o: Opportunity) {
    o.primary !in o.secondary && Unique(o.secondary)
  }

  /** The members of `s` other than `excluded`, each once, in first-seen order. */
  function Deduplicate(s: seq<nat>, excluded: nat, withExclusion: bool): (r: seq<nat>)
    ensures Unique(r)
    ensures forall x :: x in r <==> x in s && !(withExclusion && x == excluded)
  {
    if s == [] then []
    else
      var rest := Deduplicate(s[..|s| - 1], excluded, withExclusion);
      var last := s[|s| - 1];
      assert s == s[..|s| - 1] + [last];
      if last in rest || (withExclusion && last == excluded) then rest else rest + [last]
  }

  function MergedOpportunity(current: Opportunity, proposed: Opportunity): Opportunity {
    if proposed.primary == UNIDENTIFIED then current
    else if current.primary == UNIDENTIFIED then proposed
    else if proposed.primary == current.primary then
      Opportunity(current.primary, Deduplicate(current.secondary + proposed.secondary, 0, false))
    else
      Opportunity(current.primary,
                  Deduplicate(current.secondary + [proposed.primary] + proposed.secondary, current.primary, true))
  }

  /** Once identified, a primary opportunity never changes, and no identified opportunity is forgotten. */
  lemma PrimaryIsSticky(current: Opportunity, proposed: Opportunity)
    requires ValidOpportunity(current) && ValidOpportunity(proposed)
    ensures ValidOpportunity(MergedOpportunity(current, proposed))
    ensures current.primary != UNIDENTIFIED ==> MergedOpportunity(current, proposed).primary == current.primary
    ensures current.primary == UNIDENTIFIED ==> MergedOpportunity(current, proposed).primary == proposed.primary
    ensures current.primary != UNIDENTIFIED ==>
      forall x :: x in current.secondary ==> x in MergedOpportunity(current, proposed).secondary
    ensures current.primary != UNIDENTIFIED && proposed.primary != UNIDENTIFIED ==>
      forall x :: x in [proposed.primary] + proposed.secondary && x != current.primary ==>
        x in MergedOpportunity(current, proposed).secondary
  {
  }
}
