// The profile and the opportunity of a lead over whole runs: the version check lets a commit plan only against
// the facts its extraction was reconciled with, and the stored evaluation lags one commit behind.
module ProtocolProfile {
  import opened Wrappers
  import opened Protocol
  import opened ProtocolLeases
  import opened ProtocolFencing
  import opened ProtocolEffects
  import opened ProtocolCounting
  import Profile
  import Theorems = ProfileTheorems

  // ---------------------------------------------------------------- contexts

  /** A context of the lead's present version holds the lead's present facts. */
  ghost predicate ContextFits(lead: Lead, context: Context) {
    context.leadVersion <= lead.version && (context.leadVersion == lead.version ==> context.facts == lead.facts)
  }

  ghost predicate ContextKnown(s: System, t: Id)
    requires t in s.workers
  {
    s.workers[t].phase.ReadyToFinalize? ==>
      var c := s.workers[t].claim.conversation;
      && c in s.db.conversations && s.db.conversations[c].lead in s.db.leads
      && ContextFits(s.db.leads[s.db.conversations[c].lead], s.workers[t].phase.context)
  }

  ghost predicate ContextsKnown(s: System) {
    forall t :: t in s.workers ==> ContextKnown(s, t)
  }

  ghost predicate FactsKeyed(db: Db) {
    forall l :: l in db.leads ==> Profile.KeyedByField(db.leads[l].facts)
  }

  lemma {:induction false} UpdatingKeepsKeys(facts: Profile.Facts, decisions: seq<Profile.Decision>)
    requires Profile.KeyedByField(facts)
    ensures Profile.KeyedByField(Profile.UpdatedFacts(facts, decisions))
  {
    if decisions != [] {
      UpdatingKeepsKeys(facts, decisions[..|decisions| - 1]);
    }
  }

  /** No step but the worker's own gives it a context. */
  ghost predicate NoNewContext(s: System, t: System) {
    forall k :: k in t.workers && t.workers[k].phase.ReadyToFinalize? ==> k in s.workers && t.workers[k] == s.workers[k]
  }

  lemma OnlyPrepareGivesContext(s: System, step: Step, config: Config)
    ensures var t := Next(s, step, config);
            || NoNewContext(s, t)
            || (step.PrepareStep? && step.token in s.workers && Prepare(s.db, s.workers[step.token].claim).Ready?
                && t == SetPhase(s, step.token, ReadyToFinalize(Prepare(s.db, s.workers[step.token].claim).context)))
  {
  }

  /** What a step does to the leads the contexts were read from. */
  ghost predicate LeadAdvances(a: Db, b: Db) {
    && (forall l :: l in a.leads ==> l in b.leads)
    && (forall l :: l in a.leads ==>
          b.leads[l].version > a.leads[l].version
          || (b.leads[l].version == a.leads[l].version && b.leads[l].facts == a.leads[l].facts))
    && (forall c :: c in a.conversations ==> c in b.conversations && b.conversations[c].lead == a.conversations[c].lead)
  }

  lemma LeadsAdvance(s: System, step: Step, config: Config)
    requires Refs(s.db)
    ensures LeadAdvances(s.db, Next(s, step, config).db)
  {
    var t := Next(s, step, config);
    NextEffects(s, step, config);
    if AppliesExtraction(s, step, t) {
      var w := s.workers[step.token];
      var l := s.db.conversations[w.claim.conversation].lead;
      var after := WithEffects(s.db, w.claim, step.ext, PlanCommit(s.db, w.claim, w.phase.context, step.ext, step.verdict));
      assert after.leads == s.db.leads[l := after.leads[l]] && after.leads[l].version == s.db.leads[l].version + 1;
    }
  }

  lemma ContextsAdvance(s: System, t: System)
    requires ContextsKnown(s) && NoNewContext(s, t) && LeadAdvances(s.db, t.db)
    ensures ContextsKnown(t)
  {
    forall k | k in t.workers ensures ContextKnown(t, k) {
      if t.workers[k].phase.ReadyToFinalize? {
        assert ContextKnown(s, k);
      }
    }
  }

  lemma PreparedContextFits(s: System, token: Id, t: System)
    requires ContextsKnown(s) && token in s.workers && Prepare(s.db, s.workers[token].claim).Ready?
    requires t == SetPhase(s, token, ReadyToFinalize(Prepare(s.db, s.workers[token].claim).context))
    ensures ContextsKnown(t)
  {
    forall k | k in t.workers ensures ContextKnown(t, k) {
      if k != token {
        assert ContextKnown(s, k);
      }
    }
  }

  lemma NextKeepsContexts(s: System, step: Step, config: Config)
    requires Refs(s.db) && ContextsKnown(s)
    ensures ContextsKnown(Next(s, step, config))
  {
    var t := Next(s, step, config);
    OnlyPrepareGivesContext(s, step, config);
    if NoNewContext(s, t) {
      LeadsAdvance(s, step, config);
      ContextsAdvance(s, t);
    } else {
      PreparedContextFits(s, step.token, t);
    }
  }

  lemma NextKeepsKeys(s: System, step: Step, config: Config)
    requires Refs(s.db) && FactsKeyed(s.db)
    ensures FactsKeyed(Next(s, step, config).db)
  {
    var t := Next(s, step, config);
    NextEffects(s, step, config);
    if AppliesExtraction(s, step, t) {
      var w := s.workers[step.token];
      var l := s.db.conversations[w.claim.conversation].lead;
      var plan := PlanCommit(s.db, w.claim, w.phase.context, step.ext, step.verdict);
      UpdatingKeepsKeys(s.db.leads[l].facts, plan.decisions);
      assert t.db.leads == s.db.leads[l := t.db.leads[l]];
    }
  }

  lemma {:induction false} RunsKnowTheirContexts(steps: seq<Step>, config: Config)
    ensures ContextsKnown(Run(steps, config)) && FactsKeyed(Run(steps, config).db)
  {
    if steps != [] {
      var front := steps[..|steps| - 1];
      RunsKnowTheirContexts(front, config);
      RunsHaveRefs(front, config);
      NextKeepsContexts(Run(front, config), steps[|steps| - 1], config);
      NextKeepsKeys(Run(front, config), steps[|steps| - 1], config);
    }
  }

  // ---------------------------------------------------------------- current values

  /** The step applies an extraction to the lead. */
  ghost predicate AppliesToLead(s: System, step: Step, config: Config, l: Id) {
    && AppliesExtraction(s, step, Next(s, step, config))
    && s.db.conversations[s.workers[step.token].claim.conversation].lead == l
  }

  /** A commit plans against the facts its extraction was reconciled with. */
  lemma CommitRunsThePipeline(s: System, step: Step, config: Config, l: Id)
    requires ContextsKnown(s) && AppliesToLead(s, step, config, l)
    ensures l in s.db.leads && l in Next(s, step, config).db.leads
    ensures Next(s, step, config).db.leads[l].facts ==
            Profile.PipelineFacts(s.db.leads[l].facts, step.ext.resolved,
                                  s.db.messages[s.workers[step.token].claim.message].correctionText)
  {
    assert ContextKnown(s, step.token);
  }

  lemma OtherLeadsKeepFacts(s: System, step: Step, config: Config, l: Id)
    requires Refs(s.db) && l in s.db.leads && !AppliesToLead(s, step, config, l)
    ensures l in Next(s, step, config).db.leads && Next(s, step, config).db.leads[l].facts == s.db.leads[l].facts
  {
    var t := Next(s, step, config);
    NextEffects(s, step, config);
    if AppliesExtraction(s, step, t) {
      var own := s.db.conversations[s.workers[step.token].claim.conversation].lead;
      assert t.db.leads == s.db.leads[own := t.db.leads[own]];
    }
  }

  /** In every reachable state, a step changes a current profile value exactly when it applies an extraction whose
      claimed message matches the correction pattern, whose winner for the field was observed with another value,
      and the value on record is neither confirmed nor closed to the AI. */
  lemma ValueChangesOnlyByCorrection(steps: seq<Step>, step: Step, config: Config, l: Id, f: Profile.Field)
    requires l in Run(steps, config).db.leads && f in Run(steps, config).db.leads[l].facts
    ensures var s, t := Run(steps, config), Next(Run(steps, config), step, config);
            && l in t.db.leads && f in t.db.leads[l].facts
            && (t.db.leads[l].facts[f].value.identity != s.db.leads[l].facts[f].value.identity <==>
                  && AppliesToLead(s, step, config, l)
                  && Theorems.CorrectionApplies(s.db.leads[l].facts, step.ext.resolved,
                                                s.db.messages[s.workers[step.token].claim.message].correctionText, f))
  {
    RunsKnowTheirContexts(steps, config);
    RunsHaveRefs(steps, config);
    ChangesOnlyByCorrection(Run(steps, config), step, config, l, f);
  }

  lemma ChangesOnlyByCorrection(s: System, step: Step, config: Config, l: Id, f: Profile.Field)
    requires Refs(s.db) && ContextsKnown(s) && FactsKeyed(s.db) && l in s.db.leads && f in s.db.leads[l].facts
    ensures var t := Next(s, step, config);
            && l in t.db.leads && f in t.db.leads[l].facts
            && (t.db.leads[l].facts[f].value.identity != s.db.leads[l].facts[f].value.identity <==>
                  && AppliesToLead(s, step, config, l)
                  && Theorems.CorrectionApplies(s.db.leads[l].facts, step.ext.resolved,
                                                s.db.messages[s.workers[step.token].claim.message].correctionText, f))
  {
    if AppliesToLead(s, step, config, l) {
      CommitRunsThePipeline(s, step, config, l);
      Theorems.ValueChangesIffCorrected(s.db.leads[l].facts, step.ext.resolved,
                                        s.db.messages[s.workers[step.token].claim.message].correctionText, f);
    } else {
      OtherLeadsKeepFacts(s, step, config, l);
    }
  }

  predicate OfLead(db: Db, conversation: Id, l: Id) {
    conversation in db.conversations && db.conversations[conversation].lead == l
  }

  /** No message of the lead's conversation matches the correction pattern. */
  ghost predicate NeverCorrected(db: Db, l: Id) {
    forall m :: m in db.messages && m in db.rows && OfLead(db, db.rows[m].conversation, l) ==> !db.messages[m].correctionText
  }

  ghost predicate KeepsMessages(a: Db, b: Db) {
    && (forall m :: m in a.messages && m in a.rows ==>
          && m in b.messages && b.messages[m].correctionText == a.messages[m].correctionText
          && m in b.rows && b.rows[m].conversation == a.rows[m].conversation)
    && (forall c :: c in a.conversations ==> c in b.conversations && b.conversations[c].lead == a.conversations[c].lead)
  }

  lemma CommitKeepsMessages(s: System, t: System, token: Id, status: Status, effect: Effect)
    requires RowRefs(s.db) && IsCommit(s, t, token, status, effect)
    ensures KeepsMessages(s.db, t.db)
  {
  }

  lemma IngestKeepsMessages(s: System, t: System)
    requires IsIngest(s, t)
    ensures KeepsMessages(s.db, t.db)
  {
  }

  lemma MessagesStay(s: System, step: Step, config: Config)
    requires Refs(s.db)
    ensures KeepsMessages(s.db, Next(s, step, config).db)
  {
    var t := Next(s, step, config);
    NextIsShaped(s, step, config);
    if IsIdle(s, t) {
    } else if step.IngestStep? {
      IngestKeepsMessages(s, t);
    } else if !step.ClaimStep? {
      var status, effect :| IsCommit(s, t, step.token, status, effect);
      CommitKeepsMessages(s, t, step.token, status, effect);
    }
  }

  lemma EarlierMessagesUncorrected(a: Db, b: Db, l: Id)
    requires KeepsMessages(a, b) && NeverCorrected(b, l)
    ensures NeverCorrected(a, l)
  {
  }

  lemma UncorrectedStepKeepsValue(s: System, step: Step, config: Config, l: Id, f: Profile.Field)
    requires FenceInvariant(s) && ContextsKnown(s) && FactsKeyed(s.db) && l in s.db.leads && f in s.db.leads[l].facts
    requires NeverCorrected(s.db, l)
    ensures var t := Next(s, step, config);
            && l in t.db.leads && f in t.db.leads[l].facts
            && t.db.leads[l].facts[f].value.identity == s.db.leads[l].facts[f].value.identity
  {
    ChangesOnlyByCorrection(s, step, config, l, f);
  }

  /** As long as no message of a lead's conversation matches the correction pattern, every value the profile ever
      held stays its current value. */
  lemma {:induction false} UncorrectedValuesStay(before: seq<Step>, more: seq<Step>, config: Config, l: Id, f: Profile.Field)
    requires l in Run(before, config).db.leads && f in Run(before, config).db.leads[l].facts
    requires NeverCorrected(Run(before + more, config).db, l)
    ensures var first, last := Run(before, config).db, Run(before + more, config).db;
            && l in last.leads && f in last.leads[l].facts
            && last.leads[l].facts[f].value.identity == first.leads[l].facts[f].value.identity
  {
    if more == [] {
      assert before + more == before;
    } else {
      var front, step := more[..|more| - 1], more[|more| - 1];
      var s := Run(before + front, config);
      RunExtends(before, more, config);
      assert FenceInvariant(s) by {
        RunsAreFenced(before + front, config);
      }
      MessagesStay(s, step, config);
      EarlierMessagesUncorrected(s.db, Next(s, step, config).db, l);
      UncorrectedValuesStay(before, front, config, l, f);
      RunsKnowTheirContexts(before + front, config);
      UncorrectedStepKeepsValue(s, step, config, l, f);
    }
  }

  // ---------------------------------------------------------------- the evaluation lags

  /** The evaluation of a commit records the opportunity from before it, and no missing information. */
  lemma EvaluationLags(steps: seq<Step>, step: Step, config: Config, l: Id)
    requires AppliesToLead(Run(steps, config), step, config, l)
    ensures var s, t := Run(steps, config).db, Next(Run(steps, config), step, config).db;
            && l in s.leads && l in t.leads
            && |t.evaluations| == |s.evaluations| + 1 && t.evaluations[..|s.evaluations|] == s.evaluations
            && var e := t.evaluations[|s.evaluations|];
               && e.lead == l && e.missing == []
               && e.opportunity == s.leads[l].opportunity
               && t.leads[l].opportunity == Theorems.MergedOpportunity(e.opportunity, step.ext.opportunity)
  {
    RunsAreCoupled(steps, config);
    CommitLags(Run(steps, config), step, config, l);
  }

  lemma CommitLags(s: System, step: Step, config: Config, l: Id)
    requires Coupling(s.db) && AppliesToLead(s, step, config, l)
    ensures var t := Next(s, step, config).db;
            && l in s.db.leads && l in t.leads
            && |t.evaluations| == |s.db.evaluations| + 1 && t.evaluations[..|s.db.evaluations|] == s.db.evaluations
            && var e := t.evaluations[|s.db.evaluations|];
               && e.lead == l && e.missing == []
               && e.opportunity == s.db.leads[l].opportunity
               && t.leads[l].opportunity == Theorems.MergedOpportunity(e.opportunity, step.ext.opportunity)
  {
    var w := s.workers[step.token];
    LeadTransitionAllowed(s.db, w.claim, w.phase.context, step.ext, step.verdict);
  }

  /** What an evaluation identified is the primary opportunity of its lead now. */
  ghost predicate SeenIsCurrent(db: Db) {
    forall i :: 0 <= i < |db.evaluations| ==>
      && db.evaluations[i].lead in db.leads
      && (db.evaluations[i].opportunity.primary != Theorems.UNIDENTIFIED ==>
            db.leads[db.evaluations[i].lead].opportunity.primary == db.evaluations[i].opportunity.primary)
  }

  /** What an evaluation identified, every later one of its lead repeats. */
  ghost predicate SeenIsRepeated(db: Db) {
    forall i, j :: 0 <= i < j < |db.evaluations| && db.evaluations[i].lead == db.evaluations[j].lead ==>
      || db.evaluations[i].opportunity.primary == Theorems.UNIDENTIFIED
      || db.evaluations[j].opportunity.primary == db.evaluations[i].opportunity.primary
  }

  /** An identified opportunity is the primary one of its lead ever after. */
  ghost predicate Sticky(db: Db) {
    SeenIsCurrent(db) && SeenIsRepeated(db)
  }

  /** The first evaluation of a lead never knows the opportunity. */
  ghost predicate FirstIsBlind(db: Db) {
    && (forall l :: l in db.leads && db.leads[l].version == 1 ==> db.leads[l].opportunity.primary == Theorems.UNIDENTIFIED)
    && (forall i :: 0 <= i < |db.evaluations| && EvaluationsOf(db.evaluations[..i], db.evaluations[i].lead) == 0 ==>
          db.evaluations[i].opportunity.primary == Theorems.UNIDENTIFIED)
  }

  lemma AppliedKeepsSticky(s: System, step: Step, config: Config, l: Id)
    requires Coupling(s.db) && Sticky(s.db) && AppliesToLead(s, step, config, l)
    ensures Sticky(Next(s, step, config).db)
  {
    CommitLags(s, step, config, l);
    var a, b := s.db, Next(s, step, config).db;
    assert b.leads == a.leads[l := b.leads[l]];
    OneMoreSticks(a, b, l);
  }

  /** One more evaluation, of the opportunity the lead had, merged with another one. */
  lemma OneMoreSticks(a: Db, b: Db, l: Id)
    requires Sticky(a) && l in a.leads && l in b.leads && b.leads == a.leads[l := b.leads[l]]
    requires |b.evaluations| == |a.evaluations| + 1 && b.evaluations[..|a.evaluations|] == a.evaluations
    requires b.evaluations[|a.evaluations|].lead == l
    requires b.evaluations[|a.evaluations|].opportunity == a.leads[l].opportunity
    requires a.leads[l].opportunity.primary != Theorems.UNIDENTIFIED ==>
      b.leads[l].opportunity.primary == a.leads[l].opportunity.primary
    ensures Sticky(b)
  {
    assert forall i :: 0 <= i < |a.evaluations| ==> b.evaluations[i] == b.evaluations[..|a.evaluations|][i];
  }

  lemma AppliedKeepsBlind(s: System, step: Step, config: Config, l: Id)
    requires Coupling(s.db) && Counted(s) && FirstIsBlind(s.db) && AppliesToLead(s, step, config, l)
    ensures FirstIsBlind(Next(s, step, config).db)
  {
    CommitLags(s, step, config, l);
    var a, b := s.db, Next(s, step, config).db;
    var n := |a.evaluations|;
    assert b.leads == a.leads[l := b.leads[l]] && b.leads[l].version == a.leads[l].version + 1;
    forall i | 0 <= i < |b.evaluations| && EvaluationsOf(b.evaluations[..i], b.evaluations[i].lead) == 0
      ensures b.evaluations[i].opportunity.primary == Theorems.UNIDENTIFIED
    {
      if i < n {
        assert b.evaluations[i] == b.evaluations[..n][i] && b.evaluations[..i] == a.evaluations[..i];
      } else {
        assert LeadCounted(s, l);
      }
    }
  }

  lemma IngestKeepsOpportunities(s: System, t: System)
    requires Sticky(s.db) && FirstIsBlind(s.db) && IsIngest(s, t)
    ensures Sticky(t.db) && FirstIsBlind(t.db)
  {
  }

  /** In every run: a lead's primary opportunity, once seen by an evaluation, is never revised, and its first
      evaluation sees none. */
  lemma {:induction false} OpportunitiesAreSticky(steps: seq<Step>, config: Config)
    ensures Sticky(Run(steps, config).db) && FirstIsBlind(Run(steps, config).db)
  {
    if steps != [] {
      var front, step := steps[..|steps| - 1], steps[|steps| - 1];
      OpportunitiesAreSticky(front, config);
      RunsHaveRefs(front, config);
      RunsAreCoupled(front, config);
      RunsAreCounted(front, config);
      NextKeepsOpportunities(Run(front, config), step, config);
    }
  }

  lemma NextKeepsOpportunities(s: System, step: Step, config: Config)
    requires Refs(s.db) && Coupling(s.db) && Counted(s) && Sticky(s.db) && FirstIsBlind(s.db)
    ensures Sticky(Next(s, step, config).db) && FirstIsBlind(Next(s, step, config).db)
  {
    var t := Next(s, step, config);
    NextEffects(s, step, config);
    if AppliesExtraction(s, step, t) {
      var l := s.db.conversations[s.workers[step.token].claim.conversation].lead;
      AppliedKeepsSticky(s, step, config, l);
      AppliedKeepsBlind(s, step, config, l);
    } else if step.IngestStep? && !AppliesNothing(s, t) {
      IngestKeepsOpportunities(s, t);
    }
  }
}
