// Do-not-contact is final for the contact, and a message that asks for it is never parked behind a handoff.
module ProtocolDoNotContact {
  import opened Wrappers
  import opened StateMachines
  import opened Protocol
  import opened ProtocolLeases
  import opened ProtocolFencing
  import opened ProtocolEffects

  // ---------------------------------------------------------------- what is final

  ghost predicate Silenced(db: Db, contact: Id) {
    contact in db.contacts && db.contacts[contact].doNotContact
  }

  ghost predicate ConversationOf(db: Db, conversation: Id, contact: Id) {
    conversation in db.conversations && db.conversations[conversation].contact == contact
  }

  ghost predicate KeepsConversations(a: Db, b: Db, contact: Id) {
    forall c :: c in a.conversations ==>
      && c in b.conversations && b.conversations[c].contact == a.conversations[c].contact
      && (a.conversations[c].contact == contact ==>
            b.conversations[c].state == a.conversations[c].state || b.conversations[c].state == DoNotContact)
  }

  /** No handoff of the contact is added or reactivated. */
  ghost predicate NoNewHandoff(a: Db, b: Db, contact: Id) {
    && |a.handoffs| <= |b.handoffs|
    && (forall i :: 0 <= i < |a.handoffs| ==>
          b.handoffs[i] == a.handoffs[i] || b.handoffs[i] == a.handoffs[i].(status := CancelledHandoff))
    && (forall i :: |a.handoffs| <= i < |b.handoffs| ==>
          b.handoffs[i].conversation in b.conversations && !ConversationOf(b, b.handoffs[i].conversation, contact))
  }

  /** No question of the contact is added or reactivated. */
  ghost predicate NoNewQuestion(a: Db, b: Db, contact: Id) {
    && |a.questions| <= |b.questions|
    && (forall i :: 0 <= i < |a.questions| ==>
          b.questions[i] == a.questions[i] || b.questions[i] == a.questions[i].(status := CancelledQuestion))
    && (forall i :: |a.questions| <= i < |b.questions| ==>
          b.questions[i].conversation in b.conversations && !ConversationOf(b, b.questions[i].conversation, contact))
  }

  ghost predicate KeepsLeads(a: Db, b: Db) {
    forall l :: l in a.leads ==> l in b.leads && b.leads[l].contact == a.leads[l].contact
  }

  /** Every evaluation added for a lead of the contact is a do-not-contact one. */
  ghost predicate OnlySilentEvaluations(a: Db, b: Db, contact: Id) {
    && |a.evaluations| <= |b.evaluations| && b.evaluations[..|a.evaluations|] == a.evaluations
    && (forall i :: |a.evaluations| <= i < |b.evaluations| ==>
          && b.evaluations[i].lead in b.leads
          && (b.leads[b.evaluations[i].lead].contact == contact ==> b.evaluations[i].dnc))
  }

  ghost predicate StaysSilent(a: Db, b: Db, contact: Id) {
    && Silenced(b, contact)
    && KeepsConversations(a, b, contact) && KeepsLeads(a, b)
    && NoNewHandoff(a, b, contact) && NoNewQuestion(a, b, contact) && OnlySilentEvaluations(a, b, contact)
  }

  lemma HandoffsCompose(a: Db, b: Db, c: Db, contact: Id)
    requires NoNewHandoff(a, b, contact) && NoNewHandoff(b, c, contact) && KeepsConversations(b, c, contact)
    ensures NoNewHandoff(a, c, contact)
  {
  }

  lemma QuestionsCompose(a: Db, b: Db, c: Db, contact: Id)
    requires NoNewQuestion(a, b, contact) && NoNewQuestion(b, c, contact) && KeepsConversations(b, c, contact)
    ensures NoNewQuestion(a, c, contact)
  {
  }

  lemma EvaluationsCompose(a: Db, b: Db, c: Db, contact: Id)
    requires OnlySilentEvaluations(a, b, contact) && OnlySilentEvaluations(b, c, contact) && KeepsLeads(b, c)
    ensures OnlySilentEvaluations(a, c, contact)
  {
    assert c.evaluations[..|a.evaluations|] == c.evaluations[..|b.evaluations|][..|a.evaluations|];
    forall i | |a.evaluations| <= i < |c.evaluations|
      ensures c.evaluations[i].lead in c.leads
      ensures c.leads[c.evaluations[i].lead].contact == contact ==> c.evaluations[i].dnc
    {
      if i < |b.evaluations| {
        assert c.evaluations[i] == c.evaluations[..|b.evaluations|][i] == b.evaluations[i];
      }
    }
  }

  lemma SilenceComposes(a: Db, b: Db, c: Db, contact: Id)
    requires StaysSilent(a, b, contact) && StaysSilent(b, c, contact)
    ensures StaysSilent(a, c, contact)
  {
    HandoffsCompose(a, b, c, contact);
    QuestionsCompose(a, b, c, contact);
    EvaluationsCompose(a, b, c, contact);
  }

  // ---------------------------------------------------------------- one step

  lemma SameEffectsStaySilent(a: Db, b: Db, contact: Id)
    requires Silenced(a, contact) && SameEffects(a, b)
    ensures StaysSilent(a, b, contact)
  {
  }

  lemma AddingStaysSilent(a: Db, b: Db, contact: Id)
    requires Silenced(a, contact) && OnlyAdds(a, b)
    ensures StaysSilent(a, b, contact)
  {
    assert b.evaluations[..|a.evaluations|] == a.evaluations;
  }

  lemma HandoffsOnlyCancelled(handoffs: seq<Handoff>, c: Id, ext: Extraction, verdict: Verdict, id: Id)
    ensures var after := HandoffsAfter(handoffs, c, ext, verdict, id).0;
            && |handoffs| <= |after|
            && (forall i :: 0 <= i < |handoffs| ==>
                  after[i] == handoffs[i] || after[i] == handoffs[i].(status := CancelledHandoff))
            && (forall i :: |handoffs| <= i < |after| ==> after[i].conversation == c && !ext.dnc)
  {
  }

  lemma QuestionsOnlyCancelled(
    questions: seq<Question>, c: Id, changed: bool, ext: Extraction, verdict: Verdict, id: Id)
    ensures var after := QuestionsAfter(questions, c, changed, ext, verdict, id).0;
            && |questions| <= |after|
            && (forall i :: 0 <= i < |questions| ==>
                  after[i] == questions[i] || after[i] == questions[i].(status := CancelledQuestion))
            && (forall i :: |questions| <= i < |after| ==> after[i].conversation == c && !ext.dnc)
  {
  }

  /** Once the contact is silenced, an admitted extraction of its conversations is a do-not-contact one. */
  lemma EffectsStaySilent(db: Db, claim: Claim, context: Context, ext: Extraction, verdict: Verdict, contact: Id)
    requires Silenced(db, contact) && ConversationRefs(db) && Admitted(db, claim, context, ext)
    ensures StaysSilent(db, WithEffects(db, claim, ext, PlanCommit(db, claim, context, ext, verdict)), contact)
  {
    var changed := ProfileChanges(db, claim, context, ext);
    HandoffsOnlyCancelled(db.handoffs, claim.conversation, ext, verdict, db.nextId);
    QuestionsOnlyCancelled(db.questions, claim.conversation, changed, ext, verdict, db.nextId);
    PlannedTarget(db, claim, context, ext, verdict);
    var plan := PlanCommit(db, claim, context, ext, verdict);
    EffectsOnOthers(db, claim, context, ext, plan, contact);
  }

  lemma EffectsOnOthers(db: Db, claim: Claim, context: Context, ext: Extraction, plan: CommitPlan, contact: Id)
    requires Silenced(db, contact) && ConversationRefs(db) && Admitted(db, claim, context, ext)
    requires ext.dnc ==> plan.state == DoNotContact
    requires |db.handoffs| <= |plan.handoffs|
    requires forall i :: 0 <= i < |db.handoffs| ==>
      plan.handoffs[i] == db.handoffs[i] || plan.handoffs[i] == db.handoffs[i].(status := CancelledHandoff)
    requires forall i :: |db.handoffs| <= i < |plan.handoffs| ==> plan.handoffs[i].conversation == claim.conversation && !ext.dnc
    requires |db.questions| <= |plan.questions|
    requires forall i :: 0 <= i < |db.questions| ==>
      plan.questions[i] == db.questions[i] || plan.questions[i] == db.questions[i].(status := CancelledQuestion)
    requires forall i :: |db.questions| <= i < |plan.questions| ==> plan.questions[i].conversation == claim.conversation && !ext.dnc
    ensures StaysSilent(db, WithEffects(db, claim, ext, plan), contact)
  {
    var after := WithEffects(db, claim, ext, plan);
    assert db.conversations[claim.conversation].contact == contact ==> ext.dnc;
    assert after.evaluations[..|db.evaluations|] == db.evaluations;
    assert NoNewHandoff(db, after, contact);
    assert NoNewQuestion(db, after, contact);
    assert KeepsConversations(db, after, contact);
  }

  lemma SameEffectsTransferSilence(a: Db, b: Db, c: Db, contact: Id)
    requires StaysSilent(a, b, contact) && SameEffects(b, c)
    ensures StaysSilent(a, c, contact)
  {
    SameEffectsStaySilent(b, c, contact);
    SilenceComposes(a, b, c, contact);
  }

  lemma NextStaysSilent(s: System, step: Step, config: Config, contact: Id)
    requires Refs(s.db) && Silenced(s.db, contact)
    ensures StaysSilent(s.db, Next(s, step, config).db, contact)
  {
    var t := Next(s, step, config);
    NextEffects(s, step, config);
    if AppliesNothing(s, t) {
      SameEffectsStaySilent(s.db, t.db, contact);
    } else if step.IngestStep? {
      AddingStaysSilent(s.db, t.db, contact);
    } else {
      var w := s.workers[step.token];
      EffectsStaySilent(s.db, w.claim, w.phase.context, step.ext, step.verdict, contact);
      SameEffectsTransferSilence(
        s.db, WithEffects(s.db, w.claim, step.ext, PlanCommit(s.db, w.claim, w.phase.context, step.ext, step.verdict)),
        t.db, contact);
    }
  }

  lemma SilenceExtends(a: Db, s: System, step: Step, config: Config, contact: Id)
    requires Refs(s.db) && StaysSilent(a, s.db, contact)
    ensures StaysSilent(a, Next(s, step, config).db, contact)
  {
    NextStaysSilent(s, step, config, contact);
    SilenceComposes(a, s.db, Next(s, step, config).db, contact);
  }

  lemma RunSilenceExtends(a: Db, steps: seq<Step>, step: Step, config: Config, contact: Id)
    requires StaysSilent(a, Run(steps, config).db, contact)
    ensures StaysSilent(a, Next(Run(steps, config), step, config).db, contact)
  {
    RunsHaveRefs(steps, config);
    SilenceExtends(a, Run(steps, config), step, config, contact);
  }

  /** Once a contact is do-not-contact it stays so through every continuation: no handoff and no question of any
      of its conversations is created or reactivated, every evaluation recorded for it is a do-not-contact one,
      and its conversations move nowhere but to do-not-contact. */
  lemma {:induction false} SilenceIsFinal(before: seq<Step>, more: seq<Step>, config: Config, contact: Id)
    requires Silenced(Run(before, config).db, contact)
    ensures StaysSilent(Run(before, config).db, Run(before + more, config).db, contact)
  {
    if more == [] {
      assert before + more == before;
      SameEffectsStaySilent(Run(before, config).db, Run(before, config).db, contact);
    } else {
      SilenceIsFinal(before, more[..|more| - 1], config, contact);
      RunSilenceExtends(Run(before, config).db, before + more[..|more| - 1], more[|more| - 1], config, contact);
      RunExtends(before, more, config);
    }
  }

  // ---------------------------------------------------------------- why a contact is silenced

  predicate AppliesFor(e: Event, contact: Id) {
    e.Finishing? && e.effect.Applied? && e.effect.contact == contact
  }

  ghost predicate DncLogged(log: seq<Event>, contact: Id) {
    exists i :: 0 <= i < |log| && AppliesFor(log[i], contact) && log[i].effect.dnc
  }

  /** A contact is silenced exactly when a do-not-contact extraction of one of its conversations was applied. */
  ghost predicate SilencedIffLogged(s: System) {
    forall k :: Silenced(s.db, k) <==> DncLogged(s.log, k)
  }

  /** After a do-not-contact commit, every later commit for the contact is one too and creates nothing. */
  ghost predicate LogStaysSilent(log: seq<Event>) {
    forall i :: 0 <= i < |log| && log[i].Finishing? && log[i].effect.Applied? && DncLogged(log[..i], log[i].effect.contact) ==>
      log[i].effect.dnc && log[i].effect.newHandoff == None && log[i].effect.newQuestion == None
  }

  lemma DncAppend(log: seq<Event>, e: Event, k: Id)
    ensures DncLogged(log + [e], k) <==> DncLogged(log, k) || (AppliesFor(e, k) && e.effect.dnc)
  {
    var after := log + [e];
    if DncLogged(log, k) {
      var i :| 0 <= i < |log| && AppliesFor(log[i], k) && log[i].effect.dnc;
      assert after[i] == log[i];
    }
    if AppliesFor(e, k) && e.effect.dnc {
      assert after[|log|] == e;
    }
  }

  lemma SilentLogAppend(log: seq<Event>, e: Event)
    requires LogStaysSilent(log)
    requires e.Finishing? && e.effect.Applied? && DncLogged(log, e.effect.contact) ==>
      e.effect.dnc && e.effect.newHandoff == None && e.effect.newQuestion == None
    ensures LogStaysSilent(log + [e])
  {
    var after := log + [e];
    forall i | 0 <= i < |after| && after[i].Finishing? && after[i].effect.Applied? && DncLogged(after[..i], after[i].effect.contact)
      ensures after[i].effect.dnc && after[i].effect.newHandoff == None && after[i].effect.newQuestion == None
    {
      assert after[..i] == log[..i];
      if i == |log| {
        assert log[..i] == log;
      }
    }
  }

  lemma QuietKeepsSilence(s: System, t: System)
    requires SilencedIffLogged(s) && LogStaysSilent(s.log) && AppliesNothing(s, t)
    ensures SilencedIffLogged(t) && LogStaysSilent(t.log)
  {
    if t.log != s.log {
      var e :| t.log == s.log + [e] && (e.Finishing? ==> !e.effect.Applied?);
      SilentLogAppend(s.log, e);
      forall k ensures Silenced(t.db, k) <==> DncLogged(t.log, k) {
        DncAppend(s.log, e, k);
        assert Silenced(s.db, k) <==> DncLogged(s.log, k);
      }
    }
  }

  lemma AppliedKeepsSilence(s: System, step: Step, t: System)
    requires SilencedIffLogged(s) && AppliesExtraction(s, step, t)
    ensures SilencedIffLogged(t)
  {
    var e := t.log[|s.log|];
    forall k ensures Silenced(t.db, k) <==> DncLogged(t.log, k) {
      DncAppend(s.log, e, k);
      SilencedAfter(s, step, t, k);
      assert Silenced(s.db, k) <==> DncLogged(s.log, k);
    }
  }

  lemma SilencedAfter(s: System, step: Step, t: System, k: Id)
    requires AppliesExtraction(s, step, t)
    ensures var e := t.log[|s.log|];
            Silenced(t.db, k) <==> Silenced(s.db, k) || (AppliesFor(e, k) && e.effect.dnc)
  {
    var w := s.workers[step.token];
    AppliedEvent(s, step, t);
    ContactsAfter(s.db, t.db, w.claim, w.phase.context, step.ext, step.verdict, k);
  }

  lemma AppliedEvent(s: System, step: Step, t: System)
    requires AppliesExtraction(s, step, t)
    ensures var e := t.log[|s.log|];
            && e.Finishing? && e.effect.Applied? && e.effect.dnc == step.ext.dnc
            && e.effect.contact == s.db.conversations[s.workers[step.token].claim.conversation].contact
  {
  }

  lemma ContactsAfter(a: Db, b: Db, claim: Claim, context: Context, ext: Extraction, verdict: Verdict, k: Id)
    requires IsApplied(a, b, claim, context, ext, verdict)
    ensures Silenced(b, k) <==> Silenced(a, k) || (ext.dnc && k == a.conversations[claim.conversation].contact)
  {
  }

  lemma AppliedKeepsLogSilent(s: System, step: Step, t: System)
    requires SilencedIffLogged(s) && LogStaysSilent(s.log) && AppliesExtraction(s, step, t)
    ensures LogStaysSilent(t.log)
  {
    var w := s.workers[step.token];
    var e := t.log[|s.log|];
    PlannedHandoffs(s.db, w.claim, w.phase.context, step.ext, step.verdict, w.claim.conversation);
    PlannedQuestions(s.db, w.claim, w.phase.context, step.ext, step.verdict, w.claim.conversation);
    assert Silenced(s.db, e.effect.contact) <==> DncLogged(s.log, e.effect.contact);
    SilentLogAppend(s.log, e);
  }

  lemma IngestKeepsSilence(s: System, t: System)
    requires SilencedIffLogged(s) && IsIngest(s, t)
    ensures SilencedIffLogged(t)
  {
    forall k ensures Silenced(t.db, k) <==> DncLogged(t.log, k) {
      assert Silenced(s.db, k) <==> DncLogged(s.log, k);
    }
  }

  /** In every run: a contact is do-not-contact exactly when the log holds such a commit for it, and from then
      on every commit of any of its conversations is do-not-contact and creates no handoff and no question. */
  lemma {:induction false} RunsStaySilent(steps: seq<Step>, config: Config)
    ensures SilencedIffLogged(Run(steps, config)) && LogStaysSilent(Run(steps, config).log)
  {
    if steps != [] {
      var front, step := steps[..|steps| - 1], steps[|steps| - 1];
      RunsStaySilent(front, config);
      RunsAreFenced(front, config);
      var s, t := Run(front, config), Run(steps, config);
      NextEffects(s, step, config);
      if AppliesNothing(s, t) {
        QuietKeepsSilence(s, t);
      } else if step.IngestStep? {
        IngestKeepsSilence(s, t);
      } else {
        AppliedKeepsSilence(s, step, t);
        AppliedKeepsLogSilent(s, step, t);
      }
    }
  }

  // ---------------------------------------------------------------- a do-not-contact message is never parked

  ghost predicate NeverParked(db: Db) {
    forall m :: m in db.rows && m in db.messages && db.rows[m].status == BlockedHandoff ==> !db.messages[m].dncText
  }

  lemma BlocksAs(db: Db, claim: Claim, status: Status)
    requires status != Processing && status != Pending
    ensures Block(db, claim, status).Commit? ==> Block(db, claim, status).status == status
  {
    CompleteReleases(db, claim, status, None, None);
  }

  lemma ParkedOutcomeIsOrdinary(s: System, step: Step, config: Config)
    requires Refs(s.db) && WorkersKnown(s)
    requires TxOf(s, step, config).Commit?
    ensures TxOf(s, step, config).status == BlockedHandoff ==>
              !s.db.messages[s.workers[step.token].claim.message].dncText
  {
    var w := s.workers[step.token];
    match step
    case PrepareStep(token) =>
      BlocksAs(s.db, w.claim, BlockedDoNotContact);
      BlocksAs(s.db, w.claim, BlockedHandoff);
    case FinalizeStep(token, ext, verdict) =>
      ParkedByFinalize(s.db, w.claim, w.phase.context, ext, verdict);
    case FailStep(token, now) =>
      FailureReleases(s.db, w.claim, w.phase.retryable, w.phase.invalid, now, config.maxAttempts);
  }

  lemma ParkedByFinalize(db: Db, claim: Claim, context: Context, ext: Extraction, verdict: Verdict)
    requires claim.message in db.messages && Honest(db, ext) && ValidExtraction(claim, ext)
    ensures var tx := Finalize(db, claim, context, ext, verdict);
            tx.Commit? && tx.status == BlockedHandoff ==> !db.messages[claim.message].dncText
  {
    BlocksAs(db, claim, BlockedDoNotContact);
    BlocksAs(db, claim, BlockedHandoff);
  }

  lemma NextNeverParks(s: System, step: Step, config: Config)
    requires FenceInvariant(s) && NeverParked(s.db)
    ensures NeverParked(Next(s, step, config).db)
  {
    var t := Next(s, step, config);
    NextIsShaped(s, step, config);
    if IsIdle(s, t) {
    } else if step.IngestStep? {
      IngestNeverParks(s, t);
    } else if step.ClaimStep? {
    } else {
      NextSettles(s, step, config);
      var tx := TxOf(s, step, config);
      TxReleases(s, step, config);
      SettleIsShaped(s, step.token, tx);
      ParkedOutcomeIsOrdinary(s, step, config);
      CommitNeverParks(s, t, step.token, tx.status, tx.effect);
    }
  }

  lemma IngestNeverParks(s: System, t: System)
    requires RowRefs(s.db) && NeverParked(s.db) && IsIngest(s, t)
    ensures NeverParked(t.db)
  {
    forall m | m in t.db.rows && m in t.db.messages && t.db.rows[m].status == BlockedHandoff
      ensures !t.db.messages[m].dncText
    {
      assert m in s.db.rows && t.db.rows[m] == s.db.rows[m];
      assert m in s.db.messages && t.db.messages[m] == s.db.messages[m];
    }
  }

  lemma CommitNeverParks(s: System, t: System, token: Id, status: Status, effect: Effect)
    requires RowRefs(s.db) && NeverParked(s.db) && IsCommit(s, t, token, status, effect)
    requires status == BlockedHandoff ==> !s.db.messages[s.workers[token].claim.message].dncText
    ensures NeverParked(t.db)
  {
    var own := s.workers[token].claim.message;
    forall m | m in t.db.rows && m in t.db.messages && t.db.rows[m].status == BlockedHandoff
      ensures !t.db.messages[m].dncText
    {
      if m != own {
        assert t.db.rows[m] == s.db.rows[m] && t.db.messages[m] == s.db.messages[m];
      }
    }
  }

  /** A message whose text matches a do-not-contact pattern never ends as BLOCKED_HANDOFF. */
  lemma {:induction false} DoNotContactIsNeverParked(steps: seq<Step>, config: Config)
    ensures NeverParked(Run(steps, config).db)
  {
    if steps != [] {
      var front := steps[..|steps| - 1];
      DoNotContactIsNeverParked(front, config);
      RunsAreFenced(front, config);
      NextNeverParks(Run(front, config), steps[|steps| - 1], config);
    }
  }
}
