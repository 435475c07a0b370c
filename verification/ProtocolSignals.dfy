// What a commit scores: the lead's active signals, persisted by the commits of the run and loaded again.
module ProtocolSignals {
  import opened Wrappers
  import opened Signals
  import opened Protocol
  import opened ProtocolFencing
  import opened ProtocolEffects
  import opened ProtocolProfile
  import opened ProtocolHistory
  import Profile
  import SignalHistory
  import Scoring
  import Theorems = ScoringTheorems

  function StatusOf(status: Profile.ValidationStatus): Scoring.ValidationStatus {
    match status
    case Hypothesis => Scoring.Hypothesis
    case Accepted => Scoring.AcceptedSignal
    case Confirmed => Scoring.Confirmed
    case Rejected => Scoring.Rejected
  }

  function ToScoring(s: SignalHistory.Signal): Scoring.Signal {
    Scoring.Signal(s.code, s.confidence, s.observedAt, StatusOf(s.status))
  }

  /** The signal rows of a lead after a run. */
  ghost function RowsOf(steps: seq<Step>, config: Config, l: Id): seq<SignalHistory.SignalRow> {
    SignalHistory.RowsAfter(BatchesOf(steps, config, l))
  }

  /** The signals the engine is given for a lead after a run, in any order. */
  ghost predicate ScoredSignals(signals: seq<Scoring.Signal>, rows: seq<SignalHistory.SignalRow>) {
    && (forall s :: s in signals ==> exists code :: code in SignalHistory.Loaded(rows) && s == ToScoring(SignalHistory.Loaded(rows)[code]))
    && (forall code :: code in SignalHistory.Loaded(rows) ==> ToScoring(SignalHistory.Loaded(rows)[code]) in signals)
  }

  /** The signals the commits of a lead persisted in a run. */
  ghost function SaidOf(steps: seq<Step>, config: Config, l: Id): seq<SignalHistory.Signal> {
    SignalHistory.AllSignals(BatchesOf(steps, config, l))
  }

  // ---------------------------------------------------------------- what was said stays said

  lemma {:induction false} AllAcceptedTogether(batches: seq<SignalHistory.Batch>)
    requires forall i :: 0 <= i < |batches| ==> AllAccepted(batches[i].signals)
    ensures AllAccepted(SignalHistory.AllSignals(batches))
  {
    if batches != [] {
      AllAcceptedTogether(batches[..|batches| - 1]);
    }
  }

  lemma SaysAppend(a: seq<SignalHistory.Signal>, b: seq<SignalHistory.Signal>, code: SignalCode, least: int)
    ensures SignalHistory.Says(a, code, least) || SignalHistory.Says(b, code, least) ==> SignalHistory.Says(a + b, code, least)
  {
    if SignalHistory.Says(a, code, least) {
      var i :| 0 <= i < |a| && a[i].code == code && SignalHistory.CountsAsActive(a[i].status) && a[i].confidence >= least;
      assert (a + b)[i] == a[i];
    }
    if SignalHistory.Says(b, code, least) {
      var i :| 0 <= i < |b| && b[i].code == code && SignalHistory.CountsAsActive(b[i].status) && b[i].confidence >= least;
      assert (a + b)[|a| + i] == b[i];
    }
  }

  lemma StepSays(steps: seq<Step>, step: Step, config: Config, l: Id, code: SignalCode, least: int)
    ensures SignalHistory.Says(SaidOf(steps, config, l), code, least) ==> SignalHistory.Says(SaidOf(steps + [step], config, l), code, least)
    ensures AppliesToLead(Run(steps, config), step, config, l) && SignalHistory.Says(step.ext.signals, code, least) ==>
      SignalHistory.Says(SaidOf(steps + [step], config, l), code, least)
  {
    var all := steps + [step];
    assert all[..|all| - 1] == steps;
    if AppliesToLead(Run(steps, config), step, config, l) {
      var before, b := BatchesOf(steps, config, l), BatchOf(Run(steps, config), step, config, l);
      assert (before + [b])[..|before|] == before;
      assert SaidOf(all, config, l) == SaidOf(steps, config, l) + step.ext.signals;
      SaysAppend(SaidOf(steps, config, l), step.ext.signals, code, least);
    }
  }

  lemma {:induction false} SaidStaysSaid(steps: seq<Step>, more: seq<Step>, config: Config, l: Id, code: SignalCode, least: int)
    requires SignalHistory.Says(SaidOf(steps, config, l), code, least)
    ensures SignalHistory.Says(SaidOf(steps + more, config, l), code, least)
  {
    if more == [] {
      assert steps + more == steps;
    } else {
      var front, last := more[..|more| - 1], more[|more| - 1];
      SaidStaysSaid(steps, front, config, l, code, least);
      StepSays(steps + front, last, config, l, code, least);
      assert steps + front + [last] == steps + more;
    }
  }

  // ---------------------------------------------------------------- scoring what was said

  lemma DoNotContactIsUngrouped()
    ensures forall g :: !InGroup(DoNotContactSignal, g)
  {
  }

  /** In every run the engine may use the loaded do-not-contact signal exactly when some commit of the lead persisted one of
      at least the policy's minimum confidence. */
  lemma SilenceUsableIffSaid(steps: seq<Step>, config: Config, l: Id, signals: seq<Scoring.Signal>, minimum: int)
    requires ScoredSignals(signals, RowsOf(steps, config, l))
    ensures DoNotContactSignal in Scoring.UsableCodes(signals, minimum)
            <==> SignalHistory.Says(SaidOf(steps, config, l), DoNotContactSignal, minimum)
  {
    LeadSignalsMeanLatest(steps, config, l);
    RunsRecordCommits(steps, config, l);
    AllAcceptedTogether(BatchesOf(steps, config, l));
    DoNotContactIsUngrouped();
    SignalHistory.UngroupedIsLoadedIffSaid(BatchesOf(steps, config, l), DoNotContactSignal, minimum);
    LoadedIsUsable(RowsOf(steps, config, l), SaidOf(steps, config, l), signals, minimum);
  }

  lemma LoadedIsUsable(
    rows: seq<SignalHistory.SignalRow>, said: seq<SignalHistory.Signal>, signals: seq<Scoring.Signal>, minimum: int)
    requires SignalHistory.RowsAre(rows, said) && AllAccepted(said) && ScoredSignals(signals, rows)
    ensures DoNotContactSignal in Scoring.UsableCodes(signals, minimum)
            <==> DoNotContactSignal in SignalHistory.Loaded(rows)
                 && SignalHistory.Loaded(rows)[DoNotContactSignal].confidence >= minimum
  {
    var loaded := SignalHistory.Loaded(rows);
    SignalHistory.LoadedIsStrongest(rows);
    forall code | code in loaded ensures loaded[code].status == Profile.Accepted {
      assert SignalHistory.IsActiveSignal(rows, loaded[code]);
      var i :| 0 <= i < |rows| && rows[i].active && rows[i].signal == loaded[code];
      assert said[i].status == Profile.Accepted;
    }
    if DoNotContactSignal in loaded {
      assert ToScoring(loaded[DoNotContactSignal]) in signals;
    }
  }

  /** A policy stops on the do-not-contact signal alone. */
  predicate StopsOnSilence(rule: Scoring.Penalty) {
    rule.effect == Scoring.DoNotContactEffect && rule.required == {DoNotContactSignal}
  }

  lemma UsableSilenceStops(p: Scoring.Policy, rule: Scoring.Penalty, signals: seq<Scoring.Signal>)
    requires Scoring.ValidPolicy(p) && rule in p.penalties && StopsOnSilence(rule)
    requires DoNotContactSignal in Scoring.UsableCodes(signals, p.header.minimumConfidence)
    ensures var answer := Scoring.EvaluateCodes(p, Scoring.UsableCodes(signals, p.header.minimumConfidence));
            && answer.Evaluated? && answer.evaluation.action == Scoring.StopAutomation
            && answer.evaluation.handoff == Scoring.HandoffAdvice(false, false, [])
  {
    var s :| s in signals && s.code == DoNotContactSignal && Scoring.Usable(s, p.header.minimumConfidence);
    Theorems.DoNotContactStops(p, signals, rule, s);
  }

  /** Once a commit of the lead persisted a do-not-contact signal of at least the policy's minimum confidence, persisting and
      loading make every later evaluation, its own included, stop automation without handoff. */
  lemma SaidSilenceStopsEveryScore(
    steps: seq<Step>, step: Step, more: seq<Step>, config: Config, l: Id, p: Scoring.Policy, rule: Scoring.Penalty,
    signals: seq<Scoring.Signal>)
    requires AppliesToLead(Run(steps, config), step, config, l)
    requires SignalHistory.Says(step.ext.signals, DoNotContactSignal, p.header.minimumConfidence)
    requires Scoring.ValidPolicy(p) && rule in p.penalties && StopsOnSilence(rule)
    requires ScoredSignals(signals, RowsOf(steps + [step] + more, config, l))
    ensures var answer := Scoring.EvaluateCodes(p, Scoring.UsableCodes(signals, p.header.minimumConfidence));
            && answer.Evaluated? && answer.evaluation.action == Scoring.StopAutomation
            && answer.evaluation.handoff == Scoring.HandoffAdvice(false, false, [])
  {
    StepSays(steps, step, config, l, DoNotContactSignal, p.header.minimumConfidence);
    SaidStaysSaid(steps + [step], more, config, l, DoNotContactSignal, p.header.minimumConfidence);
    SilenceUsableIffSaid(steps + [step] + more, config, l, signals, p.header.minimumConfidence);
    UsableSilenceStops(p, rule, signals);
  }

  /** When a selected message asked not to be contacted, this holds under every valid policy with such a rule. */
  lemma AskedSilenceStopsEveryScore(
    steps: seq<Step>, step: Step, more: seq<Step>, config: Config, l: Id, p: Scoring.Policy, rule: Scoring.Penalty,
    signals: seq<Scoring.Signal>)
    requires AppliesToLead(Run(steps, config), step, config, l) && AsksForSilence(Run(steps, config).db, step.ext)
    requires Scoring.ValidPolicy(p) && rule in p.penalties && StopsOnSilence(rule)
    requires ScoredSignals(signals, RowsOf(steps + [step] + more, config, l))
    ensures var answer := Scoring.EvaluateCodes(p, Scoring.UsableCodes(signals, p.header.minimumConfidence));
            && answer.Evaluated? && answer.evaluation.action == Scoring.StopAutomation
            && answer.evaluation.handoff == Scoring.HandoffAdvice(false, false, [])
  {
    var s := step.ext.signals;
    var i :| 0 <= i < |s| && s[i].code == DoNotContactSignal && SignalHistory.CountsAsActive(s[i].status)
      && s[i].confidence >= Profile.ONE;
    assert s[i].confidence >= p.header.minimumConfidence;
    SaidSilenceStopsEveryScore(steps, step, more, config, l, p, rule, signals);
  }
}
