// The parts put together: the extractor run on a conversation's messages gives the protocol what its commits rely
// on, and a do-not-contact message silences the whole way from the provider to the commit.
module Composition {
  import opened Wrappers
  import Signals
  import SignalHistory
  import Context
  import Extraction
  import Profile
  import Protocol
  import Scoring
  import Theorems = ScoringTheorems
  import ProfileTheorems

  function Ids(selected: seq<Context.Prepared>): (r: seq<int>)
    ensures |r| == |selected|
    ensures forall i :: 0 <= i < |r| ==> r[i] == selected[i].message.id
  {
    seq(|selected|, i requires 0 <= i < |selected| => selected[i].message.id)
  }

  /** The messages given to the extractor are stored ones, and both sides see the same pattern in their content. */
  ghost predicate Mirrors(db: Protocol.Db, messages: seq<Context.Message>) {
    forall m :: m in messages ==> m.id in db.messages && m.doNotContact == db.messages[m.id].dncText
  }

  function CommandOf(context: Protocol.Context, opportunity: ProfileTheorems.Opportunity, recentlyAsked: set<Profile.Field>)
    : Extraction.Command
  {
    Extraction.Command(context.facts, opportunity, recentlyAsked, context.handoffConfirmed)
  }

  function Resolved(r: Extraction.Result): seq<Profile.Resolved> {
    if r.Completed? then r.resolved else []
  }

  /** What the commit receives. */
  function ToExtraction(
    conversation: int, ids: seq<int>, r: Extraction.Result, resultHash: int, signals: seq<SignalHistory.Signal>)
    : Protocol.Extraction
    requires !r.Escaped?
  {
    Protocol.Extraction(
      conversation, ids, Resolved(r), r.accepted.opportunity,
      Context.DoNotContactControl in r.accepted.controls, Context.HumanRequestedControl in r.accepted.controls,
      r.accepted.handoff != Extraction.NoHandoff, r.accepted.handoff == Extraction.Specialized,
      r.accepted.question, r.Degraded?, resultHash, signals)
  }

  function SignalOf(code: Signals.SignalCode, c: Extraction.Candidate, now: int): SignalHistory.Signal {
    SignalHistory.Signal(code, c.message, c.confidence, now, Profile.Accepted)
  }

  /** The signals of a result: each candidate once, as an accepted signal, in any order. */
  ghost predicate Lists(
    signals: seq<SignalHistory.Signal>, candidates: map<Signals.SignalCode, Extraction.Candidate>, now: int)
  {
    && SignalHistory.DistinctCodes(signals)
    && (forall i :: 0 <= i < |signals| ==>
          signals[i].code in candidates && signals[i] == SignalOf(signals[i].code, candidates[signals[i].code], now))
    && (forall code :: code in candidates ==> SignalOf(code, candidates[code], now) in signals)
  }

  method ListSignals(candidates: map<Signals.SignalCode, Extraction.Candidate>, now: int)
    returns (signals: seq<SignalHistory.Signal>)
    ensures Lists(signals, candidates, now)
  {
    signals := [];
    var todo := candidates.Keys;
    while todo != {}
      invariant todo <= candidates.Keys
      invariant SignalHistory.DistinctCodes(signals)
      invariant forall i :: 0 <= i < |signals| ==>
        && signals[i].code in candidates.Keys - todo
        && signals[i] == SignalOf(signals[i].code, candidates[signals[i].code], now)
      invariant forall code :: code in candidates.Keys - todo ==> SignalOf(code, candidates[code], now) in signals
      decreases |todo|
    {
      assert (forall code :: code !in todo) ==> todo == {};
      var code :| code in todo;
      todo := todo - {code};
      signals := signals + [SignalOf(code, candidates[code], now)];
    }
  }

  /** The listed signals say do-not-contact exactly with the control, and as confidently as its finding. */
  lemma ListedSilence(r: Extraction.Result, signals: seq<SignalHistory.Signal>, now: int)
    requires !r.Escaped? && Lists(signals, Extraction.Candidates(r.accepted), now)
    requires forall i :: 0 <= i < |r.accepted.signals| ==> !Extraction.ForbiddenSignal(r.accepted.signals[i].code)
    ensures SignalHistory.Names(signals, Signals.DoNotContactSignal) <==> Context.DoNotContactControl in r.accepted.controls
    ensures Context.DoNotContactControl in r.accepted.controls ==>
      SignalHistory.Says(signals, Signals.DoNotContactSignal, r.accepted.controls[Context.DoNotContactControl].confidence)
  {
    var candidates := Extraction.Candidates(r.accepted);
    Extraction.OnlyControlsSilence(r.accepted);
    if Context.DoNotContactControl in r.accepted.controls {
      var s := SignalOf(Signals.DoNotContactSignal, candidates[Signals.DoNotContactSignal], now);
      assert s in signals;
      var i :| 0 <= i < |signals| && signals[i] == s;
      assert signals[i].code == Signals.DoNotContactSignal && SignalHistory.CountsAsActive(signals[i].status);
    }
  }

  function SetupOf(context: Context.PreparedContext, command: Extraction.Command, policy: Profile.ConfidencePolicy,
                   tables: Extraction.Tables, maxRetries: nat): Extraction.Setup
    requires context.messages != []
  {
    Extraction.Setup(
      Extraction.Prepared(set p | p in context.messages :: p.message.id,
                          context.messages[|context.messages| - 1].message.id, context.controls),
      command, policy, tables, maxRetries)
  }

  lemma FoundControlsAreCertain(found: map<Context.Control, Context.Finding>, messages: seq<Context.Message>)
    requires Context.FindsControls(found, messages)
    ensures Extraction.Certain(found)
    ensures Context.DoNotContactControl in found <==> exists i :: 0 <= i < |messages| && messages[i].doNotContact
  {
    forall c | c in found
      ensures found[c].deterministic && found[c].confidence == Profile.ONE && found[c].control == c
    {
      var i :| Context.LatestShows(found[c], messages, c, i);
    }
    if exists i :: 0 <= i < |messages| && messages[i].doNotContact {
      var i :| 0 <= i < |messages| && messages[i].doNotContact;
      assert Context.Shows(messages[i], Context.DoNotContactControl);
    }
    if Context.DoNotContactControl in found {
      var i :| 0 <= i < |messages| && Context.Shows(messages[i], Context.DoNotContactControl);
      assert messages[i].doNotContact;
    }
  }

  /** Whatever the provider does, what the extractor returns for a conversation's messages meets the assumption the
      commits of the protocol are proved under. */
  lemma ExtractorIsHonest(
    db: Protocol.Db, messages: seq<Context.Message>, context: Context.PreparedContext, s: Extraction.Setup,
    provider: (nat, bool) -> Extraction.Reply, conversation: int, resultHash: int, signals: seq<SignalHistory.Signal>, now: int)
    requires Mirrors(db, messages)
    requires Context.FindsControls(context.controls, Context.Originals(context.messages))
    requires forall p :: p in context.messages ==> p.message in messages
    requires s.prepared.deterministic == context.controls
    requires !Extraction.AttemptsFrom(provider, s, 0, []).Escaped?
    requires Lists(signals, Extraction.Candidates(Extraction.AttemptsFrom(provider, s, 0, []).accepted), now)
    ensures Protocol.Honest(db, ToExtraction(conversation, Ids(context.messages), Extraction.AttemptsFrom(provider, s, 0, []),
                                             resultHash, signals))
  {
    var r := Extraction.AttemptsFrom(provider, s, 0, []);
    var ext := ToExtraction(conversation, Ids(context.messages), r, resultHash, signals);
    Extraction.ResultsComeFromResolver(provider, s, 0, []);
    Extraction.NoForbiddenSignals(provider, s, 0, []);
    ListedSilence(r, signals, now);
    forall m | m in ext.messages && m in db.messages && db.messages[m].dncText
      ensures ext.dnc && SignalHistory.Says(signals, Signals.DoNotContactSignal, Profile.ONE)
    {
      AskedSilenceIsKept(db, messages, context, s, provider, m);
    }
  }

  lemma AskedSilenceIsKept(
    db: Protocol.Db, messages: seq<Context.Message>, context: Context.PreparedContext, s: Extraction.Setup,
    provider: (nat, bool) -> Extraction.Reply, m: int)
    requires Mirrors(db, messages)
    requires Context.FindsControls(context.controls, Context.Originals(context.messages))
    requires forall p :: p in context.messages ==> p.message in messages
    requires s.prepared.deterministic == context.controls
    requires m in Ids(context.messages) && m in db.messages && db.messages[m].dncText
    ensures var r := Extraction.AttemptsFrom(provider, s, 0, []);
            !r.Escaped? ==>
              && Context.DoNotContactControl in r.accepted.controls
              && r.accepted.controls[Context.DoNotContactControl].confidence == Profile.ONE
  {
    FoundControlsAreCertain(context.controls, Context.Originals(context.messages));
    var i :| 0 <= i < |context.messages| && Ids(context.messages)[i] == m;
    assert context.messages[i] in context.messages;
    assert Context.Originals(context.messages)[i].doNotContact;
    Extraction.AttemptsKeepDoNotContact(provider, s, 0, []);
  }

  /** The extractor as it works on a prepared claim: select the context, attempt, and list the signals. */
  method ExtractConversation(
    ghost db: Protocol.Db, conversation: int, prepared: Protocol.Context, opportunity: ProfileTheorems.Opportunity,
    recentlyAsked: set<Profile.Field>, messages: seq<Context.Message>, limits: Context.Limits, now: int,
    policy: Profile.ConfidencePolicy, tables: Extraction.Tables, maxRetries: nat,
    provider: (nat, bool) -> Extraction.Reply, resultHash: int)
    returns (extraction: Option<Protocol.Extraction>)
    requires messages != [] && Context.ValidLimits(limits) && Mirrors(db, messages)
    ensures extraction.Some? ==>
      && Protocol.Honest(db, extraction.value)
      && extraction.value.conversation == conversation
      && extraction.value.messages
         == Ids(Context.Select(Context.Eligible(messages, limits, now), limits.maxCharacters))
      && extraction.value.messages != []
      && (extraction.value.degraded ==> extraction.value.resolved == [] && extraction.value.question == None)
      && (prepared.handoffConfirmed ==> extraction.value.question == None)
  {
    var context := Context.PrepareContext(messages, limits, now);
    var command := CommandOf(prepared, opportunity, recentlyAsked);
    var s := SetupOf(context, command, policy, tables, maxRetries);
    var r := Extraction.AttemptExtraction(provider, s);
    if r.Escaped? {
      return None;
    }
    var signals := ListSignals(Extraction.Candidates(r.accepted), now);
    ExtractorIsHonest(db, messages, context, s, provider, conversation, resultHash, signals, now);
    DegradedAsksNothing(provider, s, 0, []);
    if prepared.handoffConfirmed {
      HandedOverIsNotAsked(provider, s, 0, []);
    }
    extraction := Some(ToExtraction(conversation, Ids(context.messages), r, resultHash, signals));
  }

  lemma {:induction false} HandedOverIsNotAsked(
    provider: (nat, bool) -> Extraction.Reply, s: Extraction.Setup, k: nat, failures: seq<Extraction.ProviderError>)
    requires s.command.handoffConfirmed
    ensures var r := Extraction.AttemptsFrom(provider, s, k, failures);
            !r.Escaped? ==> r.accepted.question == None
    decreases s.maxRetries + 1 - k
  {
    if k <= s.maxRetries {
      match Extraction.TryReply(provider(k, Extraction.InvalidResponse in failures), s)
      case Bad(error) =>
        if Extraction.Retryable(error) && k < s.maxRetries {
          HandedOverIsNotAsked(provider, s, k + 1, failures + [error]);
        }
      case _ =>
    }
  }

  lemma {:induction false} DegradedAsksNothing(
    provider: (nat, bool) -> Extraction.Reply, s: Extraction.Setup, k: nat, failures: seq<Extraction.ProviderError>)
    ensures var r := Extraction.AttemptsFrom(provider, s, k, failures);
            r.Degraded? ==> r.accepted.question == None && r.accepted.fields == [] && r.accepted.contradictions == []
    decreases s.maxRetries + 1 - k
  {
    if k <= s.maxRetries {
      match Extraction.TryReply(provider(k, Extraction.InvalidResponse in failures), s)
      case Bad(error) =>
        if Extraction.Retryable(error) && k < s.maxRetries {
          DegradedAsksNothing(provider, s, k + 1, failures + [error]);
        }
      case _ =>
    }
  }

  // ---------------------------------------------------------------- do-not-contact, from the message to the score

  /** The signals a result asks to be scored with: each candidate, as an accepted signal. */
  ghost predicate SignalsOf(signals: seq<Scoring.Signal>, candidates: map<Signals.SignalCode, Extraction.Candidate>, now: int) {
    && (forall code :: code in candidates ==>
          Scoring.Signal(code, candidates[code].confidence, now, Scoring.AcceptedSignal) in signals)
    && (forall s :: s in signals ==> s.code in candidates)
  }

  /** When a selected message asks not to be contacted, then for every provider and under every valid policy with a
      do-not-contact rule on that signal alone, scoring the result stops automation and hands off to nobody. */
  lemma DoNotContactStopsTheScore(
    messages: seq<Context.Message>, context: Context.PreparedContext, s: Extraction.Setup,
    provider: (nat, bool) -> Extraction.Reply, p: Scoring.Policy, rule: Scoring.Penalty,
    signals: seq<Scoring.Signal>, now: int, i: nat)
    requires Context.FindsControls(context.controls, Context.Originals(context.messages))
    requires s.prepared.deterministic == context.controls
    requires i < |context.messages| && context.messages[i].message.doNotContact
    requires Scoring.ValidPolicy(p) && rule in p.penalties && rule.effect == Scoring.DoNotContactEffect
    requires rule.required == {Signals.DoNotContactSignal}
    requires !Extraction.AttemptsFrom(provider, s, 0, []).Escaped?
    requires SignalsOf(signals, Extraction.Candidates(Extraction.AttemptsFrom(provider, s, 0, []).accepted), now)
    ensures var answer := Scoring.EvaluateCodes(p, Scoring.UsableCodes(signals, p.header.minimumConfidence));
            && answer.Evaluated? && answer.evaluation.action == Scoring.StopAutomation
            && answer.evaluation.handoff == Scoring.HandoffAdvice(false, false, [])
  {
    FoundControlsAreCertain(context.controls, Context.Originals(context.messages));
    assert Context.Originals(context.messages)[i].doNotContact;
    Extraction.DoNotContactSurvives(provider, s);
    var candidates := Extraction.Candidates(Extraction.AttemptsFrom(provider, s, 0, []).accepted);
    var signal := Scoring.Signal(
      Signals.DoNotContactSignal, candidates[Signals.DoNotContactSignal].confidence, now, Scoring.AcceptedSignal);
    Theorems.DoNotContactStops(p, signals, rule, signal);
  }
}
