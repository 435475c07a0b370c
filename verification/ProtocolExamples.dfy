// Two concrete runs: a first question that is refused, and a stale worker that still owns its row.
module ProtocolExamples {
  import opened Wrappers
  import opened StateMachines
  import opened Protocol
  import opened ProtocolFencing
  import opened ProtocolEffects
  import Profile
  import Theorems = ProfileTheorems

  const CONFIG := Config(3, 10)
  const FIRST := Command(1, 1, 1, 0, 0, false, false)
  // Sent before the first message, but received after it was claimed.
  const EARLIER := Command(1, 1, 2, 0, -1, false, false)
  const UNIDENTIFIED := Theorems.Opportunity(Theorems.UNIDENTIFIED, [])
  const NEW_LEAD := Lead(0, New, 1, UNIDENTIFIED, None, map[])
  const FRESH := Conversation(0, 2, Open, true, None)
  const FIRST_MESSAGE := Message(1, 0, 0, 0, false, false, Pending)
  const FIRST_ROW := Row(4, 1, Pending, 0, None, 0, None, None)

  const INGESTED := Db(5, map[1 := 0], map[0 := Contact(false)], map[1 := 1], map[1 := FRESH], map[2 := NEW_LEAD],
                       map[1 := 3], map[3 := FIRST_MESSAGE], map[3 := FIRST_ROW], [], [], [], [])

  const FIRST_CLAIM := Claim(4, 1, 3, 5, 1)

  const CLAIMED := INGESTED.(
    nextId := 6, conversations := map[1 := FRESH.(lease := Some(Lease(3, 5, 10)))],
    rows := map[3 := FIRST_ROW.(status := Processing, attempts := 1, lease := Some(RowLease(5, 10)))],
    messages := map[3 := FIRST_MESSAGE.(status := Processing)])

  lemma RunOneMore(steps: seq<Step>, step: Step, s: System)
    requires Run(steps, CONFIG) == s
    ensures Run(steps + [step], CONFIG) == Next(s, step, CONFIG)
  {
    assert (steps + [step])[..|steps|] == steps;
  }

  lemma FirstIngest()
    ensures Ingest(EMPTY, FIRST, 0) == Created(INGESTED)
  {
    var db1 := WithContact(EMPTY, FIRST);
    assert db1 == EMPTY.(nextId := 1, contactIndex := map[1 := 0], contacts := map[0 := Contact(false)]);
    var db2 := WithConversation(db1, FIRST, 0);
    assert db2 == db1.(nextId := 3, conversationIndex := map[1 := 1], conversations := map[1 := FRESH],
                       leads := map[2 := NEW_LEAD]);
    assert WithMessage(db2, FIRST, 1, 0) == INGESTED;
  }

  lemma FirstCandidate()
    ensures Candidate(INGESTED, 0, {}, 3)
  {
    assert Eligible(INGESTED, 0, 3);
    assert forall other :: Eligible(INGESTED, 0, other) ==> other == 3;
  }

  lemma FirstClaim()
    ensures ClaimMessage(INGESTED, 3, 10) == CLAIMED && ClaimOf(INGESTED, 3) == FIRST_CLAIM
  {
  }

  /** The first message ingested and claimed. */
  lemma ClaimedRun() returns (steps: seq<Step>)
    ensures Run(steps, CONFIG) == System(CLAIMED, map[5 := Worker(FIRST_CLAIM, Claimed)], [Claiming(FIRST_CLAIM)])
  {
    FirstIngest();
    FirstCandidate();
    FirstClaim();
    RunOneMore([], IngestStep(FIRST, 0), START);
    assert [] + [IngestStep(FIRST, 0)] == [IngestStep(FIRST, 0)];
    var ingested := System(INGESTED, map[], []);
    RunOneMore([IngestStep(FIRST, 0)], ClaimStep(3, {}, 0), ingested);
    steps := [IngestStep(FIRST, 0)] + [ClaimStep(3, {}, 0)];
  }

  const ASKING := Extraction(1, [3], [], UNIDENTIFIED, false, false, false, false, Some(Profile.Attribute(1)), false, 0, [])
  const QUIET := Verdict(false, false, false)

  lemma FirstPrepare()
    ensures Prepare(CLAIMED, FIRST_CLAIM) == Ready(Context(1, map[], false))
    ensures Admitted(CLAIMED, FIRST_CLAIM, Context(1, map[], false), ASKING)
  {
  }

  /** The worker is about to commit an honest extraction that the state machines refuse; it then stops, unrecorded. */
  ghost predicate RefusedAt(s: System, token: Id, ext: Extraction, verdict: Verdict) {
    && token in s.workers && s.workers[token].phase.ReadyToFinalize?
    && Honest(s.db, ext) && ValidExtraction(s.workers[token].claim, ext)
    && Finalize(s.db, s.workers[token].claim, s.workers[token].phase.context, ext, verdict) == Abort(InvalidTransition)
    && Next(s, FinalizeStep(token, ext, verdict), CONFIG) == SetPhase(s, token, Stopped)
  }

  /** The first message ingested, claimed and prepared. */
  lemma PreparedRun(context: Context) returns (steps: seq<Step>)
    requires context == Context(1, map[], false)
    ensures var s := Run(steps, CONFIG);
            s.db == CLAIMED && 5 in s.workers && s.workers[5] == Worker(FIRST_CLAIM, ReadyToFinalize(context))
  {
    var claimed := ClaimedRun();
    FirstPrepare();
    RunOneMore(claimed, PrepareStep(5), Run(claimed, CONFIG));
    steps := claimed + [PrepareStep(5)];
  }

  /** The conversation transition is not always allowed: the very first message of a conversation, honestly extracted
      into a question, is refused, and its worker stops with nothing recorded. */
  lemma FirstQuestionIsRefused()
    ensures exists steps, token, ext, verdict :: RefusedAt(Run(steps, CONFIG), token, ext, verdict)
  {
    var context := Context(1, map[], false);
    var steps := PreparedRun(context);
    FirstPrepare();
    OnlyTheFirstQuestionIsRefused(steps, CONFIG, FIRST_CLAIM, context, ASKING, QUIET);
    RefusedOnce(Run(steps, CONFIG), 5, context);
  }

  lemma RefusedOnce(s: System, token: Id, context: Context)
    requires s.db == CLAIMED && token in s.workers && s.workers[token] == Worker(FIRST_CLAIM, ReadyToFinalize(context))
    requires Finalize(CLAIMED, FIRST_CLAIM, context, ASKING, QUIET) == Abort(InvalidTransition)
    ensures RefusedAt(s, token, ASKING, QUIET)
  {
    AskingIsHonest();
    RefusalStops(s, token, ASKING, QUIET);
  }

  lemma RefusalStops(s: System, token: Id, ext: Extraction, verdict: Verdict)
    requires token in s.workers && s.workers[token].phase.ReadyToFinalize?
    requires Honest(s.db, ext) && ValidExtraction(s.workers[token].claim, ext)
    requires Finalize(s.db, s.workers[token].claim, s.workers[token].phase.context, ext, verdict) == Abort(InvalidTransition)
    ensures RefusedAt(s, token, ext, verdict)
  {
    assert AfterError(InvalidTransition) == Stopped;
  }

  lemma AskingIsHonest()
    ensures Honest(CLAIMED, ASKING) && ValidExtraction(FIRST_CLAIM, ASKING)
  {
  }

  // ---------------------------------------------------------------- a stale worker

  const EARLIER_ROW := Row(10, 1, Pending, 0, None, 5, None, None)
  const EARLIER_MESSAGE := Message(1, 0, -1, 5, false, false, Pending)

  const BOTH := CLAIMED.(
    nextId := 11, messageIndex := map[1 := 3, 2 := 9],
    messages := map[3 := FIRST_MESSAGE.(status := Processing), 9 := EARLIER_MESSAGE],
    rows := map[3 := FIRST_ROW.(status := Processing, attempts := 1, lease := Some(RowLease(5, 10))), 9 := EARLIER_ROW])

  lemma SecondIngest()
    ensures Ingest(CLAIMED, EARLIER, 5) == Created(BOTH)
  {
    var db1 := WithContact(CLAIMED, EARLIER);
    assert db1 == CLAIMED.(nextId := 7);
    var db2 := WithConversation(db1, EARLIER, 0);
    assert db2 == CLAIMED.(nextId := 9);
    assert WithMessage(db2, EARLIER, 1, 5) == BOTH;
  }

  lemma TakeOver()
    ensures Candidate(BOTH, 20, {}, 9)
  {
    assert Eligible(BOTH, 20, 9);
    assert forall other :: Eligible(BOTH, 20, other) ==> other == 3 || other == 9;
  }

  /** The worker's row still carries its token, but its conversation was claimed again. */
  ghost predicate StaleButOwning(s: System, token: Id) {
    && token in s.workers
    && OwnsRow(s.db, s.workers[token].claim) && !OwnsConversation(s.db, s.workers[token].claim)
    && LastClaim(s.log, s.workers[token].claim.conversation) != Some(token)
  }

  lemma TakenOver(s: System)
    requires s.db == ClaimMessage(BOTH, 9, 30) && 5 in s.workers && s.workers[5].claim == FIRST_CLAIM
    requires s.log == [Claiming(FIRST_CLAIM)] + [Claiming(ClaimOf(BOTH, 9))]
    ensures StaleButOwning(s, 5)
  {
    LastClaimAppend([Claiming(FIRST_CLAIM)], Claiming(ClaimOf(BOTH, 9)), 1);
    assert s.db.rows[3] == BOTH.rows[3];
  }

  lemma BothIngested(workers: map<Id, Worker>) returns (both: seq<Step>)
    requires workers == map[5 := Worker(FIRST_CLAIM, Claimed)]
    ensures Run(both, CONFIG) == System(BOTH, workers, [Claiming(FIRST_CLAIM)])
  {
    var claimed := ClaimedRun();
    SecondIngest();
    RunOneMore(claimed, IngestStep(EARLIER, 5), System(CLAIMED, workers, [Claiming(FIRST_CLAIM)]));
    both := claimed + [IngestStep(EARLIER, 5)];
  }

  /** A worker whose lease expired and whose conversation was claimed for another message still finds its own row
      PROCESSING under its own token: only the conversation's lease tells it that it is stale. */
  lemma StaleWorkerStillOwnsItsRow()
    ensures exists steps, token :: StaleButOwning(Run(steps, CONFIG), token)
  {
    var workers := map[5 := Worker(FIRST_CLAIM, Claimed)];
    var both := BothIngested(workers);
    TakeOver();
    RunOneMore(both, ClaimStep(9, {}, 20), System(BOTH, workers, [Claiming(FIRST_CLAIM)]));
    TakenOver(Run(both + [ClaimStep(9, {}, 20)], CONFIG));
  }
}
