// The commits of a lead in a run of the protocol, and the durable rows they leave: what the profile pipeline and the
// signal rows are proved to do over any run of commits holds of the commits the protocol makes.
module ProtocolHistory {
  import opened Wrappers
  import opened Protocol
  import opened ProtocolLeases
  import opened ProtocolFencing
  import opened ProtocolEffects
  import opened ProtocolProfile
  import Profile
  import Theorems = ProfileTheorems
  import History = ProfileHistory
  import SignalHistory

  // ---------------------------------------------------------------- the commits of a run

  /** What the applying step commits to the lead's value rows, under the identifier its execution is stored with. */
  ghost function CommitOf(s: System, step: Step, config: Config, l: Id): History.Commit
    requires AppliesToLead(s, step, config, l)
  {
    History.Commit(step.ext.resolved, s.db.messages[s.workers[step.token].claim.message].correctionText, s.db.nextId)
  }

  /** What it commits to the lead's signal rows. */
  ghost function BatchOf(s: System, step: Step, config: Config, l: Id): SignalHistory.Batch
    requires AppliesToLead(s, step, config, l)
  {
    SignalHistory.Batch(step.ext.signals, s.db.nextId)
  }

  /** The value commits of a lead in a run: those of its applying steps, in order. */
  ghost function CommitsOf(steps: seq<Step>, config: Config, l: Id): seq<History.Commit> {
    if steps == [] then []
    else
      var front, step := steps[..|steps| - 1], steps[|steps| - 1];
      var before, s := CommitsOf(front, config, l), Run(front, config);
      if AppliesToLead(s, step, config, l) then before + [CommitOf(s, step, config, l)] else before
  }

  /** The signal commits of a lead in a run. */
  ghost function BatchesOf(steps: seq<Step>, config: Config, l: Id): seq<SignalHistory.Batch> {
    if steps == [] then []
    else
      var front, step := steps[..|steps| - 1], steps[|steps| - 1];
      var before, s := BatchesOf(front, config, l), Run(front, config);
      if AppliesToLead(s, step, config, l) then before + [BatchOf(s, step, config, l)] else before
  }

  /** The identifiers of the executions stored for a lead, in order. */
  function ExecutionIds(executions: seq<Execution>, l: Id): seq<Id> {
    if executions == [] then []
    else
      var last := executions[|executions| - 1];
      ExecutionIds(executions[..|executions| - 1], l) + (if last.lead == l then [last.id] else [])
  }

  lemma ExecutionIdsAppend(executions: seq<Execution>, e: Execution, l: Id)
    ensures ExecutionIds(executions + [e], l) == ExecutionIds(executions, l) + (if e.lead == l then [e.id] else [])
  {
    assert (executions + [e])[..|executions|] == executions;
  }

  // ---------------------------------------------------------------- what the commits are

  /** The facts are the fold of the commits, one per version after the first, all of them resolver output. */
  ghost predicate MadeBy(lead: Lead, commits: seq<History.Commit>) {
    && |commits| + 1 == lead.version
    && History.ProfileAfter(commits) == lead.facts
    && (forall i :: 0 <= i < |commits| ==> Theorems.FromResolver(commits[i].resolved))
  }

  /** The commits carry the identifiers of the stored executions, ascending and issued. */
  ghost predicate Stored(commits: seq<History.Commit>, ids: seq<Id>, nextId: Id) {
    && |commits| == |ids|
    && (forall i :: 0 <= i < |ids| ==> commits[i].execution == ids[i] < nextId)
    && (forall i, j :: 0 <= i < j < |ids| ==> ids[i] < ids[j])
  }

  ghost predicate AllAccepted(signals: seq<SignalHistory.Signal>) {
    forall i :: 0 <= i < |signals| ==> signals[i].status == Profile.Accepted
  }

  /** The signal commits run beside the value commits, each of accepted signals of distinct codes. */
  ghost predicate Beside(batches: seq<SignalHistory.Batch>, commits: seq<History.Commit>) {
    && |batches| == |commits|
    && (forall i :: 0 <= i < |batches| ==>
          && batches[i].execution == commits[i].execution
          && SignalHistory.DistinctCodes(batches[i].signals) && AllAccepted(batches[i].signals))
  }

  ghost predicate Recorded(db: Db, commits: seq<History.Commit>, batches: seq<SignalHistory.Batch>, l: Id) {
    && (l in db.leads ==> MadeBy(db.leads[l], commits))
    && (l !in db.leads ==> commits == [])
    && Stored(commits, ExecutionIds(db.executions, l), db.nextId)
    && Beside(batches, commits)
  }

  lemma CommitExtends(lead: Lead, after: Lead, commits: seq<History.Commit>, c: History.Commit)
    requires MadeBy(lead, commits) && Theorems.FromResolver(c.resolved)
    requires after.version == lead.version + 1
    requires after.facts == Profile.PipelineFacts(lead.facts, c.resolved, c.correction)
    ensures MadeBy(after, commits + [c])
  {
    var more := commits + [c];
    assert more[..|more| - 1] == commits;
  }

  lemma StoredExtends(commits: seq<History.Commit>, ids: seq<Id>, c: History.Commit, nextId: Id, later: Id)
    requires Stored(commits, ids, nextId) && c.execution == nextId && nextId < later
    ensures Stored(commits + [c], ids + [nextId], later)
  {
  }

  /** What an applied extraction does to the executions of a lead. */
  lemma AppliedExecutions(s: System, step: Step, config: Config, l: Id)
    requires AppliesExtraction(s, step, Next(s, step, config))
    ensures var own := s.db.conversations[s.workers[step.token].claim.conversation].lead;
            var t := Next(s, step, config);
            && t.db.nextId > s.db.nextId
            && ExecutionIds(t.db.executions, l)
               == ExecutionIds(s.db.executions, l) + (if own == l then [s.db.nextId] else [])
  {
    var w := s.workers[step.token];
    var own := s.db.conversations[w.claim.conversation].lead;
    var after := WithEffects(s.db, w.claim, step.ext, PlanCommit(s.db, w.claim, w.phase.context, step.ext, step.verdict));
    ExecutionIdsAppend(s.db.executions, after.executions[|s.db.executions|], l);
  }

  lemma AppliedVersion(s: System, step: Step, config: Config, l: Id)
    requires AppliesToLead(s, step, config, l)
    ensures l in s.db.leads && l in Next(s, step, config).db.leads
    ensures Next(s, step, config).db.leads[l].version == s.db.leads[l].version + 1
  {
  }

  lemma AppliedIsRecorded(
    s: System, step: Step, config: Config, l: Id, commits: seq<History.Commit>, batches: seq<SignalHistory.Batch>)
    requires ContextsKnown(s) && AppliesToLead(s, step, config, l) && Recorded(s.db, commits, batches, l)
    ensures Recorded(Next(s, step, config).db, commits + [CommitOf(s, step, config, l)],
                     batches + [BatchOf(s, step, config, l)], l)
  {
    var c, t := CommitOf(s, step, config, l), Next(s, step, config);
    AppliedVersion(s, step, config, l);
    CommitRunsThePipeline(s, step, config, l);
    CommitExtends(s.db.leads[l], t.db.leads[l], commits, c);
    AppliedExecutions(s, step, config, l);
    StoredExtends(commits, ExecutionIds(s.db.executions, l), c, s.db.nextId, t.db.nextId);
  }

  lemma OtherLeadIsSame(s: System, step: Step, config: Config, l: Id)
    requires Refs(s.db) && l in Next(s, step, config).db.leads && !AppliesToLead(s, step, config, l)
    ensures if l in s.db.leads
            then Next(s, step, config).db.leads[l].facts == s.db.leads[l].facts
                 && Next(s, step, config).db.leads[l].version == s.db.leads[l].version
            else Next(s, step, config).db.leads[l].facts == map[] && Next(s, step, config).db.leads[l].version == 1
  {
    var t := Next(s, step, config);
    NextEffects(s, step, config);
    if AppliesExtraction(s, step, t) {
      var own := s.db.conversations[s.workers[step.token].claim.conversation].lead;
      assert t.db.leads == s.db.leads[own := t.db.leads[own]];
    }
  }

  lemma OtherExecutionsSame(s: System, step: Step, config: Config, l: Id)
    requires Refs(s.db) && !AppliesToLead(s, step, config, l)
    ensures s.db.nextId <= Next(s, step, config).db.nextId
    ensures ExecutionIds(Next(s, step, config).db.executions, l) == ExecutionIds(s.db.executions, l)
    ensures l in s.db.leads ==> l in Next(s, step, config).db.leads
  {
    var t := Next(s, step, config);
    NextEffects(s, step, config);
    if AppliesExtraction(s, step, t) {
      AppliedExecutions(s, step, config, l);
    }
  }

  lemma OtherIsRecorded(
    s: System, step: Step, config: Config, l: Id, commits: seq<History.Commit>, batches: seq<SignalHistory.Batch>)
    requires Refs(s.db) && !AppliesToLead(s, step, config, l) && Recorded(s.db, commits, batches, l)
    ensures Recorded(Next(s, step, config).db, commits, batches, l)
  {
    var t := Next(s, step, config);
    OtherExecutionsSame(s, step, config, l);
    if l in t.db.leads {
      OtherLeadIsSame(s, step, config, l);
      if l in s.db.leads {
        assert MadeBy(t.db.leads[l], commits);
      } else {
        assert MadeBy(t.db.leads[l], []);
      }
    }
  }

  /** In every run the commits of a lead are recorded: one per version, under its stored executions, in order. */
  lemma {:induction false} RunsRecordCommits(steps: seq<Step>, config: Config, l: Id)
    ensures Recorded(Run(steps, config).db, CommitsOf(steps, config, l), BatchesOf(steps, config, l), l)
  {
    if steps != [] {
      var front, step := steps[..|steps| - 1], steps[|steps| - 1];
      RunsRecordCommits(front, config, l);
      RunsHaveRefs(front, config);
      RunsKnowTheirContexts(front, config);
      if AppliesToLead(Run(front, config), step, config, l) {
        AppliedIsRecorded(Run(front, config), step, config, l, CommitsOf(front, config, l), BatchesOf(front, config, l));
      } else {
        OtherIsRecorded(Run(front, config), step, config, l, CommitsOf(front, config, l), BatchesOf(front, config, l));
      }
    }
  }

  // ---------------------------------------------------------------- the durable rows

  lemma RecordedIsDurable(db: Db, commits: seq<History.Commit>, batches: seq<SignalHistory.Batch>, l: Id)
    requires Recorded(db, commits, batches, l)
    ensures History.HistoryAfter(commits).Some?
    ensures History.Clean(History.HistoryAfter(commits).value, History.ProfileAfter(commits))
  {
    forall c: History.Commit | c in commits ensures Theorems.FromResolver(c.resolved) {
      var i :| 0 <= i < |commits| && commits[i] == c;
    }
    if l !in db.leads {
      assert commits == [];
    }
    CommitsHaveDistinctExecutions(commits, ExecutionIds(db.executions, l), db.nextId);
    History.HistoryRepresentsProfile(commits);
  }

  lemma CommitsHaveDistinctExecutions(commits: seq<History.Commit>, ids: seq<Id>, nextId: Id)
    requires Stored(commits, ids, nextId)
    ensures forall i, j :: 0 <= i < j < |commits| ==> commits[i].execution != commits[j].execution
  {
  }

  /** In every run the facts of a lead are the fold of the run's own commits to it, made under its stored executions, one
      per version after the first; persisting exactly these commits never aborts and leaves durable rows that represent
      exactly these facts. */
  lemma LeadFactsAreDurable(steps: seq<Step>, config: Config, l: Id)
    requires l in Run(steps, config).db.leads
    ensures var commits, db := CommitsOf(steps, config, l), Run(steps, config).db;
            && |commits| + 1 == db.leads[l].version
            && Stored(commits, ExecutionIds(db.executions, l), db.nextId)
            && History.ProfileAfter(commits) == db.leads[l].facts
            && History.HistoryAfter(commits).Some?
            && History.Clean(History.HistoryAfter(commits).value, db.leads[l].facts)
  {
    RunsRecordCommits(steps, config, l);
    RecordedIsDurable(Run(steps, config).db, CommitsOf(steps, config, l), BatchesOf(steps, config, l), l);
  }

  lemma BesideIsGood(batches: seq<SignalHistory.Batch>, commits: seq<History.Commit>, ids: seq<Id>, nextId: Id)
    requires Beside(batches, commits) && Stored(commits, ids, nextId)
    ensures SignalHistory.GoodBatches(batches)
  {
  }

  /** In every run the signal rows of a lead mean what they should: a row is active iff its signal was accepted or confirmed
      and no later signal of the lead shares an exclusive group with it. */
  lemma LeadSignalsMeanLatest(steps: seq<Step>, config: Config, l: Id)
    ensures SignalHistory.GoodBatches(BatchesOf(steps, config, l))
    ensures SignalHistory.ActiveMeansLatest(SignalHistory.RowsAfter(BatchesOf(steps, config, l)))
    ensures SignalHistory.RowsAre(SignalHistory.RowsAfter(BatchesOf(steps, config, l)),
                                  SignalHistory.AllSignals(BatchesOf(steps, config, l)))
  {
    RunsRecordCommits(steps, config, l);
    var db := Run(steps, config).db;
    BesideIsGood(BatchesOf(steps, config, l), CommitsOf(steps, config, l), ExecutionIds(db.executions, l), db.nextId);
    SignalHistory.RunsMeanLatest(BatchesOf(steps, config, l));
  }
}
