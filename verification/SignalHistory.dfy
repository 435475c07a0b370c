// Persisted commercial signals: an append-only list whose active flags are switched off
// one exclusive group at a time.
module SignalHistory {
  import opened Wrappers
  import opened Signals
  import opened Profile
  import Sorting

  datatype Signal = Signal(
    code: SignalCode, message: Option<int>, confidence: int, observedAt: int, status: ValidationStatus)

  ghost predicate DistinctCodes(signals: seq<Signal>) {
    forall i, j :: 0 <= i < j < |signals| ==> signals[i].code != signals[j].code
  }

  /** Some accepted or confirmed signal has the code. */
  ghost predicate Names(signals: seq<Signal>, code: SignalCode) {
    exists i :: 0 <= i < |signals| && signals[i].code == code && CountsAsActive(signals[i].status)
  }

  /** Some accepted or confirmed signal has the code and at least the confidence. */
  ghost predicate Says(signals: seq<Signal>, code: SignalCode, least: int) {
    exists i :: 0 <= i < |signals| && signals[i].code == code && CountsAsActive(signals[i].status) && signals[i].confidence >= least
  }

  datatype SignalRow = SignalRow(signal: Signal, execution: int, active: bool)

  predicate CountsAsActive(status: ValidationStatus) {
    status == Accepted || status == Confirmed
  }

  predicate HasSignalKey(row: SignalRow, signal: Signal, execution: int) {
    row.execution == execution && row.signal.code == signal.code && row.signal.message == signal.message
  }

  function Deactivate(rows: seq<SignalRow>, group: ExclusiveGroup): (r: seq<SignalRow>)
    ensures |r| == |rows|
    ensures forall i :: 0 <= i < |rows| ==>
      r[i] == rows[i].(active := rows[i].active && !InGroup(rows[i].signal.code, group))
  {
    seq(|rows|, i requires 0 <= i < |rows| =>
      rows[i].(active := rows[i].active && !InGroup(rows[i].signal.code, group)))
  }

  /** Switch off the groups of the code, in the order the groups are listed. */
  function DeactivateGroups(rows: seq<SignalRow>, code: SignalCode, groups: seq<ExclusiveGroup>): seq<SignalRow> {
    if groups == [] then rows
    else
      var before := DeactivateGroups(rows, code, groups[..|groups| - 1]);
      var group := groups[|groups| - 1];
      if InGroup(code, group) then Deactivate(before, group) else before
  }

  /** The position of the row with this application key, or the end. */
  function SignalSlot(rows: seq<SignalRow>, signal: Signal, execution: int): (i: nat)
    ensures i <= |rows|
    ensures i < |rows| ==> HasSignalKey(rows[i], signal, execution)
    ensures forall j :: 0 <= j < i ==> !HasSignalKey(rows[j], signal, execution)
  {
    if rows == [] then 0 else if HasSignalKey(rows[0], signal, execution) then 0
    else 1 + SignalSlot(rows[1..], signal, execution)
  }

  function PersistOne(rows: seq<SignalRow>, signal: Signal, execution: int): seq<SignalRow> {
    var off := DeactivateGroups(rows, signal.code, EXCLUSIVE_GROUPS);
    if SignalSlot(off, signal, execution) < |off| then off
    else off + [SignalRow(signal, execution, CountsAsActive(signal.status))]
  }

  function PersistAll(rows: seq<SignalRow>, signals: seq<Signal>, execution: int): seq<SignalRow> {
    if signals == [] then rows
    else PersistOne(PersistAll(rows, signals[..|signals| - 1], execution), signals[|signals| - 1], execution)
  }

  /** The declarative meaning: accepted or confirmed, and no later row shares an exclusive group. */
  ghost predicate ActiveMeansLatest(rows: seq<SignalRow>) {
    forall i :: 0 <= i < |rows| ==>
      (rows[i].active <==>
       CountsAsActive(rows[i].signal.status)
       && forall j :: i < j < |rows| ==> !SharesGroup(rows[i].signal.code, rows[j].signal.code))
  }

  /** The three passes switch off exactly the rows that share a group with the code. */
  lemma GroupsDeactivate(rows: seq<SignalRow>, code: SignalCode)
    ensures var off := DeactivateGroups(rows, code, EXCLUSIVE_GROUPS);
            && |off| == |rows|
            && forall i :: 0 <= i < |rows| ==>
                 off[i] == rows[i].(active := rows[i].active && !SharesGroup(rows[i].signal.code, code))
  {
    var g := EXCLUSIVE_GROUPS;
    assert g[..2] == [Intent, Urgency] && g[..2][..1] == [Intent] && [Intent][..0] == [];
    var r0 := DeactivateGroups(rows, code, []);
    var r1 := DeactivateGroups(rows, code, [Intent]);
    var r2 := DeactivateGroups(rows, code, [Intent, Urgency]);
    assert r1 == if InGroup(code, Intent) then Deactivate(r0, Intent) else r0;
    assert r2 == if InGroup(code, Urgency) then Deactivate(r1, Urgency) else r1;
  }

  ghost predicate FreshKey(rows: seq<SignalRow>, signal: Signal, execution: int) {
    forall i :: 0 <= i < |rows| ==> !HasSignalKey(rows[i], signal, execution)
  }

  lemma PersistOneKeepsMeaning(rows: seq<SignalRow>, signal: Signal, execution: int)
    requires ActiveMeansLatest(rows) && FreshKey(rows, signal, execution)
    ensures ActiveMeansLatest(PersistOne(rows, signal, execution))
    ensures |PersistOne(rows, signal, execution)| == |rows| + 1
    ensures PersistOne(rows, signal, execution)[|rows|].signal == signal
    ensures PersistOne(rows, signal, execution)[|rows|].execution == execution
    ensures forall i :: 0 <= i < |rows| ==>
      && PersistOne(rows, signal, execution)[i].signal == rows[i].signal
      && PersistOne(rows, signal, execution)[i].execution == rows[i].execution
  {
    GroupsDeactivate(rows, signal.code);
    var after := PersistOne(rows, signal, execution);
    forall i | 0 <= i < |rows|
      ensures after[i].active <==>
              CountsAsActive(after[i].signal.status)
              && forall j :: i < j < |after| ==> !SharesGroup(after[i].signal.code, after[j].signal.code)
    {
      assert after[|rows|].signal == signal;
      assert forall j :: i < j < |rows| ==> after[j].signal == rows[j].signal;
    }
  }

  /** The rows after persisting: the old ones in place, then one per signal, in order. */
  ghost predicate Persisted(rows: seq<SignalRow>, after: seq<SignalRow>, signals: seq<Signal>, execution: int) {
    && |after| == |rows| + |signals|
    && (forall i :: 0 <= i < |rows| ==> after[i].signal == rows[i].signal && after[i].execution == rows[i].execution)
    && (forall i :: 0 <= i < |signals| ==>
          after[|rows| + i].signal == signals[i] && after[|rows| + i].execution == execution)
  }

  lemma NextKeyIsFresh(rows: seq<SignalRow>, before: seq<SignalRow>, front: seq<Signal>, signal: Signal, execution: int)
    requires Persisted(rows, before, front, execution)
    requires forall i :: 0 <= i < |rows| ==> rows[i].execution != execution
    requires forall i :: 0 <= i < |front| ==> front[i].code != signal.code
    ensures FreshKey(before, signal, execution)
  {
    forall i | 0 <= i < |before| ensures !HasSignalKey(before[i], signal, execution) {
      if i >= |rows| {
        assert before[|rows| + (i - |rows|)].signal == front[i - |rows|];
      }
    }
  }

  lemma OneMorePersisted(
    rows: seq<SignalRow>, before: seq<SignalRow>, after: seq<SignalRow>, front: seq<Signal>, signal: Signal, execution: int)
    requires Persisted(rows, before, front, execution) && |after| == |before| + 1
    requires after[|before|].signal == signal && after[|before|].execution == execution
    requires forall i :: 0 <= i < |before| ==> after[i].signal == before[i].signal && after[i].execution == before[i].execution
    ensures Persisted(rows, after, front + [signal], execution)
  {
  }

  /** Persisting one execution's signals, codes pairwise distinct, keeps the declarative meaning. */
  lemma {:induction false} PersistAllKeepsMeaning(rows: seq<SignalRow>, signals: seq<Signal>, execution: int)
    requires ActiveMeansLatest(rows)
    requires forall i :: 0 <= i < |rows| ==> rows[i].execution != execution
    requires DistinctCodes(signals)
    ensures ActiveMeansLatest(PersistAll(rows, signals, execution))
    ensures Persisted(rows, PersistAll(rows, signals, execution), signals, execution)
  {
    if signals != [] {
      var front, last := signals[..|signals| - 1], signals[|signals| - 1];
      PersistAllKeepsMeaning(rows, front, execution);
      var before := PersistAll(rows, front, execution);
      NextKeyIsFresh(rows, before, front, last, execution);
      PersistOneKeepsMeaning(before, last, execution);
      OneMorePersisted(rows, before, PersistOne(before, last, execution), front, last, execution);
      assert signals == front + [last];
    }
  }

  /** No two active rows share a group, although RESEARCH_ONLY belongs to two of them. */
  lemma OneActiveRowPerGroup(rows: seq<SignalRow>, group: ExclusiveGroup, i: nat, j: nat)
    requires ActiveMeansLatest(rows) && i < |rows| && j < |rows|
    requires rows[i].active && rows[j].active
    requires InGroup(rows[i].signal.code, group) && InGroup(rows[j].signal.code, group)
    ensures i == j
  {
    assert SharesGroup(rows[i].signal.code, rows[j].signal.code) && SharesGroup(rows[j].signal.code, rows[i].signal.code);
  }

  /** A signal outside every group, such as do-not-contact, stays active through every later commit. */
  lemma {:induction false} UngroupedSignalStaysActive(rows: seq<SignalRow>, signals: seq<Signal>, execution: int, i: nat)
    requires i < |rows| && rows[i].active
    requires forall g :: !InGroup(rows[i].signal.code, g)
    ensures |PersistAll(rows, signals, execution)| >= |rows|
    ensures PersistAll(rows, signals, execution)[i] == rows[i]
  {
    if signals != [] {
      UngroupedSignalStaysActive(rows, signals[..|signals| - 1], execution, i);
      GroupsDeactivate(PersistAll(rows, signals[..|signals| - 1], execution), signals[|signals| - 1].code);
    }
  }

  /** Replaying a persisted signal switches its row off and inserts nothing: the key blocks the insertion. */
  lemma ReplaySwitchesOff(rows: seq<SignalRow>, signal: Signal, execution: int, i: nat)
    requires i < |rows| && HasSignalKey(rows[i], signal, execution)
    ensures |PersistOne(rows, signal, execution)| == |rows|
    ensures SharesGroup(signal.code, signal.code) ==> !PersistOne(rows, signal, execution)[i].active
    ensures !SharesGroup(signal.code, signal.code) ==> PersistOne(rows, signal, execution)[i] == rows[i]
  {
    GroupsDeactivate(rows, signal.code);
    var off := DeactivateGroups(rows, signal.code, EXCLUSIVE_GROUPS);
    assert HasSignalKey(off[i], signal, execution);
  }

  // ---------------------------------------------------------------- every run of commits

  // What one commit persists: the signals of its extraction under its execution.
  datatype Batch = Batch(signals: seq<Signal>, execution: int)

  function RowsAfter(batches: seq<Batch>): seq<SignalRow> {
    if batches == [] then []
    else PersistAll(RowsAfter(batches[..|batches| - 1]), batches[|batches| - 1].signals, batches[|batches| - 1].execution)
  }

  /** The signals of a run of commits, in order. */
  function AllSignals(batches: seq<Batch>): seq<Signal> {
    if batches == [] then [] else AllSignals(batches[..|batches| - 1]) + batches[|batches| - 1].signals
  }

  /** Every execution commits once, and a commit's signals have distinct codes. */
  ghost predicate GoodBatches(batches: seq<Batch>) {
    && (forall i :: 0 <= i < |batches| ==> DistinctCodes(batches[i].signals))
    && (forall i, j :: 0 <= i < j < |batches| ==> batches[i].execution != batches[j].execution)
  }

  /** The rows are the signals of the run, one for one and in order. */
  ghost predicate RowsAre(rows: seq<SignalRow>, signals: seq<Signal>) {
    |rows| == |signals| && forall i :: 0 <= i < |rows| ==> rows[i].signal == signals[i]
  }

  ghost predicate Commits(batches: seq<Batch>, execution: int) {
    exists b :: 0 <= b < |batches| && batches[b].execution == execution
  }

  ghost predicate ExecutionsAmong(rows: seq<SignalRow>, batches: seq<Batch>) {
    forall i :: 0 <= i < |rows| ==> Commits(batches, rows[i].execution)
  }

  lemma StillCommits(front: seq<Batch>, last: Batch, execution: int)
    ensures Commits(front, execution) ==> Commits(front + [last], execution)
    ensures Commits(front + [last], last.execution)
  {
    var batches := front + [last];
    assert batches[|front|] == last;
    if Commits(front, execution) {
      var b :| 0 <= b < |front| && front[b].execution == execution;
      assert batches[b].execution == execution;
    }
  }

  lemma PersistedAppends(
    rows: seq<SignalRow>, after: seq<SignalRow>, before: seq<Signal>, front: seq<Batch>, last: Batch)
    requires Persisted(rows, after, last.signals, last.execution)
    requires RowsAre(rows, before) && ExecutionsAmong(rows, front)
    ensures RowsAre(after, before + last.signals) && ExecutionsAmong(after, front + [last])
  {
    forall i | 0 <= i < |after|
      ensures after[i].signal == (before + last.signals)[i] && Commits(front + [last], after[i].execution)
    {
      StillCommits(front, last, after[i].execution);
      if i >= |rows| {
        assert after[|rows| + (i - |rows|)].signal == last.signals[i - |rows|];
      }
    }
  }

  lemma FreshExecution(rows: seq<SignalRow>, batches: seq<Batch>)
    requires GoodBatches(batches) && batches != [] && ExecutionsAmong(rows, batches[..|batches| - 1])
    ensures forall i :: 0 <= i < |rows| ==> rows[i].execution != batches[|batches| - 1].execution
  {
    var front := batches[..|batches| - 1];
    forall i | 0 <= i < |rows| ensures rows[i].execution != batches[|batches| - 1].execution {
      assert Commits(front, rows[i].execution);
      var b :| 0 <= b < |front| && front[b].execution == rows[i].execution;
      assert batches[b] == front[b];
    }
  }

  /** Over every run of commits the rows are its signals in order, and a row is active iff its signal was accepted or
      confirmed and no later signal of the run shares an exclusive group with it. */
  lemma {:induction false} RunsMeanLatest(batches: seq<Batch>)
    requires GoodBatches(batches)
    ensures ActiveMeansLatest(RowsAfter(batches))
    ensures RowsAre(RowsAfter(batches), AllSignals(batches)) && ExecutionsAmong(RowsAfter(batches), batches)
  {
    if batches != [] {
      var front, last := batches[..|batches| - 1], batches[|batches| - 1];
      assert batches == front + [last] && DistinctCodes(last.signals);
      RunsMeanLatest(front);
      FreshExecution(RowsAfter(front), batches);
      PersistAllKeepsMeaning(RowsAfter(front), last.signals, last.execution);
      PersistedAppends(RowsAfter(front), RowsAfter(batches), AllSignals(front), front, last);
    }
  }

  /** Over every run of commits each exclusive group has at most one active row. */
  lemma RunsHaveOneActivePerGroup(batches: seq<Batch>, group: ExclusiveGroup, i: nat, j: nat)
    requires GoodBatches(batches) && i < |RowsAfter(batches)| && j < |RowsAfter(batches)|
    requires RowsAfter(batches)[i].active && RowsAfter(batches)[j].active
    requires InGroup(RowsAfter(batches)[i].signal.code, group) && InGroup(RowsAfter(batches)[j].signal.code, group)
    ensures i == j
  {
    RunsMeanLatest(batches);
    OneActiveRowPerGroup(RowsAfter(batches), group, i, j);
  }

  // ---------------------------------------------------------------- loading the active signals

  /** The order of the load within one code: confidence, then recency. */
  predicate LoadOrder(a: Signal, b: Signal) {
    a.confidence > b.confidence || (a.confidence == b.confidence && a.observedAt >= b.observedAt)
  }

  function ActiveSignals(rows: seq<SignalRow>): seq<Signal> {
    if rows == [] then []
    else
      var rest, last := ActiveSignals(rows[..|rows| - 1]), rows[|rows| - 1];
      if last.active then rest + [last.signal] else rest
  }

  function FirstPerCode(signals: seq<Signal>): map<SignalCode, Signal> {
    if signals == [] then map[]
    else
      var rest, last := FirstPerCode(signals[..|signals| - 1]), signals[|signals| - 1];
      if last.code in rest then rest else rest[last.code := last]
  }

  /** What the load hands to the scoring engine: one active signal per code. */
  function Loaded(rows: seq<SignalRow>): map<SignalCode, Signal> {
    FirstPerCode(Sorting.Sort(ActiveSignals(rows), LoadOrder))
  }

  predicate IsActiveSignal(rows: seq<SignalRow>, s: Signal) {
    exists i :: 0 <= i < |rows| && rows[i].active && rows[i].signal == s
  }

  lemma {:induction false} ActiveMembers(rows: seq<SignalRow>, s: Signal)
    ensures s in ActiveSignals(rows) <==> IsActiveSignal(rows, s)
  {
    if rows != [] {
      var front := rows[..|rows| - 1];
      ActiveMembers(front, s);
      if IsActiveSignal(front, s) {
        var i :| 0 <= i < |front| && front[i].active && front[i].signal == s;
        assert rows[i].active && rows[i].signal == s;
      }
    }
  }

  lemma {:induction false} FirstPerCodeMembers(signals: seq<Signal>)
    ensures forall s :: s in signals ==> s.code in FirstPerCode(signals)
    ensures forall code :: code in FirstPerCode(signals) ==>
      FirstPerCode(signals)[code] in signals && FirstPerCode(signals)[code].code == code
  {
    if signals != [] {
      var front, last := signals[..|signals| - 1], signals[|signals| - 1];
      FirstPerCodeMembers(front);
      assert signals == front + [last];
    }
  }

  lemma {:induction false} FirstOfSorted(signals: seq<Signal>, s: Signal)
    requires Sorting.SortedBy(signals, LoadOrder) && s in signals
    ensures s.code in FirstPerCode(signals) && LoadOrder(FirstPerCode(signals)[s.code], s)
  {
    var front, last := signals[..|signals| - 1], signals[|signals| - 1];
    assert signals == front + [last];
    if s in front {
      FirstOfSorted(front, s);
    } else if s.code in FirstPerCode(front) {
      FirstComesFirst(signals);
    }
  }

  lemma FirstComesFirst(signals: seq<Signal>)
    requires Sorting.SortedBy(signals, LoadOrder) && signals != []
    requires signals[|signals| - 1].code in FirstPerCode(signals[..|signals| - 1])
    ensures LoadOrder(FirstPerCode(signals[..|signals| - 1])[signals[|signals| - 1].code], signals[|signals| - 1])
  {
    var front := signals[..|signals| - 1];
    FirstPerCodeMembers(front);
    var first := FirstPerCode(front)[signals[|signals| - 1].code];
    var i :| 0 <= i < |front| && front[i] == first;
    assert LoadOrder(signals[i], signals[|signals| - 1]);
  }

  /** The load answers exactly the codes with an active row, each with an active signal that none of its code outranks. */
  lemma LoadedIsStrongest(rows: seq<SignalRow>)
    ensures forall s :: IsActiveSignal(rows, s) ==> s.code in Loaded(rows) && LoadOrder(Loaded(rows)[s.code], s)
    ensures forall code :: code in Loaded(rows) ==> IsActiveSignal(rows, Loaded(rows)[code]) && Loaded(rows)[code].code == code
  {
    var active := ActiveSignals(rows);
    var sorted := Sorting.Sort(active, LoadOrder);
    assert Sorting.TotalPreorder(LoadOrder);
    Sorting.SortSorts(active, LoadOrder);
    Sorting.SortPermutes(active, LoadOrder);
    FirstPerCodeMembers(sorted);
    forall s | IsActiveSignal(rows, s) ensures s.code in Loaded(rows) && LoadOrder(Loaded(rows)[s.code], s) {
      ActiveMembers(rows, s);
      FirstOfSorted(sorted, s);
    }
    forall code | code in Loaded(rows) ensures IsActiveSignal(rows, Loaded(rows)[code]) {
      ActiveMembers(rows, Loaded(rows)[code]);
    }
  }

  lemma UngroupedSaidIsLoaded(rows: seq<SignalRow>, all: seq<Signal>, code: SignalCode, least: int)
    requires ActiveMeansLatest(rows) && RowsAre(rows, all) && forall g :: !InGroup(code, g)
    requires Says(all, code, least)
    ensures code in Loaded(rows) && Loaded(rows)[code].confidence >= least
  {
    LoadedIsStrongest(rows);
    var i :| 0 <= i < |all| && all[i].code == code && CountsAsActive(all[i].status) && all[i].confidence >= least;
    assert rows[i].signal == all[i] && rows[i].active;
    assert IsActiveSignal(rows, all[i]);
  }

  lemma LoadedWasSaid(rows: seq<SignalRow>, all: seq<Signal>, code: SignalCode, least: int)
    requires ActiveMeansLatest(rows) && RowsAre(rows, all)
    requires code in Loaded(rows) && Loaded(rows)[code].confidence >= least
    ensures Says(all, code, least)
  {
    LoadedIsStrongest(rows);
    var s := Loaded(rows)[code];
    assert IsActiveSignal(rows, s);
    var i :| 0 <= i < |rows| && rows[i].active && rows[i].signal == s;
    assert all[i].code == code;
  }

  /** An ungrouped code is loaded with at least a confidence exactly when some commit of the run said it so. */
  lemma UngroupedIsLoadedIffSaid(batches: seq<Batch>, code: SignalCode, least: int)
    requires GoodBatches(batches) && forall g :: !InGroup(code, g)
    ensures (code in Loaded(RowsAfter(batches)) && Loaded(RowsAfter(batches))[code].confidence >= least)
            <==> Says(AllSignals(batches), code, least)
  {
    RunsMeanLatest(batches);
    var rows, all := RowsAfter(batches), AllSignals(batches);
    if Says(all, code, least) {
      UngroupedSaidIsLoaded(rows, all, code, least);
    }
    if code in Loaded(rows) && Loaded(rows)[code].confidence >= least {
      LoadedWasSaid(rows, all, code, least);
    }
  }
}
