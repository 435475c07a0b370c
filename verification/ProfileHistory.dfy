// The durable side of the profile: history rows with a current flag, conflicts,
// and commercial signal rows with an active flag. The rows are those of one lead.
module ProfileHistory {
  import opened Wrappers
  import opened Profile
  import opened ProfileTheorems

  // A row's identifier is its position: rows are never deleted or reordered.
  datatype ValueRow = ValueRow(fact: Fact, action: Action, execution: int, isCurrent: bool, support: nat, version: nat)

  datatype ConflictRow = ConflictRow(
    field: Field, previousRow: nat, newRow: nat, execution: int, reason: Reason, resolved: bool)

  datatype History = History(rows: seq<ValueRow>, conflicts: seq<ConflictRow>)

  predicate HasKey(row: ValueRow, fact: Fact, action: Action, execution: int) {
    && row.execution == execution && row.fact.field == fact.field && row.fact.message == fact.message
    && row.fact.value == fact.value && row.action == action
  }

  /** The position of the row with this application key, or the end. */
  function KeySlot(rows: seq<ValueRow>, fact: Fact, action: Action, execution: int): (i: nat)
    ensures i <= |rows|
    ensures i < |rows| ==> HasKey(rows[i], fact, action, execution)
    ensures forall j :: 0 <= j < i ==> !HasKey(rows[j], fact, action, execution)
  {
    if rows == [] then 0 else if HasKey(rows[0], fact, action, execution) then 0
    else 1 + KeySlot(rows[1..], fact, action, execution)
  }

  /** The position of the current row of a field, or the end. */
  function CurrentSlot(rows: seq<ValueRow>, f: Field): (i: nat)
    ensures i <= |rows|
    ensures i < |rows| ==> rows[i].isCurrent && rows[i].fact.field == f
    ensures forall j :: 0 <= j < i ==> !(rows[j].isCurrent && rows[j].fact.field == f)
  {
    if rows == [] then 0 else if rows[0].isCurrent && rows[0].fact.field == f then 0
    else 1 + CurrentSlot(rows[1..], f)
  }

  /** The newest stored observation of a value, or the end. */
  function ObservationSlot(rows: seq<ValueRow>, fact: Fact): (i: nat)
    ensures i <= |rows|
    ensures i < |rows| ==> rows[i].fact.field == fact.field && rows[i].fact.value == fact.value
  {
    if rows == [] then 0
    else
      var rest := 1 + ObservationSlot(rows[1..], fact);
      if rows[0].fact.field == fact.field && rows[0].fact.value == fact.value
         && (rest == |rows| || rows[rest].fact.observedAt <= rows[0].fact.observedAt) then 0
      else rest
  }

  function Close(rows: seq<ValueRow>, i: nat): seq<ValueRow>
    requires i < |rows|
  {
    rows[i := rows[i].(isCurrent := false, version := rows[i].version + 1)]
  }

  /** Insert unless the key exists; the second component is the row that now bears the key. */
  function InsertFact(rows: seq<ValueRow>, fact: Fact, action: Action, isCurrent: bool, support: nat, execution: int)
    : (seq<ValueRow>, nat)
  {
    var slot := KeySlot(rows, fact, action, execution);
    if slot < |rows| then (rows, slot)
    else (rows + [ValueRow(fact, action, execution, isCurrent, support, 1)], |rows|)
  }

  function FindOrInsertPrevious(rows: seq<ValueRow>, fact: Fact, execution: int): (seq<ValueRow>, nat) {
    var slot := ObservationSlot(rows, fact);
    if slot < |rows| then (rows, slot)
    else InsertFact(rows, fact, HistoricalOnly, false, 1, execution)
  }

  predicate HasConflict(conflicts: seq<ConflictRow>, execution: int, field: Field, newRow: nat) {
    exists c :: c in conflicts && c.execution == execution && c.field == field && c.newRow == newRow
  }

  function AddConflict(conflicts: seq<ConflictRow>, row: ConflictRow): seq<ConflictRow> {
    if HasConflict(conflicts, row.execution, row.field, row.newRow) then conflicts else conflicts + [row]
  }

  /** One decision against the stored rows; None is the concurrency conflict that aborts the commit. */
  function ApplyOne(h: History, d: Decision, execution: int): Option<History> {
    if d.action == Duplicate || d.action == Forbidden then Some(h)
    else
      var f := d.candidate.field;
      var i := CurrentSlot(h.rows, f);
      var held := i < |h.rows|;
      if d.action == NewCurrent && held then None
      else
        var support := if d.action == ReinforceCurrent && held then h.rows[i].support + 1 else 1;
        var closed := if d.MakesCurrent() && held then Close(h.rows, i) else h.rows;
        var (inserted, id) := InsertFact(closed, d.candidate, d.action, d.MakesCurrent(), support, execution);
        if !d.CreatesConflict() then Some(h.(rows := inserted))
        else
          var (rows, previous) := if held then (inserted, i) else FindOrInsertPrevious(inserted, d.previous.value, execution);
          var row := ConflictRow(f, previous, id, execution, d.reason.value, d.action == SupersedeCurrent);
          Some(History(rows, AddConflict(h.conflicts, row)))
  }

  function ApplyAll(h: History, decisions: seq<Decision>, execution: int): Option<History> {
    if decisions == [] then Some(h)
    else
      match ApplyAll(h, decisions[..|decisions| - 1], execution)
      case None => None
      case Some(before) => ApplyOne(before, decisions[|decisions| - 1], execution)
  }

  /** The fields made current, each once, in order. */
  function ChangedFields(decisions: seq<Decision>): seq<Field> {
    if decisions == [] then []
    else
      var rest := ChangedFields(decisions[..|decisions| - 1]);
      var last := decisions[|decisions| - 1];
      if last.MakesCurrent() && last.candidate.field !in rest then rest + [last.candidate.field] else rest
  }

  /** Some decision makes its fact current. */
  predicate ChangesProfile(decisions: seq<Decision>) {
    exists i :: 0 <= i < |decisions| && decisions[i].MakesCurrent()
  }

  /** Fields were changed exactly when some decision makes its fact current. */
  lemma {:induction false} ChangedFieldsTell(decisions: seq<Decision>)
    ensures ChangedFields(decisions) != [] <==> ChangesProfile(decisions)
  {
    if decisions != [] {
      var front := decisions[..|decisions| - 1];
      ChangedFieldsTell(front);
      if ChangesProfile(front) {
        var i :| 0 <= i < |front| && front[i].MakesCurrent();
        assert decisions[i].MakesCurrent();
      }
    }
  }

  // ---------------------------------------------------------------- what the rows mean

  predicate Made(row: ValueRow) {
    ActionMakesCurrent(row.action)
  }

  /** A row is current exactly when it was made current and no later row of its field was. */
  ghost predicate CurrentIsLastMade(rows: seq<ValueRow>) {
    forall i :: 0 <= i < |rows| ==>
      (rows[i].isCurrent <==>
       Made(rows[i]) && forall j :: i < j < |rows| && rows[j].fact.field == rows[i].fact.field ==> !Made(rows[j]))
  }

  /** One past the last row among the first `n` that made field `f` current, or 0. */
  function LastMade(rows: seq<ValueRow>, f: Field, n: nat): (k: nat)
    requires n <= |rows|
    ensures k <= n
    ensures k > 0 ==> rows[k - 1].fact.field == f && Made(rows[k - 1])
    ensures forall j :: k <= j < n && rows[j].fact.field == f ==> !Made(rows[j])
  {
    if n == 0 then 0
    else if rows[n - 1].fact.field == f && Made(rows[n - 1]) then n
    else LastMade(rows, f, n - 1)
  }

  /** The length of the run of equal values, among the made-current rows of its field, that ends at row `i`. */
  function TrailingRun(rows: seq<ValueRow>, i: nat): nat
    requires i < |rows|
  {
    var k := LastMade(rows, rows[i].fact.field, i);
    if k > 0 && rows[k - 1].fact.value.identity == rows[i].fact.value.identity then TrailingRun(rows, k - 1) + 1 else 1
  }

  ghost predicate SupportIsTrailingRun(rows: seq<ValueRow>) {
    forall i :: 0 <= i < |rows| && Made(rows[i]) ==> rows[i].support == TrailingRun(rows, i)
  }

  /** The current rows are exactly the facts of the in-memory profile. */
  ghost predicate Represents(rows: seq<ValueRow>, facts: Facts) {
    && (forall i :: 0 <= i < |rows| && rows[i].isCurrent ==> Lookup(facts, rows[i].fact.field) == Some(rows[i].fact))
    && (forall f :: f in facts ==> exists i :: 0 <= i < |rows| && rows[i].isCurrent && rows[i].fact.field == f)
  }

  ghost predicate WellFormed(rows: seq<ValueRow>) {
    CurrentIsLastMade(rows) && SupportIsTrailingRun(rows)
  }

  /** What a commit may do to a stored row: clear its current flag and count a version. */
  ghost predicate Extends(before: seq<ValueRow>, after: seq<ValueRow>) {
    && |before| <= |after|
    && forall i :: 0 <= i < |before| ==>
         && after[i].fact == before[i].fact && after[i].action == before[i].action
         && after[i].execution == before[i].execution && after[i].support == before[i].support
         && (after[i].isCurrent ==> before[i].isCurrent)
         && (after[i].isCurrent == before[i].isCurrent ==> after[i] == before[i])
  }

  lemma AtMostOneCurrentRow(rows: seq<ValueRow>, i: nat, j: nat)
    requires CurrentIsLastMade(rows) && i < j < |rows|
    requires rows[i].isCurrent && rows[j].isCurrent
    ensures rows[i].fact.field != rows[j].fact.field
  {
  }

  lemma {:induction false} LastMadeIgnoresFlags(a: seq<ValueRow>, b: seq<ValueRow>, f: Field, n: nat)
    requires n <= |a| && n <= |b|
    requires forall j :: 0 <= j < n ==> a[j].fact == b[j].fact && a[j].action == b[j].action
    ensures LastMade(a, f, n) == LastMade(b, f, n)
  {
    if n > 0 {
      LastMadeIgnoresFlags(a, b, f, n - 1);
    }
  }

  lemma RunFrom(rows: seq<ValueRow>, i: nat, k: nat)
    requires i < |rows| && k == LastMade(rows, rows[i].fact.field, i)
    ensures TrailingRun(rows, i)
            == if k > 0 && rows[k - 1].fact.value.identity == rows[i].fact.value.identity then TrailingRun(rows, k - 1) + 1 else 1
  {
  }

  /** Rows that agree on field, action and value have the same runs. */
  lemma {:induction false} RunsIgnoreFlags(a: seq<ValueRow>, b: seq<ValueRow>, i: nat)
    requires i < |a| && i < |b|
    requires forall j :: 0 <= j <= i ==> a[j].fact == b[j].fact && a[j].action == b[j].action
    ensures TrailingRun(a, i) == TrailingRun(b, i)
  {
    var k := LastMade(a, a[i].fact.field, i);
    LastMadeIgnoresFlags(a, b, a[i].fact.field, i);
    RunFrom(a, i, k);
    RunFrom(b, i, k);
    if k > 0 {
      assert a[k - 1].fact == b[k - 1].fact;
      RunsIgnoreFlags(a, b, k - 1);
    }
  }

  /** The current row of a field is its last made-current row. */
  lemma CurrentSlotIsLastMade(rows: seq<ValueRow>, f: Field)
    requires CurrentIsLastMade(rows)
    ensures CurrentSlot(rows, f) < |rows| ==> LastMade(rows, f, |rows|) == CurrentSlot(rows, f) + 1
    ensures CurrentSlot(rows, f) == |rows| ==> LastMade(rows, f, |rows|) == 0
  {
    var i, k := CurrentSlot(rows, f), LastMade(rows, f, |rows|);
    if k > 0 {
      assert rows[k - 1].isCurrent;
    }
    if i < |rows| {
      assert Made(rows[i]);
    }
  }

  ghost predicate FreshFor(rows: seq<ValueRow>, execution: int, f: Field) {
    forall i :: 0 <= i < |rows| ==> !(rows[i].execution == execution && rows[i].fact.field == f)
  }

  /** The rows after one decision, when its key is new: close the current row if replaced, then append. */
  function Appended(rows: seq<ValueRow>, d: Decision, execution: int): seq<ValueRow> {
    var i := CurrentSlot(rows, d.candidate.field);
    var held := i < |rows|;
    var support := if d.action == ReinforceCurrent && held then rows[i].support + 1 else 1;
    var closed := if d.MakesCurrent() && held then Close(rows, i) else rows;
    closed + [ValueRow(d.candidate, d.action, execution, d.MakesCurrent(), support, 1)]
  }

  lemma AppendedExtends(rows: seq<ValueRow>, d: Decision, execution: int)
    ensures Extends(rows, Appended(rows, d, execution))
  {
  }

  lemma AppendedKeepsCurrent(rows: seq<ValueRow>, d: Decision, execution: int)
    requires CurrentIsLastMade(rows)
    ensures CurrentIsLastMade(Appended(rows, d, execution))
    ensures Extends(rows, Appended(rows, d, execution))
  {
    var f := d.candidate.field;
    var i := CurrentSlot(rows, f);
    var after := Appended(rows, d, execution);
    AppendedExtends(rows, d, execution);
    CurrentSlotIsLastMade(rows, f);
    assert forall j :: 0 <= j < |rows| ==> after[j].fact == rows[j].fact && after[j].action == rows[j].action;
    forall j | 0 <= j < |rows|
      ensures after[j].isCurrent <==>
              Made(after[j]) && forall m :: j < m < |after| && after[m].fact.field == after[j].fact.field ==> !Made(after[m])
    {
      if d.MakesCurrent() && rows[j].fact.field == f {
        assert Made(after[|rows|]) && after[|rows|].fact.field == f;
        if j != i {
          assert !rows[j].isCurrent;
        }
      } else {
        assert after[j].isCurrent == rows[j].isCurrent;
        forall m | j < m < |after| && after[m].fact.field == after[j].fact.field && Made(after[m])
          ensures m < |rows| && Made(rows[m])
        {
        }
      }
    }
  }

  /** The decision relates to the current row of its field as the plan's decisions do. */
  ghost predicate SuitsCurrent(rows: seq<ValueRow>, d: Decision) {
    var i := CurrentSlot(rows, d.candidate.field);
    && (d.action == NewCurrent ==> i == |rows|)
    && (d.action == ReinforceCurrent ==> i < |rows| && rows[i].fact.value.identity == d.candidate.value.identity)
    && (d.action == SupersedeCurrent ==> i < |rows| && rows[i].fact.value.identity != d.candidate.value.identity)
  }

  /** Two row sequences agree, on the first `n` rows, on everything a run depends on. */
  ghost predicate SameUpTo(a: seq<ValueRow>, b: seq<ValueRow>, n: nat) {
    && n <= |a| && n <= |b|
    && forall j :: 0 <= j < n ==> a[j].fact == b[j].fact && a[j].action == b[j].action && a[j].support == b[j].support
  }

  lemma OldRowsKeepSupport(rows: seq<ValueRow>, after: seq<ValueRow>)
    requires SupportIsTrailingRun(rows) && SameUpTo(rows, after, |rows|) && |after| == |rows| + 1
    requires Made(after[|rows|]) ==> after[|rows|].support == TrailingRun(after, |rows|)
    ensures SupportIsTrailingRun(after)
  {
    forall j | 0 <= j < |rows| && Made(after[j]) ensures after[j].support == TrailingRun(after, j) {
      RunsIgnoreFlags(rows, after, j);
    }
  }

  lemma NewRowCountsItsRun(rows: seq<ValueRow>, d: Decision, execution: int)
    requires WellFormed(rows) && SuitsCurrent(rows, d) && d.MakesCurrent()
    ensures Appended(rows, d, execution)[|rows|].support == TrailingRun(Appended(rows, d, execution), |rows|)
  {
    var i := CurrentSlot(rows, d.candidate.field);
    var after := Appended(rows, d, execution);
    CurrentSlotIsLastMade(rows, d.candidate.field);
    assert i < |rows| ==> rows[i].support == TrailingRun(rows, i);
    NewRowRun(rows, after, i);
  }

  lemma NewRowRun(rows: seq<ValueRow>, after: seq<ValueRow>, i: nat)
    requires SameUpTo(rows, after, |rows|) && |after| == |rows| + 1
    requires i <= |rows|
    requires LastMade(rows, after[|rows|].fact.field, |rows|) == if i < |rows| then i + 1 else 0
    ensures TrailingRun(after, |rows|) ==
            if i < |rows| && rows[i].fact.value.identity == after[|rows|].fact.value.identity
            then TrailingRun(rows, i) + 1 else 1
  {
    LastMadeIgnoresFlags(rows, after, after[|rows|].fact.field, |rows|);
    if i < |rows| {
      RunsIgnoreFlags(rows, after, i);
    }
  }

  lemma AppendedKeepsSupport(rows: seq<ValueRow>, d: Decision, execution: int)
    requires WellFormed(rows) && SuitsCurrent(rows, d)
    ensures SupportIsTrailingRun(Appended(rows, d, execution))
  {
    if d.MakesCurrent() {
      NewRowCountsItsRun(rows, d, execution);
    }
    OldRowsKeepSupport(rows, Appended(rows, d, execution));
  }

  lemma AppendedRepresents(rows: seq<ValueRow>, facts: Facts, d: Decision, execution: int)
    requires CurrentIsLastMade(rows) && Represents(rows, facts)
    ensures Represents(Appended(rows, d, execution),
                       if d.MakesCurrent() then facts[d.candidate.field := d.candidate] else facts)
  {
    var f := d.candidate.field;
    var i := CurrentSlot(rows, f);
    var after := Appended(rows, d, execution);
    var updated := if d.MakesCurrent() then facts[f := d.candidate] else facts;
    forall j | 0 <= j < |after| && after[j].isCurrent
      ensures Lookup(updated, after[j].fact.field) == Some(after[j].fact)
    {
      if j < |rows| {
        assert rows[j].isCurrent && after[j].fact == rows[j].fact;
      }
    }
    forall g | g in updated
      ensures exists j :: 0 <= j < |after| && after[j].isCurrent && after[j].fact.field == g
    {
      if d.MakesCurrent() && g == f {
        assert after[|rows|].isCurrent && after[|rows|].fact.field == g;
      } else {
        var j :| 0 <= j < |rows| && rows[j].isCurrent && rows[j].fact.field == g;
        assert after[j].isCurrent && after[j].fact.field == g;
      }
    }
  }

  /** The current row of a field holds the profile's fact for it. */
  lemma CurrentRowIsFact(rows: seq<ValueRow>, facts: Facts, f: Field)
    requires Represents(rows, facts)
    ensures f in facts <==> CurrentSlot(rows, f) < |rows|
    ensures f in facts ==> rows[CurrentSlot(rows, f)].fact == facts[f]
  {
    var i := CurrentSlot(rows, f);
    if f in facts {
      var j :| 0 <= j < |rows| && rows[j].isCurrent && rows[j].fact.field == f;
    }
    if i < |rows| {
      assert Lookup(facts, rows[i].fact.field) == Some(rows[i].fact);
    }
  }

  lemma DecideKinds(existing: Option<Fact>, item: Resolved, correction: bool)
    ensures var d := Decide(existing, item, correction);
            && d.candidate.field == item.mention.field
            && (d.previous.Some? ==> d.previous == existing)
            && (d.action == NewCurrent ==> existing.None?)
            && (d.action == ReinforceCurrent ==>
                existing.Some? && existing.value.value.identity == d.candidate.value.identity)
            && (d.action == SupersedeCurrent ==>
                existing.Some? && existing.value.value.identity != d.candidate.value.identity)
            && (d.action == Duplicate || d.action == Forbidden ==> !d.CreatesConflict())
  {
  }

  /** A plan's decision suits the current row it was decided against. */
  lemma DecisionAgainstCurrent(rows: seq<ValueRow>, facts: Facts, item: Resolved, correction: bool)
    requires Represents(rows, facts)
    ensures var d := Decide(Lookup(facts, item.mention.field), item, correction);
            && SuitsCurrent(rows, d)
            && (d.previous.Some? ==> CurrentSlot(rows, d.candidate.field) < |rows|)
            && (d.action == Duplicate || d.action == Forbidden ==> !d.CreatesConflict())
  {
    CurrentRowIsFact(rows, facts, item.mention.field);
    DecideKinds(Lookup(facts, item.mention.field), item, correction);
  }

  /** With a fresh key, a decision that may be stored appends exactly one row. */
  lemma FreshDecisionAppends(h: History, d: Decision, execution: int) returns (after: History)
    requires FreshFor(h.rows, execution, d.candidate.field)
    requires d.action == NewCurrent ==> CurrentSlot(h.rows, d.candidate.field) == |h.rows|
    requires d.previous.Some? ==> CurrentSlot(h.rows, d.candidate.field) < |h.rows|
    requires forall c :: c in h.conflicts ==> c.newRow < |h.rows|
    requires d.action != Duplicate && d.action != Forbidden
    ensures ApplyOne(h, d, execution) == Some(after)
    ensures after.rows == Appended(h.rows, d, execution)
    ensures |after.conflicts| == |h.conflicts| + (if d.CreatesConflict() then 1 else 0)
    ensures forall c :: c in after.conflicts ==> c.newRow < |after.rows|
  {
    var i := CurrentSlot(h.rows, d.candidate.field);
    var closed := if d.MakesCurrent() && i < |h.rows| then Close(h.rows, i) else h.rows;
    assert forall j :: 0 <= j < |closed| ==> closed[j].execution == h.rows[j].execution && closed[j].fact == h.rows[j].fact;
    assert KeySlot(closed, d.candidate, d.action, execution) == |closed|;
    after := ApplyOne(h, d, execution).value;
  }

  /** Appending a decision's row keeps the rows' meaning and follows the in-memory profile. */
  lemma AppendedRefines(rows: seq<ValueRow>, facts: Facts, d: Decision, execution: int, after: seq<ValueRow>)
    requires WellFormed(rows) && Represents(rows, facts) && SuitsCurrent(rows, d)
    requires after == Appended(rows, d, execution)
    ensures && WellFormed(after) && Extends(rows, after) && |after| == |rows| + 1
            && Represents(after, if d.MakesCurrent() then facts[d.candidate.field := d.candidate] else facts)
            && after[|rows|].fact.field == d.candidate.field && after[|rows|].execution == execution
  {
    AppendedKeepsCurrent(rows, d, execution);
    AppendedKeepsSupport(rows, d, execution);
    AppendedRepresents(rows, facts, d, execution);
  }

  lemma SkippedDecision(h: History, d: Decision, execution: int)
    requires d.action == Duplicate || d.action == Forbidden
    ensures ApplyOne(h, d, execution) == Some(h)
  {
  }

  lemma StoredDecisionRefines(h: History, facts: Facts, d: Decision, execution: int) returns (after: History)
    requires WellFormed(h.rows) && Represents(h.rows, facts) && SuitsCurrent(h.rows, d)
    requires d.previous.Some? ==> CurrentSlot(h.rows, d.candidate.field) < |h.rows|
    requires FreshFor(h.rows, execution, d.candidate.field)
    requires forall c :: c in h.conflicts ==> c.newRow < |h.rows|
    requires d.action != Duplicate && d.action != Forbidden
    ensures ApplyOne(h, d, execution) == Some(after)
    ensures WellFormed(after.rows) && Extends(h.rows, after.rows)
    ensures Represents(after.rows, if d.MakesCurrent() then facts[d.candidate.field := d.candidate] else facts)
    ensures |after.conflicts| == |h.conflicts| + (if d.CreatesConflict() then 1 else 0)
    ensures forall c :: c in after.conflicts ==> c.newRow < |after.rows|
    ensures |after.rows| == |h.rows| + 1
    ensures after.rows[|h.rows|].fact.field == d.candidate.field && after.rows[|h.rows|].execution == execution
  {
    after := FreshDecisionAppends(h, d, execution);
    AppendedRefines(h.rows, facts, d, execution, after.rows);
  }

  /** One decision: the rows keep their meaning and follow the in-memory profile. */
  lemma ApplyOneRefinesPlan(h: History, facts: Facts, d: Decision, execution: int) returns (after: History)
    requires WellFormed(h.rows) && Represents(h.rows, facts) && SuitsCurrent(h.rows, d)
    requires d.previous.Some? ==> CurrentSlot(h.rows, d.candidate.field) < |h.rows|
    requires FreshFor(h.rows, execution, d.candidate.field)
    requires forall c :: c in h.conflicts ==> c.newRow < |h.rows|
    requires d.action == Duplicate || d.action == Forbidden ==> !d.CreatesConflict()
    ensures ApplyOne(h, d, execution) == Some(after)
    ensures WellFormed(after.rows) && Extends(h.rows, after.rows)
    ensures Represents(after.rows, if d.MakesCurrent() then facts[d.candidate.field := d.candidate] else facts)
    ensures |after.conflicts| == |h.conflicts| + (if d.CreatesConflict() then 1 else 0)
    ensures forall c :: c in after.conflicts ==> c.newRow < |after.rows|
    ensures |h.rows| <= |after.rows| <= |h.rows| + 1
    ensures |after.rows| > |h.rows| ==>
      after.rows[|h.rows|].fact.field == d.candidate.field && after.rows[|h.rows|].execution == execution
  {
    if d.action == Duplicate || d.action == Forbidden {
      SkippedDecision(h, d, execution);
      return h;
    } else {
      after := StoredDecisionRefines(h, facts, d, execution);
    }
  }

  // ---------------------------------------------------------------- whole commits, whole runs

  lemma ExtendsIsTransitive(a: seq<ValueRow>, b: seq<ValueRow>, c: seq<ValueRow>)
    requires Extends(a, b) && Extends(b, c)
    ensures Extends(a, c)
  {
  }

  ghost predicate Clean(h: History, facts: Facts) {
    && WellFormed(h.rows) && Represents(h.rows, facts) && KeyedByField(facts)
    && forall c :: c in h.conflicts ==> c.newRow < |h.rows|
  }

  /** The rows `after` adds to `before` belong to this execution and to these candidates. */
  ghost predicate AddsFor(before: seq<ValueRow>, after: seq<ValueRow>, candidates: seq<Resolved>, execution: int) {
    forall i :: |before| <= i < |after| ==>
      after[i].execution == execution && exists x :: x in candidates && x.mention.field == after[i].fact.field
  }

  /** The field of the last candidate is untouched by the decisions before it. */
  lemma LastIsStillOpen(facts: Facts, candidates: seq<Resolved>, correction: bool)
    requires DistinctFields(candidates) && candidates != []
    ensures var front, f := candidates[..|candidates| - 1], candidates[|candidates| - 1].mention.field;
            && DistinctFields(front)
            && Lookup(UpdatedFacts(facts, Decisions(facts, front, correction)), f) == Lookup(facts, f)
  {
    CandidateSettlesField(facts, candidates[..|candidates| - 1], correction, candidates[|candidates| - 1].mention.field);
  }

  /** The durable rows after a commit are the profile the plan computed in memory. */
  lemma {:induction false} ApplyRefinesPlan(
    h: History, facts: Facts, candidates: seq<Resolved>, correction: bool, execution: int)
    requires Clean(h, facts) && DistinctFields(candidates)
    requires forall i :: 0 <= i < |h.rows| ==> h.rows[i].execution != execution
    ensures var decisions := Decisions(facts, candidates, correction);
            var r := ApplyAll(h, decisions, execution);
            && r.Some?
            && Clean(r.value, UpdatedFacts(facts, decisions))
            && Extends(h.rows, r.value.rows)
            && AddsFor(h.rows, r.value.rows, candidates, execution)
            && |r.value.conflicts| == |h.conflicts| + |AddedConflicts(decisions)|
    decreases |candidates|
  {
    if candidates != [] {
      var n := |candidates| - 1;
      var front, item := candidates[..n], candidates[n];
      var decisions := Decisions(facts, candidates, correction);
      assert decisions[..n] == Decisions(facts, front, correction);
      ApplyRefinesPlan(h, facts, front, correction, execution);
      var before := ApplyAll(h, decisions[..n], execution).value;
      var planned := UpdatedFacts(facts, decisions[..n]);
      LastIsStillOpen(facts, candidates, correction);
      ApplyLast(h, before, planned, front, item, correction, execution);
      assert front + [item] == candidates;
    }
  }

  lemma ApplyLast(h: History, before: History, planned: Facts, front: seq<Resolved>, item: Resolved, correction: bool,
                  execution: int)
    requires Clean(before, planned) && Extends(h.rows, before.rows)
    requires AddsFor(h.rows, before.rows, front, execution) && DistinctFields(front + [item])
    requires forall i :: 0 <= i < |h.rows| ==> h.rows[i].execution != execution
    ensures var d := Decide(Lookup(planned, item.mention.field), item, correction);
            var r := ApplyOne(before, d, execution);
            && r.Some?
            && Clean(r.value, if d.MakesCurrent() then planned[d.candidate.field := d.candidate] else planned)
            && Extends(h.rows, r.value.rows)
            && AddsFor(h.rows, r.value.rows, front + [item], execution)
            && |r.value.conflicts| == |before.conflicts| + (if d.CreatesConflict() then 1 else 0)
  {
    var f := item.mention.field;
    var d := Decide(Lookup(planned, f), item, correction);
    KeyStillFresh(h.rows, before.rows, front, item, execution);
    DecisionAgainstCurrent(before.rows, planned, item, correction);
    DecideKinds(Lookup(planned, f), item, correction);
    var after := ApplyOneRefinesPlan(before, planned, d, execution);
    ExtendsIsTransitive(h.rows, before.rows, after.rows);
    OneMoreAdds(h.rows, before.rows, after.rows, front, item, execution);
  }

  lemma KeyStillFresh(rows: seq<ValueRow>, before: seq<ValueRow>, front: seq<Resolved>, item: Resolved, execution: int)
    requires AddsFor(rows, before, front, execution) && DistinctFields(front + [item]) && Extends(rows, before)
    requires forall i :: 0 <= i < |rows| ==> rows[i].execution != execution
    ensures FreshFor(before, execution, item.mention.field)
  {
    forall i | 0 <= i < |before| && before[i].execution == execution
      ensures before[i].fact.field != item.mention.field
    {
      assert i >= |rows|;
      var x :| x in front && x.mention.field == before[i].fact.field;
      var j :| 0 <= j < |front| && front[j] == x;
      assert (front + [item])[j] == x && (front + [item])[|front|] == item;
    }
  }

  lemma OneMoreAdds(
    rows: seq<ValueRow>, before: seq<ValueRow>, after: seq<ValueRow>, front: seq<Resolved>, item: Resolved, execution: int)
    requires AddsFor(rows, before, front, execution) && Extends(before, after) && |after| <= |before| + 1
    requires |after| > |before| ==> after[|before|].fact.field == item.mention.field && after[|before|].execution == execution
    ensures AddsFor(rows, after, front + [item], execution)
  {
    assert item in front + [item];
    assert forall x :: x in front ==> x in front + [item];
  }

  // One commit's contribution: what the resolver produced, whether the message reads as a correction,
  // and the fresh identifier of its extraction execution.
  datatype Commit = Commit(resolved: seq<Resolved>, correction: bool, execution: int)

  function ProfileAfter(commits: seq<Commit>): Facts {
    if commits == [] then map[]
    else
      var last := commits[|commits| - 1];
      PipelineFacts(ProfileAfter(commits[..|commits| - 1]), last.resolved, last.correction)
  }

  function HistoryAfter(commits: seq<Commit>): Option<History> {
    if commits == [] then Some(History([], []))
    else
      var front, last := commits[..|commits| - 1], commits[|commits| - 1];
      var facts := ProfileAfter(front);
      match HistoryAfter(front)
      case None => None
      case Some(h) =>
        ApplyAll(h, Decisions(facts, Candidates(Outputs(last.resolved, facts)), last.correction), last.execution)
  }

  /** Over any run of commits: no commit aborts, the current rows are the profile, one current row per field,
      every support count is the length of its trailing run. */
  lemma {:induction false} HistoryRepresentsProfile(commits: seq<Commit>)
    requires forall c :: c in commits ==> FromResolver(c.resolved)
    requires forall i, j :: 0 <= i < j < |commits| ==> commits[i].execution != commits[j].execution
    ensures HistoryAfter(commits).Some?
    ensures Clean(HistoryAfter(commits).value, ProfileAfter(commits))
    ensures forall i :: 0 <= i < |HistoryAfter(commits).value.rows| ==>
      exists c :: c in commits && c.execution == HistoryAfter(commits).value.rows[i].execution
  {
    if commits != [] {
      var front, last := commits[..|commits| - 1], commits[|commits| - 1];
      HistoryRepresentsProfile(front);
      var facts, h := ProfileAfter(front), HistoryAfter(front).value;
      var outputs := Outputs(last.resolved, facts);
      OneOutputPerField(last.resolved, facts);
      CandidatesAreDistinct(outputs);
      forall i | 0 <= i < |h.rows| ensures h.rows[i].execution != last.execution {
        var c :| c in front && c.execution == h.rows[i].execution;
      }
      ApplyRefinesPlan(h, facts, Candidates(outputs), last.correction, last.execution);
      var after := HistoryAfter(commits).value;
      forall i | 0 <= i < |after.rows| ensures exists c :: c in commits && c.execution == after.rows[i].execution {
        if i < |h.rows| {
          var c :| c in front && c.execution == h.rows[i].execution;
          assert c in commits;
        } else {
          assert last in commits;
        }
      }
    }
  }
}
