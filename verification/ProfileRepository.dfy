// The profile repository as it works: rows updated in place, one statement at a time.
module ProfileRepositories {
  import opened Wrappers
  import opened Profile
  import opened ProfileTheorems
  import opened ProfileHistory
  import opened Signals
  import opened SignalHistory
  import Sorting

  datatype PersistenceResult = PersistenceResult(changed: seq<Field>, conflictsAdded: int)

  class ProfileRepository {
    var rows: seq<ValueRow>
    var conflicts: seq<ConflictRow>
    var signals: seq<SignalRow>

    constructor ()
      ensures Stored() == History([], []) && signals == []
    {
      rows, conflicts, signals := [], [], [];
    }

    function Stored(): History
      reads this
    {
      History(rows, conflicts)
    }

    method CloseCurrent(i: nat)
      requires i < |rows|
      modifies this`rows
      ensures rows == Close(old(rows), i)
    {
      rows := rows[i := rows[i].(isCurrent := false, version := rows[i].version + 1)];
    }

    method Insert(fact: Fact, action: Action, isCurrent: bool, support: nat, execution: int) returns (id: nat)
      modifies this`rows
      ensures (rows, id) == InsertFact(old(rows), fact, action, isCurrent, support, execution)
    {
      id := KeySlot(rows, fact, action, execution);
      if id == |rows| {
        rows := rows + [ValueRow(fact, action, execution, isCurrent, support, 1)];
      }
    }

    method ApplyDecision(d: Decision, execution: int) returns (applied: bool)
      modifies this`rows, this`conflicts
      ensures match ApplyOne(old(Stored()), d, execution)
              case None => !applied && Stored() == old(Stored())
              case Some(after) => applied && Stored() == after
    {
      if d.action == Duplicate || d.action == Forbidden {
        return true;
      }
      var i := CurrentSlot(rows, d.candidate.field);
      var held := i < |rows|;
      if d.action == NewCurrent && held {
        return false;
      }
      var support := 1;
      if d.MakesCurrent() && held {
        support := if d.action == ReinforceCurrent then rows[i].support + 1 else 1;
        CloseCurrent(i);
      }
      var id := Insert(d.candidate, d.action, d.MakesCurrent(), support, execution);
      if d.CreatesConflict() {
        var previous := i;
        if !held {
          previous := ObservationSlot(rows, d.previous.value);
          if previous == |rows| {
            previous := Insert(d.previous.value, HistoricalOnly, false, 1, execution);
          }
        }
        if !HasConflict(conflicts, execution, d.candidate.field, id) {
          conflicts := conflicts +
            [ConflictRow(d.candidate.field, previous, id, execution, d.reason.value, d.action == SupersedeCurrent)];
        }
      }
      return true;
    }

    /** Persist a plan; a field that appeared meanwhile aborts it and the unit of work rolls back. */
    method Apply(decisions: seq<Decision>, execution: int) returns (result: Option<PersistenceResult>)
      modifies this`rows, this`conflicts
      ensures match ApplyAll(old(Stored()), decisions, execution)
              case None => result.None? && Stored() == old(Stored())
              case Some(after) =>
                && Stored() == after
                && result == Some(PersistenceResult(ChangedFields(decisions), |after.conflicts| - |old(conflicts)|))
    {
      ghost var before := Stored();
      var savedRows, savedConflicts := rows, conflicts;
      var changed: seq<Field> := [];
      for k := 0 to |decisions|
        invariant ApplyAll(before, decisions[..k], execution) == Some(Stored())
        invariant changed == ChangedFields(decisions[..k])
      {
        assert decisions[..k + 1][..k] == decisions[..k];
        var applied := ApplyDecision(decisions[k], execution);
        if !applied {
          AbortedPrefix(before, decisions, k + 1, execution);
          rows, conflicts := savedRows, savedConflicts;
          return None;
        }
        if decisions[k].MakesCurrent() && decisions[k].candidate.field !in changed {
          changed := changed + [decisions[k].candidate.field];
        }
      }
      assert decisions[..|decisions|] == decisions;
      result := Some(PersistenceResult(changed, |conflicts| - |savedConflicts|));
    }

    /** The whole commit of one extraction against its profile: it never aborts, the stored rows become the
        planned profile, and exactly the plan's conflicts are added. */
    method Commit(facts: Facts, resolved: seq<Resolved>, correction: bool, execution: int)
      returns (result: Option<PersistenceResult>)
      requires FromResolver(resolved) && Clean(Stored(), facts)
      requires forall i :: 0 <= i < |rows| ==> rows[i].execution != execution
      modifies this`rows, this`conflicts
      ensures Clean(Stored(), PipelineFacts(facts, resolved, correction))
      ensures Extends(old(rows), rows)
      ensures result.Some? && result.value.conflictsAdded ==
              |AddedConflicts(Decisions(facts, Candidates(Outputs(resolved, facts)), correction))|
    {
      var outputs, contradictions := Reconcile(resolved, facts);
      var decisions, updated, allConflicts := Plan(facts, [], outputs, correction);
      OneOutputPerField(resolved, facts);
      CandidatesAreDistinct(outputs);
      ApplyRefinesPlan(Stored(), facts, Candidates(outputs), correction, execution);
      result := Apply(decisions, execution);
    }

    /** Load the current rows; they are the profile they represent. */
    method Load(ghost facts: Facts) returns (loaded: Facts)
      requires Represents(rows, facts)
      ensures loaded == facts
    {
      loaded := map[];
      for i := 0 to |rows|
        invariant forall f :: f in loaded ==> f in facts && loaded[f] == facts[f]
        invariant forall j :: 0 <= j < i && rows[j].isCurrent ==> rows[j].fact.field in loaded
      {
        if rows[i].isCurrent {
          assert Lookup(facts, rows[i].fact.field) == Some(rows[i].fact);
          loaded := loaded[rows[i].fact.field := rows[i].fact];
        }
      }
    }

    /** Load the active signals, the strongest of each code: sorted rows, the first of a code kept. */
    method LoadActiveSignals() returns (loaded: map<SignalCode, Signal>)
      ensures loaded == Loaded(signals)
    {
      var active: seq<Signal> := [];
      for i := 0 to |signals|
        invariant active == ActiveSignals(signals[..i])
      {
        assert signals[..i + 1][..i] == signals[..i];
        if signals[i].active {
          active := active + [signals[i].signal];
        }
      }
      assert signals[..|signals|] == signals;
      var sorted := Sorting.Sort(active, LoadOrder);
      loaded := map[];
      for i := 0 to |sorted|
        invariant loaded == FirstPerCode(sorted[..i])
      {
        assert sorted[..i + 1][..i] == sorted[..i];
        if sorted[i].code !in loaded {
          loaded := loaded[sorted[i].code := sorted[i]];
        }
      }
      assert sorted[..|sorted|] == sorted;
    }

    method PersistSignals(batch: seq<Signal>, execution: int)
      modifies this`signals
      ensures signals == PersistAll(old(signals), batch, execution)
    {
      for k := 0 to |batch|
        invariant signals == PersistAll(old(signals), batch[..k], execution)
      {
        assert batch[..k + 1][..k] == batch[..k];
        ghost var before := signals;
        for g := 0 to |EXCLUSIVE_GROUPS|
          invariant signals == DeactivateGroups(before, batch[k].code, EXCLUSIVE_GROUPS[..g])
        {
          assert EXCLUSIVE_GROUPS[..g + 1][..g] == EXCLUSIVE_GROUPS[..g];
          if InGroup(batch[k].code, EXCLUSIVE_GROUPS[g]) {
            signals := Deactivate(signals, EXCLUSIVE_GROUPS[g]);
          }
        }
        assert EXCLUSIVE_GROUPS[..|EXCLUSIVE_GROUPS|] == EXCLUSIVE_GROUPS;
        if SignalSlot(signals, batch[k], execution) == |signals| {
          signals := signals + [SignalRow(batch[k], execution, CountsAsActive(batch[k].status))];
        }
      }
      assert batch[..|batch|] == batch;
    }
  }

  /** Once a decision aborts, so does the whole plan. */
  lemma {:induction false} AbortedPrefix(h: History, decisions: seq<Decision>, k: nat, execution: int)
    requires k <= |decisions| && ApplyAll(h, decisions[..k], execution).None?
    ensures ApplyAll(h, decisions, execution).None?
    decreases |decisions|
  {
    if k < |decisions| {
      assert decisions[..|decisions| - 1][..k] == decisions[..k];
      AbortedPrefix(h, decisions[..|decisions| - 1], k, execution);
    } else {
      assert decisions[..k] == decisions;
    }
  }
}
