// Which mention of a field reconciliation keeps: the exact rule, and when the newest mention loses to an older one.
module ProfileWinner {
  import opened Wrappers
  import opened Profile
  import Sorting

  // ---------------------------------------------------------------- the rule

  /** The latest among the surest mentions that print like it. */
  ghost predicate SurestLatest(items: seq<Resolved>, k: nat) {
    && k < |items|
    && (forall j :: 0 <= j < |items| && SamePrint(items[j], items[k]) ==> items[j].confidence <= items[k].confidence)
    && (forall j :: k < j < |items| && SamePrint(items[j], items[k]) ==> items[j].confidence < items[k].confidence)
  }

  predicate SamePrint(a: Resolved, b: Resolved) {
    a.mention.value.text == b.mention.value.text
  }

  /** Where a printed value is first seen. */
  function FirstSeen(items: seq<Resolved>, text: int): (i: nat)
    ensures i <= |items|
    ensures i < |items| ==> items[i].mention.value.text == text
    ensures forall j :: 0 <= j < i ==> items[j].mention.value.text != text
  {
    if items == [] then 0
    else if FirstSeen(items[..|items| - 1], text) < |items| - 1 then FirstSeen(items[..|items| - 1], text)
    else if items[|items| - 1].mention.value.text == text then |items| - 1
    else |items|
  }

  /** `k` is later than `m`, or as late and of a value first seen after `m`'s. */
  predicate Outlasts(items: seq<Resolved>, k: nat, m: nat)
    requires k < |items| && m < |items|
  {
    || items[m].mention.observedAt < items[k].mention.observedAt
    || (items[m].mention.observedAt == items[k].mention.observedAt
        && FirstSeen(items, items[m].mention.value.text) < FirstSeen(items, items[k].mention.value.text))
  }

  /** The surest mention of its value, outlasting the surest mention of every other value. */
  ghost predicate Wins(items: seq<Resolved>, k: nat) {
    SurestLatest(items, k) && forall m: nat :: SurestLatest(items, m) && m != k ==> Outlasts(items, k, m)
  }

  lemma OneSurestPerValue(items: seq<Resolved>, k: nat, m: nat)
    requires SurestLatest(items, k) && SurestLatest(items, m) && SamePrint(items[k], items[m])
    ensures k == m
  {
  }

  lemma OutlastingIsOneWay(items: seq<Resolved>, k: nat, m: nat)
    requires k < |items| && m < |items| && Outlasts(items, k, m)
    ensures !Outlasts(items, m, k)
  {
  }

  lemma OneWinner(items: seq<Resolved>, k: nat, m: nat)
    requires Wins(items, k) && Wins(items, m)
    ensures k == m
  {
    if k != m {
      OutlastingIsOneWay(items, k, m);
    }
  }

  // ---------------------------------------------------------------- the dictionary

  /** Slot by slot, the dictionary holds the surest latest mention of each value, in the order values are first seen. */
  ghost predicate HoldsSurest(acc: seq<Resolved>, items: seq<Resolved>) {
    && (forall i :: 0 <= i < |acc| ==> Held(items, acc[i]))
    && (forall i, j :: 0 <= i < j < |acc| ==>
          FirstSeen(items, acc[i].mention.value.text) < FirstSeen(items, acc[j].mention.value.text))
    && (forall k :: 0 <= k < |items| ==> Slot(acc, items[k].mention.value.text) < |acc|)
  }

  ghost predicate Held(items: seq<Resolved>, x: Resolved) {
    exists k: nat :: SurestLatest(items, k) && items[k] == x
  }

  lemma FirstSeenGrows(front: seq<Resolved>, x: Resolved, text: int)
    ensures FirstSeen(front, text) < |front| ==> FirstSeen(front + [x], text) == FirstSeen(front, text)
    ensures FirstSeen(front, text) == |front| && x.mention.value.text == text ==> FirstSeen(front + [x], text) == |front|
  {
    assert (front + [x])[..|front|] == front;
  }

  lemma SurestStays(front: seq<Resolved>, x: Resolved, k: nat)
    requires SurestLatest(front, k) && (SamePrint(x, front[k]) ==> x.confidence < front[k].confidence)
    ensures SurestLatest(front + [x], k)
  {
  }

  lemma NewSurest(front: seq<Resolved>, x: Resolved)
    requires forall j :: 0 <= j < |front| && SamePrint(front[j], x) ==> front[j].confidence <= x.confidence
    ensures SurestLatest(front + [x], |front|)
  {
  }

  lemma SeenInFront(items: seq<Resolved>, k: nat)
    requires k < |items|
    ensures FirstSeen(items, items[k].mention.value.text) < |items|
  {
  }

  lemma SlotAfter(acc: seq<Resolved>, x: Resolved, text: int)
    ensures Slot(acc, text) < |acc| ==> Slot(Upsert(acc, x), text) < |Upsert(acc, x)|
    ensures Slot(Upsert(acc, x), x.mention.value.text) < |Upsert(acc, x)|
  {
    var after := Upsert(acc, x);
    var i, j := Slot(acc, x.mention.value.text), Slot(acc, text);
    assert after[i].mention.value.text == x.mention.value.text;
    assert j < |acc| ==> after[j].mention.value.text == text;
  }

  lemma {:induction false} DictionaryHoldsSurest(items: seq<Resolved>) returns (acc: seq<Resolved>)
    ensures acc == ByValue(items) && HoldsSurest(acc, items)
  {
    if items == [] {
      acc := [];
    } else {
      var front, x := items[..|items| - 1], items[|items| - 1];
      assert items == front + [x];
      var before := DictionaryHoldsSurest(front);
      acc := Upsert(before, x);
      UpsertHoldsSurest(before, front, x, items, acc);
    }
  }

  lemma UpsertHoldsSurest(
    acc: seq<Resolved>, front: seq<Resolved>, x: Resolved, items: seq<Resolved>, after: seq<Resolved>)
    requires HoldsSurest(acc, front) && items == front + [x] && after == Upsert(acc, x)
    ensures HoldsSurest(after, items)
  {
    UpsertHolds(acc, front, x);
    UpsertKeepsOrder(acc, front, x);
    forall k | 0 <= k < |front + [x]| ensures Slot(Upsert(acc, x), (front + [x])[k].mention.value.text) < |Upsert(acc, x)| {
      SlotAfter(acc, x, (front + [x])[k].mention.value.text);
    }
  }

  lemma UpsertHolds(acc: seq<Resolved>, front: seq<Resolved>, x: Resolved)
    requires HoldsSurest(acc, front)
    ensures forall i :: 0 <= i < |Upsert(acc, x)| ==> Held(front + [x], Upsert(acc, x)[i])
  {
    var items, after := front + [x], Upsert(acc, x);
    var slot := Slot(acc, x.mention.value.text);
    forall i | 0 <= i < |after| ensures Held(items, after[i]) {
      if i == slot && (slot == |acc| || x.confidence >= acc[slot].confidence) {
        forall j | 0 <= j < |front| && SamePrint(front[j], x) ensures front[j].confidence <= x.confidence {
          assert Slot(acc, front[j].mention.value.text) < |acc|;
          var k: nat :| SurestLatest(front, k) && front[k] == acc[slot];
        }
        NewSurest(front, x);
        assert items[|front|] == after[i];
      } else {
        var k: nat :| SurestLatest(front, k) && front[k] == acc[i];
        if SamePrint(x, front[k]) {
          SameSlot(acc, front, i, slot);
        }
        SurestStays(front, x, k);
        assert items[k] == after[i];
      }
    }
  }

  lemma SameSlot(acc: seq<Resolved>, front: seq<Resolved>, i: nat, slot: nat)
    requires HoldsSurest(acc, front) && i < |acc| && slot < |acc| && SamePrint(acc[i], acc[slot])
    ensures i == slot
  {
  }

  lemma HeldIsSeen(acc: seq<Resolved>, front: seq<Resolved>, i: nat)
    requires HoldsSurest(acc, front) && i < |acc|
    ensures FirstSeen(front, acc[i].mention.value.text) < |front|
  {
    var k: nat :| SurestLatest(front, k) && front[k] == acc[i];
    SeenInFront(front, k);
  }

  lemma SlotsKeepOrder(acc: seq<Resolved>, front: seq<Resolved>, x: Resolved, i: nat, j: nat)
    requires HoldsSurest(acc, front) && i < j < |acc|
    ensures FirstSeen(front + [x], acc[i].mention.value.text) < FirstSeen(front + [x], acc[j].mention.value.text)
  {
    HeldIsSeen(acc, front, i);
    HeldIsSeen(acc, front, j);
    FirstSeenGrows(front, x, acc[i].mention.value.text);
    FirstSeenGrows(front, x, acc[j].mention.value.text);
  }

  lemma NewSlotIsLast(acc: seq<Resolved>, front: seq<Resolved>, x: Resolved, i: nat)
    requires HoldsSurest(acc, front) && i < |acc| && Slot(acc, x.mention.value.text) == |acc|
    ensures FirstSeen(front + [x], acc[i].mention.value.text) < FirstSeen(front + [x], x.mention.value.text)
  {
    HeldIsSeen(acc, front, i);
    NotHeldNotSeen(acc, front, x.mention.value.text);
    FirstSeenGrows(front, x, acc[i].mention.value.text);
    FirstSeenGrows(front, x, x.mention.value.text);
  }

  lemma UpsertKeepsPrints(acc: seq<Resolved>, x: Resolved, i: nat)
    requires i < |acc|
    ensures i < |Upsert(acc, x)| && Upsert(acc, x)[i].mention.value.text == acc[i].mention.value.text
  {
  }

  lemma UpsertKeepsOrder(acc: seq<Resolved>, front: seq<Resolved>, x: Resolved)
    requires HoldsSurest(acc, front)
    ensures var after := Upsert(acc, x);
            forall i, j :: 0 <= i < j < |after| ==>
              FirstSeen(front + [x], after[i].mention.value.text) < FirstSeen(front + [x], after[j].mention.value.text)
  {
    var after := Upsert(acc, x);
    forall i, j | 0 <= i < j < |after|
      ensures FirstSeen(front + [x], after[i].mention.value.text) < FirstSeen(front + [x], after[j].mention.value.text)
    {
      UpsertKeepsPrints(acc, x, i);
      if j < |acc| {
        UpsertKeepsPrints(acc, x, j);
        SlotsKeepOrder(acc, front, x, i, j);
      } else {
        NewSlotIsLast(acc, front, x, i);
      }
    }
  }

  lemma NotHeldNotSeen(acc: seq<Resolved>, front: seq<Resolved>, text: int)
    requires HoldsSurest(acc, front) && Slot(acc, text) == |acc|
    ensures FirstSeen(front, text) == |front|
  {
    forall j | 0 <= j < |front| ensures front[j].mention.value.text != text {
      assert Slot(acc, front[j].mention.value.text) < |acc|;
    }
  }

  // ---------------------------------------------------------------- the last of a stable sort

  lemma InsertEnds(s: seq<Resolved>, x: Resolved)
    ensures var r := Sorting.Insert(s, x, Earlier);
            && r != []
            && r[|r| - 1] == if s == [] || Earlier(s[|s| - 1], x) then x else s[|s| - 1]
  {
  }

  /** A stable sort by time ends with the last of the latest members. */
  lemma {:induction false} SortEnds(s: seq<Resolved>) returns (i: nat)
    requires s != []
    ensures i < |s| && Sorting.Sort(s, Earlier) != []
    ensures Sorting.Sort(s, Earlier)[|Sorting.Sort(s, Earlier)| - 1] == s[i]
    ensures forall j :: 0 <= j < |s| && j != i ==>
      || s[j].mention.observedAt < s[i].mention.observedAt
      || (s[j].mention.observedAt == s[i].mention.observedAt && j < i)
  {
    var front, x := s[..|s| - 1], s[|s| - 1];
    var sorted := Sorting.Sort(front, Earlier);
    InsertEnds(sorted, x);
    if front == [] {
      i := 0;
    } else {
      i := SortEnds(front);
      if Earlier(front[i], x) {
        i := |s| - 1;
      }
    }
  }

  // ---------------------------------------------------------------- the winner

  function InTime(candidates: seq<Resolved>): seq<Resolved> {
    Sorting.Sort(candidates, Earlier)
  }

  /** The dictionary's member that a stable sort by time puts last wins. */
  lemma LastSlotWins(items: seq<Resolved>, acc: seq<Resolved>, i: nat) returns (k: nat)
    requires HoldsSurest(acc, items) && i < |acc|
    requires forall j :: 0 <= j < |acc| && j != i ==>
      || acc[j].mention.observedAt < acc[i].mention.observedAt
      || (acc[j].mention.observedAt == acc[i].mention.observedAt && j < i)
    ensures Wins(items, k) && items[k] == acc[i]
  {
    assert Held(items, acc[i]);
    var w: nat :| SurestLatest(items, w) && items[w] == acc[i];
    k := w;
    forall m: nat | SurestLatest(items, m) && m != k ensures Outlasts(items, k, m) {
      SlotHoldsSurest(acc, items, m);
      var j := Slot(acc, items[m].mention.value.text);
      if j == i {
        OneSurestPerValue(items, k, m);
      } else {
        SlotOutlasts(items, acc, i, j, k, m);
      }
    }
  }

  lemma SlotOutlasts(items: seq<Resolved>, acc: seq<Resolved>, i: nat, j: nat, k: nat, m: nat)
    requires HoldsSurest(acc, items) && i < |acc| && j < |acc| && k < |items| && m < |items|
    requires items[k] == acc[i] && items[m] == acc[j]
    requires || acc[j].mention.observedAt < acc[i].mention.observedAt
             || (acc[j].mention.observedAt == acc[i].mention.observedAt && j < i)
    ensures Outlasts(items, k, m)
  {
  }

  lemma WinnerIsLast(candidates: seq<Resolved>, existing: Option<Fact>)
    requires candidates != []
    ensures var reps := Sorting.Sort(ByValue(InTime(candidates)), Earlier);
            reps != [] && ReconcileField(candidates, existing).0.mention == reps[|reps| - 1].mention
  {
    RepresentativesCover(candidates);
  }

  /** Reconciliation keeps the mention that wins among the candidates in time order. */
  lemma WinnerIs(candidates: seq<Resolved>, existing: Option<Fact>) returns (k: nat)
    requires candidates != []
    ensures Wins(InTime(candidates), k)
    ensures ReconcileField(candidates, existing).0.mention == InTime(candidates)[k].mention
  {
    var items := InTime(candidates);
    WinnerIsLast(candidates, existing);
    var acc := DictionaryHoldsSurest(items);
    NonEmptyDictionary(candidates);
    var i := SortEnds(acc);
    k := LastSlotWins(items, acc, i);
  }

  lemma NonEmptyDictionary(candidates: seq<Resolved>)
    requires candidates != []
    ensures ByValue(InTime(candidates)) != []
  {
    RepresentativesCover(candidates);
  }

  lemma SlotHoldsSurest(acc: seq<Resolved>, items: seq<Resolved>, m: nat)
    requires HoldsSurest(acc, items) && SurestLatest(items, m)
    ensures Slot(acc, items[m].mention.value.text) < |acc|
    ensures acc[Slot(acc, items[m].mention.value.text)] == items[m]
  {
    var j := Slot(acc, items[m].mention.value.text);
    var k: nat :| SurestLatest(items, k) && items[k] == acc[j];
    OneSurestPerValue(items, k, m);
  }

  lemma {:induction false} EveryValueHasSurest(items: seq<Resolved>, j: nat) returns (k: nat)
    requires j < |items|
    ensures SurestLatest(items, k) && SamePrint(items[k], items[j])
  {
    var acc := DictionaryHoldsSurest(items);
    var slot := Slot(acc, items[j].mention.value.text);
    assert Held(items, acc[slot]);
    var w: nat :| SurestLatest(items, w) && items[w] == acc[slot];
    k := w;
  }

  /** A mention that is the surest latest of its value carries its value through reconciliation exactly when it outlasts
      the surest latest mention of every other value. */
  lemma ValueWinsIff(candidates: seq<Resolved>, existing: Option<Fact>, k: nat)
    requires candidates != [] && SurestLatest(InTime(candidates), k)
    ensures ReconcileField(candidates, existing).0.mention.value.text == InTime(candidates)[k].mention.value.text
            <==> Wins(InTime(candidates), k)
  {
    var w := WinnerIs(candidates, existing);
    if SamePrint(InTime(candidates)[w], InTime(candidates)[k]) {
      OneSurestPerValue(InTime(candidates), w, k);
    }
    if Wins(InTime(candidates), k) {
      OneWinner(InTime(candidates), w, k);
    }
  }

  /** The newest printed value wins exactly when the latest among its surest mentions outlasts the latest among the surest
      mentions of every other printed value. */
  lemma NewestValueWinsIff(candidates: seq<Resolved>, existing: Option<Fact>) returns (k: nat)
    requires candidates != []
    ensures InTime(candidates) != []
    ensures var items := InTime(candidates);
            && SurestLatest(items, k) && SamePrint(items[k], items[|items| - 1])
            && (SamePrintAs(ReconcileField(candidates, existing).0.mention, items[|items| - 1].mention)
                <==> forall m: nat :: SurestLatest(items, m) && m != k ==> Outlasts(items, k, m))
  {
    Sorting.SortPermutes(candidates, Earlier);
    k := EveryValueHasSurest(InTime(candidates), |candidates| - 1);
    ValueWinsIff(candidates, existing, k);
  }

  predicate SamePrintAs(a: Mention, b: Mention) {
    a.value.text == b.value.text
  }

  /** No candidate that prints like the newest mention is surer than it. */
  ghost predicate NewestIsSurest(items: seq<Resolved>) {
    && items != []
    && forall j :: 0 <= j < |items| && SamePrint(items[j], items[|items| - 1]) ==>
         items[j].confidence <= items[|items| - 1].confidence
  }

  /** A newest mention none of its own print is surer than wins exactly when no value first seen after its own has its
      surest latest mention at the same instant. */
  lemma SurestNewestWinsIff(candidates: seq<Resolved>, existing: Option<Fact>)
    requires candidates != [] && NewestIsSurest(InTime(candidates))
    ensures var items := InTime(candidates);
            var n := |items| - 1;
            ReconcileField(candidates, existing).0.mention.value.text == items[n].mention.value.text
            <==> forall m: nat :: SurestLatest(items, m) && m != n && items[m].mention.observedAt == items[n].mention.observedAt ==>
                   FirstSeen(items, items[m].mention.value.text) < FirstSeen(items, items[n].mention.value.text)
  {
    var items := InTime(candidates);
    var n := |items| - 1;
    assert SurestLatest(items, n);
    ValueWinsIff(candidates, existing, n);
    InTimeIsSorted(candidates);
    forall m: nat | SurestLatest(items, m) && m != n
      ensures items[m].mention.observedAt <= items[n].mention.observedAt
    {
      assert Earlier(items[m], items[n]);
    }
  }

  lemma InTimeIsSorted(candidates: seq<Resolved>)
    ensures Sorting.SortedBy(InTime(candidates), Earlier)
  {
    assert Sorting.TotalPreorder(Earlier);
    Sorting.SortSorts(candidates, Earlier);
  }

  /** So it always wins when every other value was last mentioned before it. */
  lemma SurestNewestWins(candidates: seq<Resolved>, existing: Option<Fact>)
    requires candidates != [] && NewestIsSurest(InTime(candidates))
    requires var items := InTime(candidates);
             forall j :: 0 <= j < |items| && !SamePrint(items[j], items[|items| - 1]) ==>
               items[j].mention.observedAt < items[|items| - 1].mention.observedAt
    ensures ReconcileField(candidates, existing).0.mention == InTime(candidates)[|InTime(candidates)| - 1].mention
  {
    var items := InTime(candidates);
    var n := |items| - 1;
    assert SurestLatest(items, n);
    forall m: nat | SurestLatest(items, m) && m != n ensures Outlasts(items, n, m) {
      if SamePrint(items[m], items[n]) {
        OneSurestPerValue(items, m, n);
        assert false;
      }
    }
    var w := WinnerIs(candidates, existing);
    OneWinner(items, w, n);
  }

  lemma DictionaryIsSurest(items: seq<Resolved>, acc: seq<Resolved>)
    requires HoldsSurest(acc, items)
    ensures forall x :: x in acc <==> Held(items, x)
    ensures PrintsApart(acc)
  {
    forall x | Held(items, x) ensures x in acc {
      var k: nat :| SurestLatest(items, k) && items[k] == x;
      SlotHoldsSurest(acc, items, k);
    }
  }

  /** The representatives are the surest latest mentions, one for each printed value. */
  lemma RepresentativesAreSurest(candidates: seq<Resolved>)
    requires candidates != []
    ensures forall x :: x in Representatives(candidates) <==> Held(InTime(candidates), x)
    ensures PrintsApart(Representatives(candidates))
    ensures forall y :: y in candidates ==> exists x :: x in Representatives(candidates) && SamePrint(x, y) && x.confidence >= y.confidence
  {
    var items := InTime(candidates);
    var acc := DictionaryHoldsSurest(items);
    var reps := Representatives(candidates);
    DictionaryIsSurest(items, acc);
    RepresentativesCover(candidates);
    SortKeepsPrintsApart(acc);
    assert forall x :: x in reps <==> Held(items, x);
    SurestCoverAll(candidates, reps);
  }

  lemma SurestCoverAll(candidates: seq<Resolved>, reps: seq<Resolved>)
    requires forall x :: x in reps <==> Held(InTime(candidates), x)
    ensures forall y :: y in candidates ==> exists x :: x in reps && SamePrint(x, y) && x.confidence >= y.confidence
  {
    var items := InTime(candidates);
    Sorting.SortPermutes(candidates, Earlier);
    forall y | y in candidates ensures exists x :: x in reps && SamePrint(x, y) && x.confidence >= y.confidence {
      assert y in items;
      var j: nat :| j < |items| && items[j] == y;
      var k := EveryValueHasSurest(items, j);
      assert Held(items, items[k]) && items[k] in reps;
    }
  }

  ghost predicate PrintsApart(s: seq<Resolved>) {
    forall i, j :: 0 <= i < j < |s| ==> !SamePrint(s[i], s[j])
  }

  lemma {:induction false} InsertKeepsPrintsApart(s: seq<Resolved>, x: Resolved)
    requires PrintsApart(s) && forall y :: y in s ==> !SamePrint(y, x)
    ensures PrintsApart(Sorting.Insert(s, x, Earlier))
  {
    if s != [] && !Earlier(s[|s| - 1], x) {
      var front, last := s[..|s| - 1], s[|s| - 1];
      InsertKeepsPrintsApart(front, x);
      var r := Sorting.Insert(front, x, Earlier);
      Sorting.InsertAdds(front, x, Earlier);
      forall i | 0 <= i < |r| ensures !SamePrint(r[i], last) {
        assert r[i] in multiset(r);
        assert r[i] in front || r[i] == x;
        assert last in s;
      }
    }
  }

  lemma {:induction false} SortKeepsPrintsApart(s: seq<Resolved>)
    requires PrintsApart(s)
    ensures PrintsApart(Sorting.Sort(s, Earlier))
  {
    if s != [] {
      var front, last := s[..|s| - 1], s[|s| - 1];
      SortKeepsPrintsApart(front);
      Sorting.SortPermutes(front, Earlier);
      forall y | y in Sorting.Sort(front, Earlier) ensures !SamePrint(y, last) {
        assert y in front;
        var i :| 0 <= i < |front| && front[i] == y;
      }
      InsertKeepsPrintsApart(Sorting.Sort(front, Earlier), last);
    }
  }

  // ---------------------------------------------------------------- two concrete inputs

  const POLICY := ConfidencePolicy(8500, 6500, 4000)

  function Said(text: int, declared: int, message: nat, at: int): Mention {
    Mention(Attribute(0), Value(text, text, 0), Observed, declared, true, message, at)
  }

  lemma SortedStays(s: seq<Resolved>)
    requires |s| == 3 && Earlier(s[0], s[1]) && Earlier(s[1], s[2])
    ensures Sorting.Sort(s, Earlier) == s
  {
    assert s[..2] == [s[0], s[1]] && s[..2][..1] == [s[0]] && s[..2][..1][..0] == [];
    assert Sorting.Sort([s[0]], Earlier) == [s[0]];
    assert Sorting.Sort([s[0], s[1]], Earlier) == [s[0], s[1]];
  }

  lemma SupportOfThree(mentions: seq<Mention>, f: Field, text: int)
    requires |mentions| == 3
    ensures Support(mentions, f, text) ==
            (if mentions[0].field == f && mentions[0].value.text == text then 1 else 0)
            + (if mentions[1].field == f && mentions[1].value.text == text then 1 else 0)
            + (if mentions[2].field == f && mentions[2].value.text == text then 1 else 0)
  {
    var two, one := mentions[..2], mentions[..1];
    assert two[..1] == one && one[..0] == [];
    assert Support([], f, text) == 0;
    assert Support(one, f, text) == if mentions[0].field == f && mentions[0].value.text == text then 1 else 0;
    assert Support(two, f, text)
        == Support(one, f, text) + (if mentions[1].field == f && mentions[1].value.text == text then 1 else 0);
  }

  /** The resolver's answers to three mentions, the outer two printing alike. */
  lemma ThreeResolved(a: int, b: int, c: int, t: int, u: int, v: int) returns (resolved: seq<Resolved>)
    requires 0 <= a <= 9500 && 0 <= b <= 9500 && 0 <= c <= 9500
    ensures resolved == ResolveAll([Said(1, a, 1, t), Said(2, b, 2, u), Said(1, c, 3, v)], POLICY)
    ensures |resolved| == 3
    ensures resolved[0].mention == Said(1, a, 1, t) && resolved[0].confidence == a + 500
    ensures resolved[1].mention == Said(2, b, 2, u) && resolved[1].confidence == b
    ensures resolved[2].mention == Said(1, c, 3, v) && resolved[2].confidence == c + 500
  {
    var mentions := [Said(1, a, 1, t), Said(2, b, 2, u), Said(1, c, 3, v)];
    SupportOfThree(mentions, Attribute(0), 1);
    SupportOfThree(mentions, Attribute(0), 2);
    resolved := ResolveAll(mentions, POLICY);
  }

  /** The newest mention is in the candidates and reconciliation keeps another value. */
  ghost predicate NewestLoses(mentions: seq<Mention>) {
    var items := InTime(ResolveAll(mentions, POLICY));
    && items != []
    && ReconcileField(ResolveAll(mentions, POLICY), None).0.mention.value.text != items[|items| - 1].mention.value.text
  }

  /** The newest mention need not win: a surer, older mention of its own value stands for it. */
  lemma NewestMentionCanLose()
    ensures exists mentions: seq<Mention> :: |mentions| == 3 && mentions[2].observedAt > mentions[1].observedAt && NewestLoses(mentions)
  {
    var mentions := [Said(1, 9000, 1, 1), Said(2, 9000, 2, 2), Said(1, 5000, 3, 3)];
    var resolved := ThreeResolved(9000, 9000, 5000, 1, 2, 3);
    SortedStays(resolved);
    assert SurestLatest(resolved, 0);
    assert SurestLatest(resolved, 1);
    assert !Outlasts(resolved, 0, 1);
    assert !Wins(resolved, 0);
    ValueWinsIff(resolved, None, 0);
    assert NewestLoses(mentions);
  }

  /** Even a surest newest mention can lose, to a value first seen later and mentioned at the same instant. */
  lemma SurestNewestCanLoseATie()
    ensures exists mentions: seq<Mention> :: |mentions| == 3 && NewestIsSurest(InTime(ResolveAll(mentions, POLICY))) && NewestLoses(mentions)
  {
    var mentions := [Said(1, 9000, 1, 1), Said(2, 9000, 2, 2), Said(1, 9000, 3, 2)];
    var resolved := ThreeResolved(9000, 9000, 9000, 1, 2, 2);
    SortedStays(resolved);
    assert SurestLatest(resolved, 1) && SurestLatest(resolved, 2);
    assert resolved[0].mention.value.text == 1 && resolved[1].mention.value.text == 2;
    assert FirstSeen(resolved, 1) == 0;
    assert FirstSeen(resolved, 2) == 1;
    assert !Outlasts(resolved, 2, 1);
    assert !Wins(resolved, 2);
    ValueWinsIff(resolved, None, 2);
    assert NewestIsSurest(resolved) && NewestLoses(mentions);
  }
}
