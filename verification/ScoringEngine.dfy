// The scoring engine as it works: dictionaries and lists filled in loops, tied to the functions of module Scoring.
module ScoringEngine {
  import opened Wrappers
  import opened Signals
  import opened Scoring
  import Theorems = ScoringTheorems
  import Sorting

  // ---------------------------------------------------------------- usable signals

  function StatusRank(s: ValidationStatus): int {
    match s
    case Hypothesis => 0
    case AcceptedSignal => 1
    case Confirmed => 2
    case Rejected => -1
  }

  /** The strict order of signal ranks: validation, then confidence, then recency. */
  predicate Outranks(a: Signal, b: Signal) {
    || StatusRank(a.status) > StatusRank(b.status)
    || (StatusRank(a.status) == StatusRank(b.status)
        && (a.confidence > b.confidence || (a.confidence == b.confidence && a.observedAt > b.observedAt)))
  }

  /** One signal is kept per usable code, and no usable signal of its code outranks it. */
  method UsableSignals(signals: seq<Signal>, minimum: int) returns (selected: map<SignalCode, Signal>)
    ensures selected.Keys == UsableCodes(signals, minimum)
    ensures forall code :: code in selected ==>
      && selected[code] in signals && selected[code].code == code && Usable(selected[code], minimum)
      && forall s :: s in signals && s.code == code && Usable(s, minimum) ==> !Outranks(s, selected[code])
  {
    selected := map[];
    for i := 0 to |signals|
      invariant selected.Keys == UsableCodes(signals[..i], minimum)
      invariant forall code :: code in selected ==>
        && selected[code] in signals[..i] && selected[code].code == code && Usable(selected[code], minimum)
        && forall s :: s in signals[..i] && s.code == code && Usable(s, minimum) ==> !Outranks(s, selected[code])
    {
      var signal := signals[i];
      assert signals[..i + 1] == signals[..i] + [signal];
      if Usable(signal, minimum) && (signal.code !in selected || Outranks(signal, selected[signal.code])) {
        selected := selected[signal.code := signal];
      }
    }
    assert signals[..|signals|] == signals;
  }

  // ---------------------------------------------------------------- criteria

  datatype GroupKey = GroupKey(dimension: Dimension, group: int)

  function KeyOf(c: Criterion): GroupKey
    requires c.group.Some?
  {
    GroupKey(c.dimension, c.group.value)
  }

  predicate InnerOrder(a: Criterion, b: Criterion) {
    Beats(a, b)
  }

  /** `groups` holds the grouped criteria of `matched`, each under its key. */
  ghost predicate Grouped(matched: seq<Criterion>, groups: map<GroupKey, seq<Criterion>>) {
    && (forall k :: k in groups ==> groups[k] != [])
    && (forall k, c :: k in groups && c in groups[k] ==> c in matched && c.group.Some? && KeyOf(c) == k)
    && (forall c :: c in matched && c.group.Some? ==> KeyOf(c) in groups && c in groups[KeyOf(c)])
  }

  method GroupCriteria(matched: seq<Criterion>) returns (order: seq<GroupKey>, groups: map<GroupKey, seq<Criterion>>)
    ensures Grouped(matched, groups)
    ensures forall k :: k in order <==> k in groups
    ensures forall i, j :: 0 <= i < j < |order| ==> order[i] != order[j]
  {
    order, groups := [], map[];
    for n := 0 to |matched|
      invariant Grouped(matched[..n], groups)
      invariant forall k :: k in order <==> k in groups
      invariant forall i, j :: 0 <= i < j < |order| ==> order[i] != order[j]
    {
      var c := matched[n];
      assert matched[..n + 1] == matched[..n] + [c];
      if c.group.Some? {
        var key := KeyOf(c);
        if key in groups {
          groups := groups[key := groups[key] + [c]];
        } else {
          order := order + [key];
          groups := groups[key := [c]];
        }
      }
    }
    assert matched[..|matched|] == matched;
  }

  lemma BestOfGroup(values: seq<Criterion>)
    requires values != []
    ensures Sorting.Sort(values, InnerOrder) != []
    ensures Sorting.Sort(values, InnerOrder)[0] in values
    ensures forall c :: c in values ==> Beats(Sorting.Sort(values, InnerOrder)[0], c)
  {
    assert Sorting.TotalPreorder(InnerOrder);
    Sorting.SortSorts(values, InnerOrder);
    Sorting.SortPermutes(values, InnerOrder);
    var sorted := Sorting.Sort(values, InnerOrder);
    forall c | c in values ensures Beats(sorted[0], c) {
      assert c in sorted;
      var k :| 0 <= k < |sorted| && sorted[k] == c;
    }
  }

  /** The selected members, each once, are the members that match and win their group. */
  ghost predicate Picks(picked: seq<Criterion>, criteria: seq<Criterion>, codes: set<SignalCode>) {
    && Theorems.DistinctCodes(picked)
    && forall c :: c in picked <==> c in criteria && Selected(criteria, codes, c)
  }

  /** Sequences of distinct criteria with the same members are permutations. */
  lemma SameMembersPermute(a: seq<Criterion>, b: seq<Criterion>)
    requires Theorems.DistinctCodes(a) && Theorems.DistinctCodes(b)
    requires forall c :: c in a <==> c in b
    ensures multiset(a) == multiset(b)
  {
    forall c ensures multiset(a)[c] == multiset(b)[c] {
      Theorems.NoRepeats(a, c);
      Theorems.NoRepeats(b, c);
      assert c in multiset(a) <==> c in a;
      assert c in multiset(b) <==> c in b;
    }
  }

  lemma PickedSortIsContributions(picked: seq<Criterion>, criteria: seq<Criterion>, codes: set<SignalCode>)
    requires Theorems.DistinctCodes(criteria) && Picks(picked, criteria, codes)
    ensures Sorting.Sort(picked, CriterionOrder) == Contributions(criteria, codes)
  {
    var p := c => Selected(criteria, codes, c);
    Theorems.FilterKeepsDistinct(criteria, p);
    SameMembersPermute(picked, Filter(criteria, p));
    Theorems.DistinctCriteriaDoNotTie(picked);
    Theorems.CriterionOrderIsPreorder();
    Sorting.SortIgnoresOrder(picked, Filter(criteria, p), CriterionOrder);
  }

  /** Which criteria have been picked once the ungrouped ones and the groups in `done` are through. */
  ghost predicate PickedSoFar(picked: seq<Criterion>, criteria: seq<Criterion>, codes: set<SignalCode>, done: seq<GroupKey>) {
    && Theorems.DistinctCodes(picked)
    && forall c :: c in picked <==>
         c in criteria && Selected(criteria, codes, c) && (c.group.None? || KeyOf(c) in done)
  }

  lemma WinnerIsSelected(
    criteria: seq<Criterion>, codes: set<SignalCode>, matched: seq<Criterion>, groups: map<GroupKey, seq<Criterion>>,
    key: GroupKey, w: Criterion)
    requires Theorems.DistinctCodes(criteria)
    requires forall c :: c in matched <==> c in criteria && Matches(c, codes)
    requires Grouped(matched, groups) && key in groups
    requires w in groups[key] && forall c :: c in groups[key] ==> Beats(w, c)
    ensures w in criteria && Selected(criteria, codes, w) && w.group.Some? && KeyOf(w) == key
    ensures forall c :: c in criteria && Selected(criteria, codes, c) && c.group.Some? && KeyOf(c) == key ==> c == w
  {
    forall other | other in criteria && Matches(other, codes) && Compete(w, other) ensures Beats(w, other) {
      assert other in matched && KeyOf(other) == key;
    }
    forall c | c in criteria && Selected(criteria, codes, c) && c.group.Some? && KeyOf(c) == key ensures c == w {
      assert c in matched && c in groups[key];
      assert Beats(c, w) && Beats(w, c);
      Theorems.CodesIdentify(criteria, c, w);
    }
  }

  lemma PickOne(
    picked: seq<Criterion>, criteria: seq<Criterion>, codes: set<SignalCode>, done: seq<GroupKey>, key: GroupKey, w: Criterion)
    requires Theorems.DistinctCodes(criteria) && PickedSoFar(picked, criteria, codes, done) && key !in done
    requires w in criteria && Selected(criteria, codes, w) && w.group.Some? && KeyOf(w) == key
    requires forall c :: c in criteria && Selected(criteria, codes, c) && c.group.Some? && KeyOf(c) == key ==> c == w
    ensures PickedSoFar(picked + [w], criteria, codes, done + [key])
  {
    forall i | 0 <= i < |picked| ensures picked[i].code != w.code {
      assert picked[i] in picked;
      if picked[i].code == w.code {
        Theorems.CodesIdentify(criteria, picked[i], w);
        assert false;
      }
    }
    var after, groups := picked + [w], done + [key];
    forall c ensures c in after <==> c in criteria && Selected(criteria, codes, c) && (c.group.None? || KeyOf(c) in groups) {
      assert c in after <==> c in picked || c == w;
    }
  }

  /** Pick the ungrouped matches and the best of each group; the result is the declarative selection, sorted. */
  method SelectCriteria(criteria: seq<Criterion>, codes: set<SignalCode>) returns (selected: seq<Criterion>)
    requires Theorems.DistinctCodes(criteria)
    ensures selected == Contributions(criteria, codes)
  {
    var matched := Filter(criteria, c => Matches(c, codes));
    var ungrouped := Filter(matched, (c: Criterion) => c.group.None?);
    var order, groups := GroupCriteria(matched);
    Theorems.FilterKeepsDistinct(criteria, c => Matches(c, codes));
    Theorems.FilterKeepsDistinct(matched, (c: Criterion) => c.group.None?);
    var picked := ungrouped;
    for n := 0 to |order|
      invariant PickedSoFar(picked, criteria, codes, order[..n])
    {
      var key := order[n];
      assert key in order && order[..n + 1] == order[..n] + [key];
      BestOfGroup(groups[key]);
      var w := Sorting.Sort(groups[key], InnerOrder)[0];
      WinnerIsSelected(criteria, codes, matched, groups, key, w);
      PickOne(picked, criteria, codes, order[..n], key, w);
      picked := picked + [w];
    }
    assert order[..|order|] == order;
    assert Picks(picked, criteria, codes);
    PickedSortIsContributions(picked, criteria, codes);
    selected := Sorting.Sort(picked, CriterionOrder);
  }

  // ---------------------------------------------------------------- dimensions and signals used

  method ScoreDimensions(dimensions: seq<DimensionDefinition>, contributions: seq<Criterion>)
    returns (scores: seq<DimensionScore>)
    ensures scores == DimensionScores(dimensions, contributions)
  {
    var raw: map<Dimension, int> := map[];
    for i := 0 to |contributions|
      invariant forall d :: RawPoints(contributions[..i], d) == if d in raw then raw[d] else 0
    {
      assert contributions[..i + 1][..i] == contributions[..i];
      var c := contributions[i];
      raw := raw[c.dimension := (if c.dimension in raw then raw[c.dimension] else 0) + c.points];
    }
    assert contributions[..|contributions|] == contributions;
    scores := [];
    for i := 0 to |dimensions|
      invariant scores == DimensionScores(dimensions, contributions)[..i]
    {
      var definition := dimensions[i];
      var points := if definition.dimension in raw then raw[definition.dimension] else 0;
      scores := scores + [DimensionScore(definition.dimension, points, Min(points, definition.maxPoints), definition.maxPoints)];
    }
  }

  method CollectSignals(contributions: seq<Criterion>, penalties: seq<Penalty>, decisions: seq<Decision>)
    returns (used: set<SignalCode>)
    ensures used == SignalsUsed(contributions, penalties, decisions)
  {
    used := {};
    for i := 0 to |contributions|
      invariant used == SignalsUsed(contributions[..i], [], [])
    {
      assert contributions[..i + 1] == contributions[..i] + [contributions[i]];
      used := used + contributions[i].required;
    }
    assert contributions[..|contributions|] == contributions;
    for i := 0 to |penalties|
      invariant used == SignalsUsed(contributions, penalties[..i], [])
    {
      assert penalties[..i + 1] == penalties[..i] + [penalties[i]];
      used := used + penalties[i].required;
    }
    assert penalties[..|penalties|] == penalties;
    for i := 0 to |decisions|
      invariant used == SignalsUsed(contributions, penalties, decisions[..i])
    {
      assert decisions[..i + 1] == decisions[..i] + [decisions[i]];
      used := used + decisions[i].required;
    }
    assert decisions[..|decisions|] == decisions;
  }

  // ---------------------------------------------------------------- the engine

  method EvaluateLead(request: Request, p: Policy) returns (answer: Answer)
    requires ValidPolicy(p)
    ensures answer == Evaluate(request, p)
  {
    if p.header.status != Published {
      return NotPublished;
    }
    if p.header.tenant != request.tenant {
      return ForeignTenant;
    }
    if p.header.opportunity != request.opportunity {
      return WrongOpportunity;
    }
    var usable := UsableSignals(request.signals, p.header.minimumConfidence);
    var codes := usable.Keys;
    var contributions := SelectCriteria(p.criteria, codes);
    var dimensions := ScoreDimensions(p.dimensions, contributions);
    var penalties := MatchedPenalties(p.penalties, codes);
    var decisions := MatchedDecisions(p.decisions, codes);
    var score := Score(Subtotal(dimensions), penalties);
    var band := Classify(p.bands, score);
    if band.None? {
      return NoBand;
    }
    var (action, decided) := Recommend(band.value.action, penalties, decisions);
    var used := CollectSignals(contributions, penalties, decisions);
    answer := Evaluated(Evaluation(
      score, Subtotal(dimensions), band.value.classification, dimensions, contributions, penalties, decisions,
      set q | q in penalties :: q.effect,
      set q | q in penalties && q.blockedOffer.Some? :: q.blockedOffer.value,
      action, AdviseHandoff(action, band.value.classification, decided, decisions), AdviseState(decided, penalties), used));
  }
}
