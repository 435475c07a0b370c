// What holds of every valid policy: conservation and coverage, the maximum of each exclusive group, dependence on
// sets only, monotonicity, and the do-not-contact rule.
module ScoringTheorems {
  import opened Wrappers
  import opened Signals
  import opened StateMachines
  import opened Scoring
  import Sorting

  // ---------------------------------------------------------------- filters and permutations

  lemma {:induction false} FilterCounts<T(!new)>(s: seq<T>, p: T -> bool, x: T)
    ensures multiset(Filter(s, p))[x] == if p(x) then multiset(s)[x] else 0
  {
    if s != [] {
      FilterCounts(s[..|s| - 1], p, x);
      assert s == s[..|s| - 1] + [s[|s| - 1]];
    }
  }

  /** Filtering permutations by predicates that agree gives permutations. */
  lemma FilterPermutes<T(!new)>(s: seq<T>, t: seq<T>, p: T -> bool, q: T -> bool)
    requires multiset(s) == multiset(t)
    requires forall x :: p(x) == q(x)
    ensures multiset(Filter(s, p)) == multiset(Filter(t, q))
  {
    forall x ensures multiset(Filter(s, p))[x] == multiset(Filter(t, q))[x] {
      FilterCounts(s, p, x);
      FilterCounts(t, q, x);
    }
  }

  lemma SameMembers<T>(s: seq<T>, t: seq<T>)
    requires multiset(s) == multiset(t)
    ensures forall x :: x in s <==> x in t
  {
    forall x ensures x in s <==> x in t {
      assert x in s <==> x in multiset(s);
      assert x in t <==> x in multiset(t);
    }
  }

  ghost predicate DistinctCodes(criteria: seq<Criterion>) {
    forall i, j :: 0 <= i < j < |criteria| ==> criteria[i].code != criteria[j].code
  }

  lemma CodesIdentify(criteria: seq<Criterion>, a: Criterion, b: Criterion)
    requires DistinctCodes(criteria) && a in criteria && b in criteria && a.code == b.code
    ensures a == b
  {
  }

  // ---------------------------------------------------------------- contributions

  lemma ContributionMembers(criteria: seq<Criterion>, codes: set<SignalCode>, c: Criterion)
    ensures c in Contributions(criteria, codes) <==> c in criteria && Selected(criteria, codes, c)
  {
    Sorting.SortPermutes(Filter(criteria, c => Selected(criteria, codes, c)), CriterionOrder);
  }

  lemma {:induction false} FilterKeepsDistinct(criteria: seq<Criterion>, p: Criterion -> bool)
    requires DistinctCodes(criteria)
    ensures DistinctCodes(Filter(criteria, p))
  {
    if criteria != [] {
      var front, last := criteria[..|criteria| - 1], criteria[|criteria| - 1];
      FilterKeepsDistinct(front, p);
      var rest := Filter(front, p);
      forall i | 0 <= i < |rest| ensures rest[i].code != last.code {
        assert rest[i] in rest && rest[i] in front;
      }
    }
  }

  lemma MultiplicityIsDistinct(s: seq<Criterion>, t: seq<Criterion>)
    requires multiset(s) == multiset(t) && DistinctCodes(s)
    ensures DistinctCodes(t)
  {
    SameMembers(s, t);
    forall i, j | 0 <= i < j < |t| ensures t[i].code != t[j].code {
      var a, b := t[..j], t[j..];
      assert t == a + b;
      assert a[i] == t[i] && b[0] == t[j];
      assert t[i] in multiset(a) && t[j] in multiset(b);
      assert multiset(t) == multiset(a) + multiset(b);
      assert t[i] == t[j] ==> multiset(s)[t[i]] >= 2;
      NoRepeats(s, t[i]);
      assert t[i] in s && t[j] in s;
    }
  }

  lemma {:induction false} NoRepeats(s: seq<Criterion>, x: Criterion)
    requires DistinctCodes(s)
    ensures multiset(s)[x] <= 1
  {
    if s != [] {
      var front, last := s[..|s| - 1], s[|s| - 1];
      NoRepeats(front, x);
      assert s == front + [last];
      if last == x {
        assert x !in front;
        assert x !in multiset(front);
      }
    }
  }

  lemma ContributionsDistinct(criteria: seq<Criterion>, codes: set<SignalCode>)
    requires DistinctCodes(criteria)
    ensures DistinctCodes(Contributions(criteria, codes))
  {
    var chosen := Filter(criteria, c => Selected(criteria, codes, c));
    FilterKeepsDistinct(criteria, c => Selected(criteria, codes, c));
    Sorting.SortPermutes(chosen, CriterionOrder);
    MultiplicityIsDistinct(chosen, Contributions(criteria, codes));
  }

  // ---------------------------------------------------------------- exclusive groups

  predicate InGroupOf(c: Criterion, d: Dimension, g: int) {
    c.dimension == d && c.group == Some(g)
  }

  /** Among matching criteria of a group there is one that nothing matching beats. */
  lemma {:induction false} GroupHasWinner(criteria: seq<Criterion>, codes: set<SignalCode>, d: Dimension, g: int, n: nat)
    returns (w: Criterion)
    requires n <= |criteria|
    requires exists i :: 0 <= i < n && InGroupOf(criteria[i], d, g) && Matches(criteria[i], codes)
    ensures w in criteria[..n] && InGroupOf(w, d, g) && Matches(w, codes)
    ensures forall i :: 0 <= i < n && InGroupOf(criteria[i], d, g) && Matches(criteria[i], codes) ==> Beats(w, criteria[i])
  {
    var last := criteria[n - 1];
    if exists i :: 0 <= i < n - 1 && InGroupOf(criteria[i], d, g) && Matches(criteria[i], codes) {
      w := GroupHasWinner(criteria, codes, d, g, n - 1);
      assert w in criteria[..n] by {
        var k :| 0 <= k < n - 1 && criteria[..n - 1][k] == w;
        assert criteria[..n][k] == w;
      }
      if InGroupOf(last, d, g) && Matches(last, codes) && !Beats(w, last) {
        w := last;
        assert criteria[..n][n - 1] == w;
      }
    } else {
      w := last;
      assert criteria[..n][n - 1] == w;
    }
  }

  /** Points a group adds to its dimension. */
  function GroupPoints(contributions: seq<Criterion>, d: Dimension, g: int): int {
    if contributions == [] then 0
    else
      var last := contributions[|contributions| - 1];
      GroupPoints(contributions[..|contributions| - 1], d, g) + (if InGroupOf(last, d, g) then last.points else 0)
  }

  lemma {:induction false} OnlyMemberCounts(contributions: seq<Criterion>, d: Dimension, g: int, w: Criterion)
    requires forall i, j :: 0 <= i < j < |contributions| ==> !(InGroupOf(contributions[i], d, g) && InGroupOf(contributions[j], d, g))
    requires forall c :: c in contributions && InGroupOf(c, d, g) ==> c == w
    ensures GroupPoints(contributions, d, g) == if w in contributions && InGroupOf(w, d, g) then w.points else 0
  {
    if contributions != [] {
      var front, last := contributions[..|contributions| - 1], contributions[|contributions| - 1];
      assert contributions == front + [last];
      OnlyMemberCounts(front, d, g, w);
      assert InGroupOf(last, d, g) ==> last == w;
      if InGroupOf(last, d, g) {
        forall k | 0 <= k < |front| ensures front[k] != w {
          assert contributions[k] == front[k];
        }
      }
    }
  }

  /** At most one criterion of a group contributes. */
  lemma OneOfEachGroup(criteria: seq<Criterion>, codes: set<SignalCode>, a: Criterion, b: Criterion)
    requires DistinctCodes(criteria)
    requires a in Contributions(criteria, codes) && b in Contributions(criteria, codes) && Compete(a, b)
    ensures a == b
  {
    ContributionMembers(criteria, codes, a);
    ContributionMembers(criteria, codes, b);
    assert Beats(a, b) && Beats(b, a);
    CodesIdentify(criteria, a, b);
  }

  /** Each exclusive group adds exactly the maximum of its matching points, and nothing when none matches. */
  lemma GroupAddsItsMaximum(criteria: seq<Criterion>, codes: set<SignalCode>, d: Dimension, g: int)
    requires DistinctCodes(criteria)
    ensures var added := GroupPoints(Contributions(criteria, codes), d, g);
            && (forall c :: c in criteria && InGroupOf(c, d, g) && Matches(c, codes) ==> c.points <= added)
            && ((exists c :: c in criteria && InGroupOf(c, d, g) && Matches(c, codes) && c.points == added)
                || (added == 0 && forall c :: c in criteria && InGroupOf(c, d, g) ==> !Matches(c, codes)))
  {
    var contributions := Contributions(criteria, codes);
    ContributionsDistinct(criteria, codes);
    forall i, j | 0 <= i < j < |contributions|
      ensures !(InGroupOf(contributions[i], d, g) && InGroupOf(contributions[j], d, g))
    {
      if InGroupOf(contributions[i], d, g) && InGroupOf(contributions[j], d, g) {
        OneOfEachGroup(criteria, codes, contributions[i], contributions[j]);
        assert false;
      }
    }
    if exists i :: 0 <= i < |criteria| && InGroupOf(criteria[i], d, g) && Matches(criteria[i], codes) {
      var w := GroupHasWinner(criteria, codes, d, g, |criteria|);
      assert w in criteria && Selected(criteria, codes, w);
      ContributionMembers(criteria, codes, w);
      forall c | c in contributions && InGroupOf(c, d, g) ensures c == w {
        OneOfEachGroup(criteria, codes, c, w);
      }
      OnlyMemberCounts(contributions, d, g, w);
    } else {
      forall c | c in contributions ensures !InGroupOf(c, d, g) {
        ContributionMembers(criteria, codes, c);
      }
      NoMemberNoPoints(contributions, d, g);
    }
  }

  lemma {:induction false} NoMemberNoPoints(contributions: seq<Criterion>, d: Dimension, g: int)
    requires forall c :: c in contributions ==> !InGroupOf(c, d, g)
    ensures GroupPoints(contributions, d, g) == 0
  {
    if contributions != [] {
      var front := contributions[..|contributions| - 1];
      assert contributions == front + [contributions[|contributions| - 1]];
      NoMemberNoPoints(front, d, g);
    }
  }

  // ---------------------------------------------------------------- monotonicity

  /** What a criterion occupies: its group, or its own code when it has none. */
  predicate SameSlot(a: Criterion, b: Criterion) {
    Compete(a, b) || (a.group.None? && a == b)
  }

  ghost predicate SlotsDistinct(s: seq<Criterion>) {
    forall i, j :: 0 <= i < j < |s| ==> !SameSlot(s[i], s[j])
  }

  lemma {:induction false} RemoveOne(s: seq<Criterion>, j: nat, d: Dimension)
    requires j < |s|
    ensures RawPoints(s, d) == RawPoints(s[..j] + s[j + 1..], d) + (if s[j].dimension == d then s[j].points else 0)
  {
    var front, last := s[..|s| - 1], s[|s| - 1];
    if j == |s| - 1 {
      assert s[..j] + s[j + 1..] == front;
    } else {
      RemoveOne(front, j, d);
      var removed := s[..j] + s[j + 1..];
      assert removed[..|removed| - 1] == front[..j] + front[j + 1..];
      assert removed[|removed| - 1] == last;
    }
  }

  /** If every member of `a` is met in `b` by one of its slot with at least its points, `a` sums to no more. */
  lemma {:induction false} CoveredSumsLess(a: seq<Criterion>, b: seq<Criterion>, d: Dimension)
    requires SlotsDistinct(a)
    requires forall c :: c in b ==> c.points >= 0
    requires forall c :: c in a ==> exists e :: e in b && SameSlot(c, e) && e.dimension == c.dimension && c.points <= e.points
    ensures RawPoints(a, d) <= RawPoints(b, d)
  {
    if a == [] {
      PointsAreNonnegative(b, d);
    } else {
      var front, last := a[..|a| - 1], a[|a| - 1];
      assert a == front + [last];
      var e :| e in b && SameSlot(last, e) && e.dimension == last.dimension && last.points <= e.points;
      var j :| 0 <= j < |b| && b[j] == e;
      var rest := b[..j] + b[j + 1..];
      RemoveOne(b, j, d);
      forall c | c in front
        ensures exists e :: e in rest && SameSlot(c, e) && e.dimension == c.dimension && c.points <= e.points
      {
        assert c in a;
        var x :| x in b && SameSlot(c, x) && x.dimension == c.dimension && c.points <= x.points;
        assert x != e;
        assert x in rest;
      }
      CoveredSumsLess(front, rest, d);
    }
  }

  lemma {:induction false} PointsAreNonnegative(s: seq<Criterion>, d: Dimension)
    requires forall c :: c in s ==> c.points >= 0
    ensures RawPoints(s, d) >= 0
  {
    if s != [] {
      assert s == s[..|s| - 1] + [s[|s| - 1]];
      PointsAreNonnegative(s[..|s| - 1], d);
    }
  }

  ghost predicate NothingExcluded(criteria: seq<Criterion>) {
    forall c :: c in criteria ==> c.excluded == {}
  }

  lemma LargerSetCovers(criteria: seq<Criterion>, a: set<SignalCode>, b: set<SignalCode>, c: Criterion)
    requires DistinctCodes(criteria) && NothingExcluded(criteria) && a <= b && c in Contributions(criteria, a)
    ensures exists e :: e in Contributions(criteria, b) && SameSlot(c, e) && e.dimension == c.dimension && c.points <= e.points
  {
    ContributionMembers(criteria, a, c);
    assert Matches(c, b);
    if c.group.None? {
      ContributionMembers(criteria, b, c);
    } else {
      var k :| 0 <= k < |criteria| && criteria[k] == c;
      assert InGroupOf(criteria[k], c.dimension, c.group.value);
      var w := GroupHasWinner(criteria, b, c.dimension, c.group.value, |criteria|);
      assert w in criteria && Selected(criteria, b, w);
      ContributionMembers(criteria, b, w);
      assert Beats(w, criteria[k]);
    }
  }

  lemma ContributionSlots(criteria: seq<Criterion>, codes: set<SignalCode>)
    requires DistinctCodes(criteria)
    ensures SlotsDistinct(Contributions(criteria, codes))
  {
    var s := Contributions(criteria, codes);
    ContributionsDistinct(criteria, codes);
    forall i, j | 0 <= i < j < |s| ensures !SameSlot(s[i], s[j]) {
      if Compete(s[i], s[j]) {
        OneOfEachGroup(criteria, codes, s[i], s[j]);
        assert false;
      }
    }
  }

  /** More usable signals never lower the raw points of a dimension, when nothing is excluded. */
  lemma RawPointsGrow(criteria: seq<Criterion>, a: set<SignalCode>, b: set<SignalCode>, d: Dimension)
    requires DistinctCodes(criteria) && NothingExcluded(criteria) && a <= b
    requires forall c :: c in criteria ==> c.points >= 0
    ensures RawPoints(Contributions(criteria, a), d) <= RawPoints(Contributions(criteria, b), d)
  {
    ContributionSlots(criteria, a);
    forall c | c in Contributions(criteria, b) ensures c.points >= 0 {
      ContributionMembers(criteria, b, c);
    }
    forall c | c in Contributions(criteria, a)
      ensures exists e :: e in Contributions(criteria, b) && SameSlot(c, e) && e.dimension == c.dimension && c.points <= e.points
    {
      LargerSetCovers(criteria, a, b, c);
    }
    CoveredSumsLess(Contributions(criteria, a), Contributions(criteria, b), d);
  }

  lemma {:induction false} SubtotalGrows(a: seq<DimensionScore>, b: seq<DimensionScore>)
    requires |a| == |b|
    requires forall i :: 0 <= i < |a| ==> a[i].points <= b[i].points
    ensures Subtotal(a) <= Subtotal(b)
  {
    if a != [] {
      SubtotalGrows(a[..|a| - 1], b[..|b| - 1]);
    }
  }

  function SubtotalOf(p: Policy, codes: set<SignalCode>): int {
    Subtotal(DimensionScores(p.dimensions, Contributions(p.criteria, codes)))
  }

  /** Enlarging the usable signals lowers no dimension score and not the subtotal. */
  lemma ScoresAreMonotone(p: Policy, a: set<SignalCode>, b: set<SignalCode>)
    requires ValidPolicy(p) && NothingExcluded(p.criteria) && a <= b
    ensures var (x, y) := (DimensionScores(p.dimensions, Contributions(p.criteria, a)),
                           DimensionScores(p.dimensions, Contributions(p.criteria, b)));
            && (forall i :: 0 <= i < |p.dimensions| ==> x[i].raw <= y[i].raw && x[i].points <= y[i].points)
            && Subtotal(x) <= Subtotal(y)
  {
    var x := DimensionScores(p.dimensions, Contributions(p.criteria, a));
    var y := DimensionScores(p.dimensions, Contributions(p.criteria, b));
    assert DistinctCodes(p.criteria);
    forall i | 0 <= i < |p.dimensions| ensures x[i].raw <= y[i].raw {
      RawPointsGrow(p.criteria, a, b, p.dimensions[i].dimension);
    }
    SubtotalGrows(x, y);
  }

  // ---------------------------------------------------------------- bands

  lemma {:induction false} ChainCovers(bands: seq<Band>, score: int)
    requires Chained(bands) && (forall i :: 0 <= i < |bands| ==> ValidBand(bands[i])) && 0 <= score <= 100
    ensures exists i :: 0 <= i < |bands| && InBand(bands[i], score)
  {
    var n := 0;
    while n < |bands| - 1 && score > bands[n].maximum
      invariant 0 <= n < |bands| && bands[n].minimum <= score
    {
      n := n + 1;
    }
    assert InBand(bands[n], score);
  }

  lemma {:induction false} ChainAscends(bands: seq<Band>, i: nat, j: nat)
    requires Chained(bands) && (forall i :: 0 <= i < |bands| ==> ValidBand(bands[i])) && i < j < |bands|
    ensures bands[i].maximum < bands[j].minimum
  {
    if i < j - 1 {
      ChainAscends(bands, i, j - 1);
    }
  }

  lemma BandsSeparate(bands: seq<Band>, a: Band, b: Band)
    requires ValidBands(bands) && a in bands && b in bands
    ensures a == b || a.maximum < b.minimum || b.maximum < a.minimum
  {
    var sorted := Sorting.Sort(bands, BandOrder);
    Sorting.SortPermutes(bands, BandOrder);
    assert a in sorted && b in sorted;
    forall i | 0 <= i < |sorted| ensures ValidBand(sorted[i]) {
      assert sorted[i] in bands;
    }
    var i :| 0 <= i < |sorted| && sorted[i] == a;
    var j :| 0 <= j < |sorted| && sorted[j] == b;
    if i < j {
      ChainAscends(sorted, i, j);
    } else if j < i {
      ChainAscends(sorted, j, i);
    }
  }

  lemma {:induction false} ClassifyFinds(bands: seq<Band>, score: int)
    ensures var r := Classify(bands, score);
            && (r.Some? ==> r.value in bands && InBand(r.value, score))
            && (r.None? ==> forall b :: b in bands ==> !InBand(b, score))
  {
    if bands != [] && !InBand(bands[0], score) {
      ClassifyFinds(bands[1..], score);
      assert bands == [bands[0]] + bands[1..];
    }
  }

  /** Every score from 0 to 100 lies in exactly one band, and classification answers that band. */
  lemma EveryScoreHasOneBand(bands: seq<Band>, score: int)
    requires ValidBands(bands) && 0 <= score <= 100
    ensures Classify(bands, score).Some?
    ensures forall i :: 0 <= i < |bands| ==> (InBand(bands[i], score) <==> bands[i] == Classify(bands, score).value)
    ensures exists i :: 0 <= i < |bands| && InBand(bands[i], score) && forall j :: 0 <= j < |bands| && j != i ==> !InBand(bands[j], score)
  {
    var sorted := Sorting.Sort(bands, BandOrder);
    Sorting.SortPermutes(bands, BandOrder);
    forall i | 0 <= i < |sorted| ensures ValidBand(sorted[i]) {
      assert sorted[i] in bands;
    }
    ChainCovers(sorted, score);
    var k :| 0 <= k < |sorted| && InBand(sorted[k], score);
    assert sorted[k] in bands;
    ClassifyFinds(bands, score);
    var found := Classify(bands, score).value;
    forall b | b in bands && InBand(b, score) ensures b == found {
      BandsSeparate(bands, b, found);
    }
    var i :| 0 <= i < |bands| && bands[i] == found;
    forall j | 0 <= j < |bands| && j != i ensures !InBand(bands[j], score) {
      assert bands[j] in bands;
      assert bands[j] != found;
    }
  }

  /** A higher score is never classified in a lower band. */
  lemma BandsAscend(bands: seq<Band>, low: int, high: int)
    requires ValidBands(bands) && 0 <= low <= high <= 100
    ensures Classify(bands, low).Some? && Classify(bands, high).Some?
    ensures Classify(bands, low).value.minimum <= Classify(bands, high).value.minimum
  {
    EveryScoreHasOneBand(bands, low);
    EveryScoreHasOneBand(bands, high);
    ClassifyFinds(bands, low);
    ClassifyFinds(bands, high);
    BandsSeparate(bands, Classify(bands, low).value, Classify(bands, high).value);
  }

  lemma {:induction false} SameFilter<T(!new)>(s: seq<T>, p: T -> bool, q: T -> bool)
    requires forall x :: x in s ==> p(x) == q(x)
    ensures Filter(s, p) == Filter(s, q)
  {
    if s != [] {
      assert s == s[..|s| - 1] + [s[|s| - 1]];
      SameFilter(s[..|s| - 1], p, q);
    }
  }

  /** Enlarging the usable signals without matching a new penalty lowers neither the score nor the lower bound of
      the classification band. */
  lemma ScoreAndBandAreMonotone(p: Policy, a: set<SignalCode>, b: set<SignalCode>)
    requires ValidPolicy(p) && NothingExcluded(p.criteria) && a <= b
    requires forall q :: q in p.penalties && q.required <= b ==> q.required <= a
    ensures var (x, y) := (Score(SubtotalOf(p, a), MatchedPenalties(p.penalties, a)),
                           Score(SubtotalOf(p, b), MatchedPenalties(p.penalties, b)));
            && x <= y
            && Classify(p.bands, x).Some? && Classify(p.bands, y).Some?
            && Classify(p.bands, x).value.minimum <= Classify(p.bands, y).value.minimum
  {
    ScoresAreMonotone(p, a, b);
    var sorted := Sorting.Sort(p.penalties, PenaltyOrder);
    Sorting.SortPermutes(p.penalties, PenaltyOrder);
    SameFilter(sorted, (q: Penalty) => q.required <= a, (q: Penalty) => q.required <= b);
    BandsAscend(p.bands, Score(SubtotalOf(p, a), MatchedPenalties(p.penalties, a)),
                Score(SubtotalOf(p, b), MatchedPenalties(p.penalties, b)));
  }

  // ---------------------------------------------------------------- conservation

  lemma {:induction false} SubtotalWithinMaximum(dimensions: seq<DimensionDefinition>, contributions: seq<Criterion>)
    requires forall i :: 0 <= i < |dimensions| ==> dimensions[i].maxPoints >= 1
    requires forall c :: c in contributions ==> c.points >= 0
    ensures 0 <= Subtotal(DimensionScores(dimensions, contributions)) <= TotalMaximum(dimensions)
  {
    if dimensions != [] {
      var front := dimensions[..|dimensions| - 1];
      SubtotalWithinMaximum(front, contributions);
      var scores := DimensionScores(dimensions, contributions);
      assert scores[..|scores| - 1] == DimensionScores(front, contributions);
      PointsAreNonnegative(contributions, dimensions[|dimensions| - 1].dimension);
    }
  }

  function AllPoints(contributions: seq<Criterion>): int {
    if contributions == [] then 0
    else AllPoints(contributions[..|contributions| - 1]) + contributions[|contributions| - 1].points
  }

  function RawTotal(scores: seq<DimensionScore>): int {
    if scores == [] then 0 else RawTotal(scores[..|scores| - 1]) + scores[|scores| - 1].raw
  }

  /** How many definitions name the dimension. */
  function Definitions(dimensions: seq<DimensionDefinition>, d: Dimension): nat {
    if dimensions == [] then 0
    else Definitions(dimensions[..|dimensions| - 1], d) + (if dimensions[|dimensions| - 1].dimension == d then 1 else 0)
  }

  lemma {:induction false} OneDefinition(dimensions: seq<DimensionDefinition>, d: Dimension)
    requires forall i, j :: 0 <= i < j < |dimensions| ==> dimensions[i].dimension != dimensions[j].dimension
    ensures Definitions(dimensions, d) == if Defines(dimensions, d) then 1 else 0
  {
    if dimensions != [] {
      var front, last := dimensions[..|dimensions| - 1], dimensions[|dimensions| - 1];
      OneDefinition(front, d);
      if Defines(front, d) {
        var i :| 0 <= i < |front| && front[i].dimension == d;
        assert dimensions[i].dimension == d;
      }
      if last.dimension == d {
        assert dimensions[|dimensions| - 1].dimension == d;
      }
    }
  }

  lemma {:induction false} RawTotalOfOneMore(dimensions: seq<DimensionDefinition>, contributions: seq<Criterion>)
    requires contributions != []
    ensures var last := contributions[|contributions| - 1];
            RawTotal(DimensionScores(dimensions, contributions))
            == RawTotal(DimensionScores(dimensions, contributions[..|contributions| - 1]))
               + Definitions(dimensions, last.dimension) * last.points
  {
    if dimensions != [] {
      var front := dimensions[..|dimensions| - 1];
      RawTotalOfOneMore(front, contributions);
      var now := DimensionScores(dimensions, contributions);
      var before := DimensionScores(dimensions, contributions[..|contributions| - 1]);
      assert now[..|now| - 1] == DimensionScores(front, contributions);
      assert before[..|before| - 1] == DimensionScores(front, contributions[..|contributions| - 1]);
      if dimensions[|dimensions| - 1].dimension == contributions[|contributions| - 1].dimension {
        assert (Definitions(front, contributions[|contributions| - 1].dimension) + 1) * contributions[|contributions| - 1].points
          == Definitions(front, contributions[|contributions| - 1].dimension) * contributions[|contributions| - 1].points
             + contributions[|contributions| - 1].points;
      }
    }
  }

  lemma {:induction false} NoContributionNoPoints(dimensions: seq<DimensionDefinition>)
    ensures RawTotal(DimensionScores(dimensions, [])) == 0
  {
    if dimensions != [] {
      NoContributionNoPoints(dimensions[..|dimensions| - 1]);
      var scores := DimensionScores(dimensions, []);
      assert scores[..|scores| - 1] == DimensionScores(dimensions[..|dimensions| - 1], []);
    }
  }

  /** No contribution is lost and none is counted twice: the raw points of the dimensions sum to the contributions. */
  lemma {:induction false} NoContributionIsLost(dimensions: seq<DimensionDefinition>, contributions: seq<Criterion>)
    requires ValidDimensions(dimensions)
    ensures RawTotal(DimensionScores(dimensions, contributions)) == AllPoints(contributions)
  {
    if contributions == [] {
      NoContributionNoPoints(dimensions);
    } else {
      NoContributionIsLost(dimensions, contributions[..|contributions| - 1]);
      RawTotalOfOneMore(dimensions, contributions);
      var d := contributions[|contributions| - 1].dimension;
      OneDefinition(dimensions, d);
      assert Defines(dimensions, d);
    }
  }

  lemma {:induction false} AdjustmentOnlyLowers(penalties: seq<Penalty>)
    requires forall q :: q in penalties ==> q.adjustment <= 0
    ensures Adjustment(penalties) <= 0
  {
    if penalties != [] {
      assert penalties == penalties[..|penalties| - 1] + [penalties[|penalties| - 1]];
      AdjustmentOnlyLowers(penalties[..|penalties| - 1]);
    }
  }

  /** Penalties only lower the score, and of its two bounds only the lower one ever takes effect. */
  lemma ScoreIsFlooredSum(p: Policy, codes: set<SignalCode>)
    requires ValidPolicy(p)
    ensures EvaluateCodes(p, codes).Evaluated?
    ensures var e := EvaluateCodes(p, codes).evaluation;
            && e.score <= e.subtotal
            && e.score == (if e.subtotal + Adjustment(e.penalties) < 0 then 0 else e.subtotal + Adjustment(e.penalties))
  {
    EveryEvaluationSucceeds(p, codes);
    var matched := MatchedPenalties(p.penalties, codes);
    forall q | q in matched ensures q.adjustment <= 0 {
      MatchedPenaltyMembers(p.penalties, codes, q);
      assert ValidPenalty(q);
    }
    AdjustmentOnlyLowers(matched);
  }

  lemma MatchedDecisionMembers(decisions: seq<Decision>, codes: set<SignalCode>, d: Decision)
    ensures d in MatchedDecisions(decisions, codes) <==> d in decisions && d.required <= codes
  {
    Sorting.SortPermutes(decisions, DecisionOrder);
  }

  lemma {:induction false} FilterKeepsOrder(s: seq<Decision>, p: Decision -> bool)
    requires Sorting.SortedBy(s, DecisionOrder)
    ensures Sorting.SortedBy(Filter(s, p), DecisionOrder)
  {
    if s != [] {
      var front, last := s[..|s| - 1], s[|s| - 1];
      FilterKeepsOrder(front, p);
      var rest := Filter(front, p);
      forall i | 0 <= i < |rest| ensures DecisionOrder(rest[i], last) {
        assert rest[i] in rest && rest[i] in front;
        var k :| 0 <= k < |front| && front[k] == rest[i];
        assert DecisionOrder(s[k], s[|s| - 1]);
      }
    }
  }

  /** Without a do-not-contact effect, a matching decision of highest priority, the smallest code among equals,
      determines the action. */
  lemma HighestPriorityDecides(p: Policy, codes: set<SignalCode>, d: Decision)
    requires ValidPolicy(p) && d in p.decisions && d.required <= codes
    requires forall q :: q in p.penalties && q.required <= codes ==> q.effect != DoNotContactEffect
    ensures EvaluateCodes(p, codes).Evaluated?
    ensures exists w :: w in p.decisions && w.required <= codes && DecisionOrder(w, d)
              && EvaluateCodes(p, codes).evaluation.action == w.action
  {
    EveryEvaluationSucceeds(p, codes);
    var sorted := Sorting.Sort(p.decisions, DecisionOrder);
    var matched := MatchedDecisions(p.decisions, codes);
    assert Sorting.TotalPreorder(DecisionOrder);
    Sorting.SortSorts(p.decisions, DecisionOrder);
    FilterKeepsOrder(sorted, (x: Decision) => x.required <= codes);
    MatchedDecisionMembers(p.decisions, codes, d);
    var k :| 0 <= k < |matched| && matched[k] == d;
    var w := matched[0];
    assert w in matched;
    MatchedDecisionMembers(p.decisions, codes, w);
    var penalties := MatchedPenalties(p.penalties, codes);
    forall i | 0 <= i < |penalties| ensures penalties[i].effect != DoNotContactEffect {
      MatchedPenaltyMembers(p.penalties, codes, penalties[i]);
    }
    assert !HasEffect(penalties, DoNotContactEffect);
  }

  lemma {:induction false} ReasonsCollect(decisions: seq<Decision>, d: Decision)
    requires d in decisions && d.handoffRequired && d.reason.Some?
    ensures HandoffReasons(decisions) != []
  {
    var front := decisions[..|decisions| - 1];
    assert decisions == front + [decisions[|decisions| - 1]];
    if d in front {
      ReasonsCollect(front, d);
    }
  }

  lemma {:induction false} FirstAboutMember(decisions: seq<Decision>, code: SignalCode)
    ensures FirstAbout(decisions, code).Some? ==> FirstAbout(decisions, code).value in decisions
  {
    if decisions != [] {
      assert decisions == [decisions[0]] + decisions[1..];
      FirstAboutMember(decisions[1..], code);
    }
  }

  /** A handoff is advised exactly with a reason, and a specialized one is always an advised one. */
  lemma HandoffIsExplained(p: Policy, codes: set<SignalCode>)
    requires ValidPolicy(p)
    ensures EvaluateCodes(p, codes).Evaluated?
    ensures var handoff := EvaluateCodes(p, codes).evaluation.handoff;
            && (handoff.required <==> handoff.reasons != [])
            && (handoff.specialized ==> handoff.required)
  {
    EveryEvaluationSucceeds(p, codes);
    var matched := MatchedDecisions(p.decisions, codes);
    var penalties := MatchedPenalties(p.penalties, codes);
    var score := Score(SubtotalOf(p, codes), penalties);
    var (action, selected) := Recommend(Classify(p.bands, score).value.action, penalties, matched);
    FirstAboutMember(matched, DoNotContactSignal);
    if selected.Some? && selected.value.handoffRequired {
      assert selected.value in matched;
      MatchedDecisionMembers(p.decisions, codes, selected.value);
      assert ValidDecision(selected.value);
      ReasonsCollect(matched, selected.value);
    }
  }

  /** A valid policy evaluates every set of signals: the subtotal stays within 0 and 100, no contribution is lost,
      and classification always finds a band. */
  lemma EveryEvaluationSucceeds(p: Policy, codes: set<SignalCode>)
    requires ValidPolicy(p)
    ensures EvaluateCodes(p, codes).Evaluated?
    ensures var e := EvaluateCodes(p, codes).evaluation;
            && 0 <= e.subtotal <= 100 && 0 <= e.score <= 100
            && RawTotal(e.dimensions) == AllPoints(e.contributions)
            && exists b :: b in p.bands && InBand(b, e.score) && e.classification == b.classification
  {
    var contributions := Contributions(p.criteria, codes);
    forall c | c in contributions ensures c.points >= 0 {
      ContributionMembers(p.criteria, codes, c);
    }
    SubtotalWithinMaximum(p.dimensions, contributions);
    NoContributionIsLost(p.dimensions, contributions);
    var score := Score(SubtotalOf(p, codes), MatchedPenalties(p.penalties, codes));
    EveryScoreHasOneBand(p.bands, score);
    ClassifyFinds(p.bands, score);
  }

  // ---------------------------------------------------------------- do not contact

  lemma {:induction false} MatchedPenaltyMembers(penalties: seq<Penalty>, codes: set<SignalCode>, q: Penalty)
    ensures q in MatchedPenalties(penalties, codes) <==> q in penalties && q.required <= codes
  {
    Sorting.SortPermutes(penalties, PenaltyOrder);
  }

  /** A rule with the do-not-contact effect on that signal alone stops automation and hands off to nobody, whatever
      else the policy and the signals say. */
  lemma DoNotContactStops(p: Policy, signals: seq<Signal>, rule: Penalty, s: Signal)
    requires ValidPolicy(p)
    requires rule in p.penalties && rule.effect == DoNotContactEffect && rule.required == {DoNotContactSignal}
    requires s in signals && s.code == DoNotContactSignal && Usable(s, p.header.minimumConfidence)
    ensures var answer := EvaluateCodes(p, UsableCodes(signals, p.header.minimumConfidence));
            && answer.Evaluated? && answer.evaluation.action == StopAutomation
            && answer.evaluation.handoff == HandoffAdvice(false, false, [])
            && DoNotContactEffect in answer.evaluation.effects
  {
    var codes := UsableCodes(signals, p.header.minimumConfidence);
    assert DoNotContactSignal in codes;
    EveryEvaluationSucceeds(p, codes);
    MatchedPenaltyMembers(p.penalties, codes, rule);
    var matched := MatchedPenalties(p.penalties, codes);
    var i :| 0 <= i < |matched| && matched[i] == rule;
    assert HasEffect(matched, DoNotContactEffect);
  }

  // ---------------------------------------------------------------- dependence on sets only

  /** Permuting or repeating signals changes nothing: only the set of signals matters. */
  lemma SignalsAreASet(request: Request, signals: seq<Signal>, p: Policy)
    requires forall s :: s in signals <==> s in request.signals
    ensures Evaluate(request.(signals := signals), p) == Evaluate(request, p)
  {
    assert UsableCodes(signals, p.header.minimumConfidence) == UsableCodes(request.signals, p.header.minimumConfidence);
  }

  /** The same rules and bands in any order. */
  ghost predicate SameRules(p: Policy, q: Policy) {
    && p.header == q.header
    && multiset(p.criteria) == multiset(q.criteria) && multiset(p.penalties) == multiset(q.penalties)
    && multiset(p.decisions) == multiset(q.decisions) && multiset(p.bands) == multiset(q.bands)
  }

  lemma CriterionOrderIsPreorder()
    ensures Sorting.TotalPreorder(CriterionOrder)
  {
  }

  lemma DistinctCriteriaDoNotTie(criteria: seq<Criterion>)
    requires DistinctCodes(criteria)
    ensures Sorting.NoTies(criteria, CriterionOrder) && Sorting.NoTies(criteria, CodeOrder)
  {
  }

  lemma ContributionsIgnoreOrder(a: seq<Criterion>, b: seq<Criterion>, codes: set<SignalCode>)
    requires multiset(a) == multiset(b) && DistinctCodes(a)
    ensures Contributions(a, codes) == Contributions(b, codes)
  {
    SameMembers(a, b);
    var p, q := c => Selected(a, codes, c), c => Selected(b, codes, c);
    FilterPermutes(a, b, p, q);
    FilterKeepsDistinct(a, p);
    DistinctCriteriaDoNotTie(Filter(a, p));
    CriterionOrderIsPreorder();
    Sorting.SortIgnoresOrder(Filter(a, p), Filter(b, q), CriterionOrder);
  }

  lemma PenaltiesIgnoreOrder(a: seq<Penalty>, b: seq<Penalty>)
    requires multiset(a) == multiset(b)
    requires forall i, j :: 0 <= i < j < |a| ==> a[i].code != a[j].code
    ensures Sorting.Sort(a, PenaltyOrder) == Sorting.Sort(b, PenaltyOrder)
  {
    assert Sorting.TotalPreorder(PenaltyOrder);
    Sorting.SortIgnoresOrder(a, b, PenaltyOrder);
  }

  lemma DecisionsIgnoreOrder(a: seq<Decision>, b: seq<Decision>)
    requires multiset(a) == multiset(b)
    requires forall i, j :: 0 <= i < j < |a| ==> a[i].code != a[j].code
    ensures Sorting.Sort(a, DecisionOrder) == Sorting.Sort(b, DecisionOrder)
    ensures Sorting.Sort(a, DecisionCodeOrder) == Sorting.Sort(b, DecisionCodeOrder)
  {
    assert Sorting.TotalPreorder(DecisionOrder) && Sorting.TotalPreorder(DecisionCodeOrder);
    Sorting.SortIgnoresOrder(a, b, DecisionOrder);
    Sorting.SortIgnoresOrder(a, b, DecisionCodeOrder);
  }

  lemma ClassifyIgnoresOrder(a: seq<Band>, b: seq<Band>, score: int)
    requires ValidBands(a) && multiset(a) == multiset(b) && 0 <= score <= 100
    ensures Classify(a, score) == Classify(b, score)
  {
    SameMembers(a, b);
    EveryScoreHasOneBand(a, score);
    ClassifyFinds(a, score);
    ClassifyFinds(b, score);
    var found := Classify(a, score).value;
    assert found in b;
    BandsSeparate(a, found, Classify(b, score).value);
  }

  /** Permuting the criteria, penalties, decisions or bands of a valid policy changes no evaluation. */
  lemma RuleOrderIsIrrelevant(p: Policy, q: Policy, codes: set<SignalCode>)
    requires ValidPolicy(p) && SameRules(p, q) && p.dimensions == q.dimensions
    ensures EvaluateCodes(p, codes) == EvaluateCodes(q, codes)
  {
    ContributionsIgnoreOrder(p.criteria, q.criteria, codes);
    PenaltiesIgnoreOrder(p.penalties, q.penalties);
    DecisionsIgnoreOrder(p.decisions, q.decisions);
    EveryEvaluationSucceeds(p, codes);
    ClassifyIgnoresOrder(p.bands, q.bands, Score(SubtotalOf(p, codes), MatchedPenalties(p.penalties, codes)));
  }

  lemma CriteriaByCodeIgnoreOrder(a: seq<Criterion>, b: seq<Criterion>)
    requires multiset(a) == multiset(b) && DistinctCodes(a)
    ensures Sorting.Sort(a, CodeOrder) == Sorting.Sort(b, CodeOrder)
  {
    DistinctCriteriaDoNotTie(a);
    assert Sorting.TotalPreorder(CodeOrder);
    Sorting.SortIgnoresOrder(a, b, CodeOrder);
  }

  lemma DimensionsIgnoreOrder(a: seq<DimensionDefinition>, b: seq<DimensionDefinition>)
    requires multiset(a) == multiset(b) && ValidDimensions(a)
    ensures Sorting.Sort(a, DimensionOrder) == Sorting.Sort(b, DimensionOrder)
  {
    assert Sorting.TotalPreorder(DimensionOrder);
    forall x, y | x in a && y in a && DimensionOrder(x, y) && DimensionOrder(y, x) ensures x == y {
      assert x.dimension == y.dimension;
    }
    Sorting.SortIgnoresOrder(a, b, DimensionOrder);
  }

  lemma BandsIgnoreOrder(a: seq<Band>, b: seq<Band>)
    requires ValidBands(a) && multiset(a) == multiset(b)
    ensures Sorting.Sort(a, BandOrder) == Sorting.Sort(b, BandOrder)
  {
    assert Sorting.TotalPreorder(BandOrder);
    forall x, y | x in a && y in a && BandOrder(x, y) && BandOrder(y, x) ensures x == y {
      BandsSeparate(a, x, y);
      assert ValidBand(x) && ValidBand(y);
    }
    Sorting.SortIgnoresOrder(a, b, BandOrder);
  }

  /** Two valid policies have the same fingerprint data exactly when they say the same in some order. */
  lemma FingerprintIffPermuted(p: Policy, q: Policy)
    requires ValidPolicy(p) && ValidPolicy(q)
    ensures Canonical(p) == Canonical(q) <==> SameRules(p, q) && multiset(p.dimensions) == multiset(q.dimensions)
  {
    if SameRules(p, q) && multiset(p.dimensions) == multiset(q.dimensions) {
      DimensionsIgnoreOrder(p.dimensions, q.dimensions);
      CriteriaByCodeIgnoreOrder(p.criteria, q.criteria);
      PenaltiesIgnoreOrder(p.penalties, q.penalties);
      DecisionsIgnoreOrder(p.decisions, q.decisions);
      BandsIgnoreOrder(p.bands, q.bands);
    }
    if Canonical(p) == Canonical(q) {
      CanonicalIsPermutation(p);
      CanonicalIsPermutation(q);
    }
  }

  lemma CanonicalIsPermutation(p: Policy)
    ensures SameRules(p, Canonical(p)) && multiset(p.dimensions) == multiset(Canonical(p).dimensions)
  {
    Sorting.SortPermutes(p.dimensions, DimensionOrder);
    Sorting.SortPermutes(p.criteria, CodeOrder);
    Sorting.SortPermutes(p.penalties, PenaltyOrder);
    Sorting.SortPermutes(p.decisions, DecisionCodeOrder);
    Sorting.SortPermutes(p.bands, BandOrder);
  }

  lemma {:induction false} RemoveDimension(dimensions: seq<DimensionDefinition>, j: nat, contributions: seq<Criterion>)
    requires j < |dimensions|
    ensures Subtotal(DimensionScores(dimensions, contributions))
            == Subtotal(DimensionScores(dimensions[..j] + dimensions[j + 1..], contributions))
               + Min(RawPoints(contributions, dimensions[j].dimension), dimensions[j].maxPoints)
  {
    var front := dimensions[..|dimensions| - 1];
    var scores := DimensionScores(dimensions, contributions);
    assert scores[..|scores| - 1] == DimensionScores(front, contributions);
    if j == |dimensions| - 1 {
      assert dimensions[..j] + dimensions[j + 1..] == front;
    } else {
      RemoveDimension(front, j, contributions);
      var removed := dimensions[..j] + dimensions[j + 1..];
      assert removed[..|removed| - 1] == front[..j] + front[j + 1..];
      var fewer := DimensionScores(removed, contributions);
      assert fewer[..|fewer| - 1] == DimensionScores(front[..j] + front[j + 1..], contributions);
    }
  }

  lemma Without<T>(s: seq<T>, j: nat)
    requires j < |s|
    ensures multiset(s[..j] + s[j + 1..]) == multiset(s) - multiset{s[j]}
  {
    assert s == s[..j] + [s[j]] + s[j + 1..];
  }

  /** Where the last member of `a` stands in a permutation of it, and that the rests are permutations again. */
  lemma LastElsewhere<T>(a: seq<T>, b: seq<T>) returns (j: nat)
    requires multiset(a) == multiset(b) && a != []
    ensures j < |b| && b[j] == a[|a| - 1] && multiset(a[..|a| - 1]) == multiset(b[..j] + b[j + 1..])
  {
    var last := a[|a| - 1];
    assert last in multiset(b);
    j :| 0 <= j < |b| && b[j] == last;
    Without(b, j);
    Without(a, |a| - 1);
    assert a[..|a| - 1] + a[|a|..] == a[..|a| - 1];
  }

  lemma {:induction false} SubtotalIgnoresOrder(
    a: seq<DimensionDefinition>, b: seq<DimensionDefinition>, contributions: seq<Criterion>)
    requires multiset(a) == multiset(b)
    ensures Subtotal(DimensionScores(a, contributions)) == Subtotal(DimensionScores(b, contributions))
  {
    if a == [] {
      assert |b| == |multiset(b)| == 0;
    } else {
      var j := LastElsewhere(a, b);
      SubtotalIgnoresOrder(a[..|a| - 1], b[..j] + b[j + 1..], contributions);
      RemoveDimension(b, j, contributions);
      RemoveDimension(a, |a| - 1, contributions);
      assert a[..|a| - 1] + a[|a|..] == a[..|a| - 1];
    }
  }

  /** Policies of one fingerprint evaluate every set of signals alike: only the order in which the dimension scores
      are listed, the order the policy defines them in, can differ. */
  lemma FingerprintDeterminesEvaluation(p: Policy, q: Policy, codes: set<SignalCode>)
    requires ValidPolicy(p) && ValidPolicy(q) && Canonical(p) == Canonical(q)
    ensures EvaluateCodes(p, codes).Evaluated? && EvaluateCodes(q, codes).Evaluated?
    ensures EvaluateCodes(q, codes).evaluation
            == EvaluateCodes(p, codes).evaluation.(dimensions := EvaluateCodes(q, codes).evaluation.dimensions)
  {
    FingerprintIffPermuted(p, q);
    var between := p.(dimensions := q.dimensions);
    RuleOrderIsIrrelevant(q, between, codes);
    SubtotalIgnoresOrder(p.dimensions, q.dimensions, Contributions(p.criteria, codes));
    EveryEvaluationSucceeds(p, codes);
  }
}
