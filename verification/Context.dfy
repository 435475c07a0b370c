// The context handed to the provider: which messages are selected under the message and character limits, and
// the controls found in them deterministically.
module Context {
  import opened Wrappers
  import Sorting

  // `text` is the stripped and redacted content; the three flags say whether the content matches the patterns of a control.
  datatype Message = Message(
    id: int, sentAt: int, text: string, doNotContact: bool, humanRequested: bool, promptInjection: bool)

  datatype Limits = Limits(maxMessages: nat, maxCharacters: nat, maxAge: nat)

  predicate ValidLimits(limits: Limits) {
    limits.maxMessages > 0 && limits.maxCharacters > 0 && limits.maxAge > 0
  }

  datatype Prepared = Prepared(message: Message, text: string)

  // ---------------------------------------------------------------- eligible messages

  predicate SentOrder(a: Message, b: Message) {
    a.sentAt <= b.sentAt
  }

  function Chronological(messages: seq<Message>): seq<Message> {
    Sorting.Sort(messages, SentOrder)
  }

  /** The messages since the cutoff, in their order. */
  function Since(s: seq<Message>, cutoff: int): (r: seq<Message>)
    ensures forall m :: m in r <==> m in s && m.sentAt >= cutoff
  {
    if s == [] then []
    else
      var rest, last := Since(s[..|s| - 1], cutoff), s[|s| - 1];
      assert s == s[..|s| - 1] + [last];
      if last.sentAt >= cutoff then rest + [last] else rest
  }

  /** The messages since the cutoff in order, or just the newest one when there is none. */
  function Recent(messages: seq<Message>, cutoff: int): (r: seq<Message>)
    requires messages != []
    ensures r != []
  {
    Sorting.SortPermutes(messages, SentOrder);
    var chronological := Chronological(messages);
    var recent := Since(chronological, cutoff);
    if recent == [] then [chronological[|chronological| - 1]] else recent
  }

  function EndOf(s: seq<Message>, n: nat): seq<Message> {
    if |s| <= n then s else s[|s| - n..]
  }

  /** The messages the selection chooses from. */
  function Eligible(messages: seq<Message>, limits: Limits, now: int): (r: seq<Message>)
    requires messages != []
    ensures ValidLimits(limits) ==> 0 < |r| <= limits.maxMessages
  {
    EndOf(Recent(messages, now - limits.maxAge), limits.maxMessages)
  }

  // ---------------------------------------------------------------- the selection

  /** The text a message enters with: all of it, but the end of the newest message when it alone exceeds the limit. */
  function TextAt(e: seq<Message>, max: nat, k: nat): string
    requires k < |e|
  {
    if k == |e| - 1 && |e[k].text| > max then e[k].text[|e[k].text| - max..] else e[k].text
  }

  /** The characters spent on the messages from position `k` on. */
  function Used(e: seq<Message>, max: nat, k: nat): (used: int)
    requires k <= |e|
    ensures used >= 0
    decreases |e| - k, 1
  {
    if k == |e| then 0 else Used(e, max, k + 1) + (if Takes(e, max, k) then |TextAt(e, max, k)| else 0)
  }

  /** A message is taken while budget remains and its text fits it; the newest one always fits. */
  predicate Takes(e: seq<Message>, max: nat, k: nat)
    requires k < |e|
    decreases |e| - k, 0
  {
    var remaining := max - Used(e, max, k + 1);
    remaining > 0 && (k == |e| - 1 || |e[k].text| <= remaining)
  }

  /** The positions taken from `k` on, in ascending order. */
  function Taken(e: seq<Message>, max: nat, k: nat): (r: seq<nat>)
    requires k <= |e|
    ensures forall i :: 0 <= i < |r| ==> r[i] < |e|
    decreases |e| - k
  {
    if k == |e| then [] else if Takes(e, max, k) then [k] + Taken(e, max, k + 1) else Taken(e, max, k + 1)
  }

  lemma {:induction false} TakenPositions(e: seq<Message>, max: nat, k: nat)
    requires k <= |e|
    ensures var r := Taken(e, max, k);
            && |r| <= |e| - k
            && (forall i :: 0 <= i < |r| ==> k <= r[i])
            && (forall i, j :: 0 <= i < j < |r| ==> r[i] < r[j])
            && (forall j :: k <= j < |e| ==> (j in r <==> Takes(e, max, j)))
    decreases |e| - k
  {
    if k < |e| {
      TakenPositions(e, max, k + 1);
    }
  }

  function TakenMessages(e: seq<Message>, max: nat, positions: seq<nat>): (r: seq<Prepared>)
    requires forall i :: 0 <= i < |positions| ==> positions[i] < |e|
    ensures |r| == |positions|
    ensures forall i :: 0 <= i < |r| ==> r[i] == Prepared(e[positions[i]], TextAt(e, max, positions[i]))
  {
    seq(|positions|, i requires 0 <= i < |positions| => Prepared(e[positions[i]], TextAt(e, max, positions[i])))
  }

  function Select(e: seq<Message>, max: nat): seq<Prepared> {
    TakenMessages(e, max, Taken(e, max, 0))
  }

  function Reversed(s: seq<Prepared>): (r: seq<Prepared>)
    ensures |r| == |s|
    ensures forall i :: 0 <= i < |r| ==> r[i] == s[|s| - 1 - i]
  {
    seq(|s|, i requires 0 <= i < |s| => s[|s| - 1 - i])
  }

  lemma NothingFitsWithoutBudget(e: seq<Message>, max: nat, k: nat)
    requires k <= |e| && Used(e, max, k) >= max
    ensures Taken(e, max, 0) == Taken(e, max, k)
    decreases k
  {
    if k > 0 {
      assert !Takes(e, max, k - 1);
      NothingFitsWithoutBudget(e, max, k - 1);
    }
  }

  lemma ReversedAppend(back: seq<Prepared>, p: Prepared)
    ensures Reversed(back + [p]) == [p] + Reversed(back)
  {
  }

  lemma TakesOneMore(e: seq<Message>, max: nat, k: nat)
    requires k < |e|
    ensures TakenMessages(e, max, Taken(e, max, k))
            == (if Takes(e, max, k) then [Prepared(e[k], TextAt(e, max, k))] else [])
               + TakenMessages(e, max, Taken(e, max, k + 1))
  {
    if Takes(e, max, k) {
      var rest := Taken(e, max, k + 1);
      assert Taken(e, max, k) == [k] + rest;
      var all := TakenMessages(e, max, [k] + rest);
      assert all[1..] == TakenMessages(e, max, rest);
      assert all == [all[0]] + all[1..];
    }
  }

  /** The selection loop, newest message first. */
  method SelectMessages(e: seq<Message>, max: nat) returns (selected: seq<Prepared>)
    requires max > 0
    ensures selected == Select(e, max)
  {
    var back: seq<Prepared> := [];
    var consumed := 0;
    var k := |e|;
    while k > 0
      invariant 0 <= k <= |e|
      invariant consumed == Used(e, max, k)
      invariant Reversed(back) == TakenMessages(e, max, Taken(e, max, k))
      invariant k == |e| <==> back == []
    {
      var text := e[k - 1].text;
      var remaining := max - consumed;
      if remaining <= 0 {
        NothingFitsWithoutBudget(e, max, k);
        break;
      }
      k := k - 1;
      TakesOneMore(e, max, k);
      if |text| > remaining {
        if back != [] {
          continue;
        }
        text := text[|text| - remaining..];
      }
      ReversedAppend(back, Prepared(e[k], text));
      back := back + [Prepared(e[k], text)];
      consumed := consumed + |text|;
    }
    selected := Reversed(back);
  }

  // ---------------------------------------------------------------- what the selection promises

  function TotalLength(s: seq<Prepared>): nat {
    if s == [] then 0 else |s[0].text| + TotalLength(s[1..])
  }

  lemma {:induction false} UsedIsLength(e: seq<Message>, max: nat, k: nat)
    requires k <= |e|
    ensures TotalLength(TakenMessages(e, max, Taken(e, max, k))) == Used(e, max, k)
    decreases |e| - k
  {
    if k < |e| {
      UsedIsLength(e, max, k + 1);
      TakesOneMore(e, max, k);
      var rest := TakenMessages(e, max, Taken(e, max, k + 1));
      if Takes(e, max, k) {
        assert ([Prepared(e[k], TextAt(e, max, k))] + rest)[1..] == rest;
      } else {
        assert [] + rest == rest;
      }
    }
  }

  lemma {:induction false} UsedWithinLimit(e: seq<Message>, max: nat, k: nat)
    requires k <= |e|
    ensures Used(e, max, k) <= max
    decreases |e| - k
  {
    if k < |e| {
      UsedWithinLimit(e, max, k + 1);
    }
  }

  /** The newest message is always taken, and last. */
  lemma NewestIsTakenLast(e: seq<Message>, max: nat)
    requires e != [] && max > 0
    ensures var positions := Taken(e, max, 0);
            positions != [] && positions[|positions| - 1] == |e| - 1
  {
    TakenPositions(e, max, 0);
    assert Takes(e, max, |e| - 1);
    var positions := Taken(e, max, 0);
    var i :| 0 <= i < |positions| && positions[i] == |e| - 1;
    assert forall j :: 0 <= j < |positions| && positions[j] == |e| - 1 ==> j >= i;
    assert positions[|positions| - 1] >= positions[i];
  }

  /** A message but the newest is left out exactly when the budget its newer ones leave is spent or too small for it. */
  lemma LeftOutIffItDidNotFit(e: seq<Message>, max: nat, k: nat)
    requires k < |e| - 1
    ensures k !in Taken(e, max, 0) <==> |e[k].text| > max - Used(e, max, k + 1) || Used(e, max, k + 1) >= max
  {
    TakenPositions(e, max, 0);
    assert k in Taken(e, max, 0) <==> Takes(e, max, k);
  }

  /** The selection is a non-empty chronological subsequence of the eligible messages within the character limit. It
      ends with the newest one and truncates nothing but possibly that one. */
  lemma SelectionIsGreedy(e: seq<Message>, max: nat)
    requires e != [] && max > 0
    ensures var positions := Taken(e, max, 0);
            var selected := Select(e, max);
            && |selected| == |positions| && 0 < |selected| <= |e|
            && positions[|positions| - 1] == |e| - 1
            && (forall i :: 0 <= i < |selected| ==> selected[i].message == e[positions[i]])
            && (forall i :: 0 <= i < |selected| - 1 ==> selected[i].text == e[positions[i]].text)
            && (forall i, j :: 0 <= i < j < |positions| ==> positions[i] < positions[j])
            && TotalLength(selected) <= max
  {
    TakenPositions(e, max, 0);
    NewestIsTakenLast(e, max);
    UsedIsLength(e, max, 0);
    UsedWithinLimit(e, max, 0);
    var positions := Taken(e, max, 0);
    forall i | 0 <= i < |positions| - 1 ensures Select(e, max)[i].text == e[positions[i]].text {
      assert positions[i] < positions[|positions| - 1];
    }
  }

  /** The newest message keeps all its text, or exactly its last `max` characters when it is longer than that. */
  lemma NewestMessageText(e: seq<Message>, max: nat)
    requires e != [] && max > 0
    ensures Select(e, max) != []
    ensures var text := e[|e| - 1].text;
            Select(e, max)[|Select(e, max)| - 1]
            == Prepared(e[|e| - 1], if |text| <= max then text else text[|text| - max..])
  {
    SelectionIsGreedy(e, max);
  }

  lemma {:induction false} SinceKeepsSorted(s: seq<Message>, cutoff: int)
    requires Sorting.SortedBy(s, SentOrder)
    ensures Sorting.SortedBy(Since(s, cutoff), SentOrder)
    ensures s != [] && s[|s| - 1].sentAt >= cutoff ==>
      Since(s, cutoff) != [] && Since(s, cutoff)[|Since(s, cutoff)| - 1] == s[|s| - 1]
  {
    if s != [] {
      var front, last := s[..|s| - 1], s[|s| - 1];
      SinceKeepsSorted(front, cutoff);
      var rest := Since(front, cutoff);
      forall i | 0 <= i < |rest| ensures SentOrder(rest[i], last) {
        assert rest[i] in rest && rest[i] in front;
        var k :| 0 <= k < |front| && front[k] == rest[i];
        assert SentOrder(s[k], s[|s| - 1]);
      }
    }
  }

  lemma ChronologicalEndsWithNewest(messages: seq<Message>)
    requires messages != []
    ensures var c := Chronological(messages);
            && |c| == |messages| && Sorting.SortedBy(c, SentOrder)
            && (forall m :: m in c <==> m in messages)
            && (forall m :: m in messages ==> m.sentAt <= c[|c| - 1].sentAt)
  {
    assert Sorting.TotalPreorder(SentOrder);
    Sorting.SortPermutes(messages, SentOrder);
    Sorting.SortSorts(messages, SentOrder);
    var c := Chronological(messages);
    forall m | m in messages ensures m.sentAt <= c[|c| - 1].sentAt {
      assert m in c;
      var k :| 0 <= k < |c| && c[k] == m;
      assert k == |c| - 1 || SentOrder(c[k], c[|c| - 1]);
    }
  }

  ghost predicate SomeSince(s: seq<Message>, cutoff: int) {
    exists m :: m in s && m.sentAt >= cutoff
  }

  ghost predicate AllSince(s: seq<Message>, cutoff: int) {
    forall m :: m in s ==> m.sentAt >= cutoff
  }

  ghost predicate AllFrom(s: seq<Message>, messages: seq<Message>) {
    forall m :: m in s ==> m in messages
  }

  ghost predicate IsNewest(newest: Message, messages: seq<Message>) {
    forall m :: m in messages ==> m.sentAt <= newest.sentAt
  }

  /** Sorted messages of `messages` that end with the newest of them, and are recent as soon as some message is. */
  ghost predicate EndsRight(e: seq<Message>, messages: seq<Message>, cutoff: int) {
    && e != [] && Sorting.SortedBy(e, SentOrder) && AllFrom(e, messages) && IsNewest(e[|e| - 1], messages)
    && (SomeSince(messages, cutoff) ==> AllSince(e, cutoff))
  }

  /** The recent messages are sorted and end with the newest message; all are recent as soon as some message is. */
  lemma RecentEndsWithNewest(messages: seq<Message>, cutoff: int) returns (r: seq<Message>)
    requires messages != []
    ensures r == Recent(messages, cutoff) && EndsRight(r, messages, cutoff)
  {
    r := Recent(messages, cutoff);
    ChronologicalEndsWithNewest(messages);
    var c := Chronological(messages);
    SinceKeepsSorted(c, cutoff);
    var kept := Since(c, cutoff);
    if kept != [] {
      assert kept[0] in kept;
    }
    forall x | x in messages && x.sentAt >= cutoff ensures x in kept {
      assert x in c;
    }
  }

  lemma EndEndsRight(s: seq<Message>, n: nat, messages: seq<Message>, cutoff: int)
    requires n > 0 && EndsRight(s, messages, cutoff)
    ensures EndsRight(EndOf(s, n), messages, cutoff)
  {
    var r := EndOf(s, n);
    assert forall m :: m in r ==> m in s;
  }

  lemma EligibleIsEndOf(messages: seq<Message>, limits: Limits, now: int) returns (recent: seq<Message>)
    requires messages != []
    ensures EndsRight(recent, messages, now - limits.maxAge)
    ensures Eligible(messages, limits, now) == EndOf(recent, limits.maxMessages)
  {
    recent := RecentEndsWithNewest(messages, now - limits.maxAge);
  }

  /** The eligible messages are sorted by time and end with the newest message of all; all are recent as soon as
      some message is. */
  lemma EligibleEndsWithNewest(messages: seq<Message>, limits: Limits, now: int)
    requires messages != [] && ValidLimits(limits)
    ensures EndsRight(Eligible(messages, limits, now), messages, now - limits.maxAge)
  {
    var recent := EligibleIsEndOf(messages, limits, now);
    EndEndsRight(recent, limits.maxMessages, messages, now - limits.maxAge);
  }

  // ---------------------------------------------------------------- deterministic controls

  datatype Control = DoNotContactControl | HumanRequestedControl | PromptInjectionControl | SuspectedFraud | Complaint
                   | OtherControl(code: nat)

  datatype Finding = Finding(control: Control, confidence: int, message: int, deterministic: bool)

  predicate Shows(m: Message, control: Control) {
    match control
    case DoNotContactControl => m.doNotContact
    case HumanRequestedControl => m.humanRequested
    case PromptInjectionControl => m.promptInjection
    case _ => false
  }

  /** `f` is certain, and comes from the latest message that shows the control. */
  ghost predicate LatestShows(f: Finding, messages: seq<Message>, c: Control, i: nat) {
    && i < |messages| && Shows(messages[i], c) && f == Finding(c, 10000, messages[i].id, true)
    && forall j :: i < j < |messages| ==> !Shows(messages[j], c)
  }

  /** One certain finding per control some message shows, from the latest message that shows it. */
  ghost predicate FindsControls(found: map<Control, Finding>, messages: seq<Message>) {
    && (forall c :: c in found <==> exists i :: 0 <= i < |messages| && Shows(messages[i], c))
    && (forall c :: c in found ==> exists i :: LatestShows(found[c], messages, c, i))
  }

  method FindControls(messages: seq<Message>) returns (found: map<Control, Finding>)
    ensures FindsControls(found, messages)
  {
    found := map[];
    for n := 0 to |messages|
      invariant FindsControls(found, messages[..n])
    {
      var m := messages[n];
      ghost var before := found;
      if m.doNotContact {
        found := found[DoNotContactControl := Finding(DoNotContactControl, 10000, m.id, true)];
      }
      if m.humanRequested {
        found := found[HumanRequestedControl := Finding(HumanRequestedControl, 10000, m.id, true)];
      }
      if m.promptInjection {
        found := found[PromptInjectionControl := Finding(PromptInjectionControl, 10000, m.id, true)];
      }
      OneMoreMessage(before, found, messages, n);
    }
    assert messages[..|messages|] == messages;
  }

  lemma OneMoreMessage(before: map<Control, Finding>, after: map<Control, Finding>, messages: seq<Message>, n: nat)
    requires n < |messages| && FindsControls(before, messages[..n])
    requires forall c :: c in after <==> c in before || Shows(messages[n], c)
    requires forall c :: c in after ==>
      after[c] == if Shows(messages[n], c) then Finding(c, 10000, messages[n].id, true) else before[c]
    ensures FindsControls(after, messages[..n + 1])
  {
    var s, m := messages[..n], messages[n];
    assert messages[..n + 1] == s + [m];
    forall c ensures c in after <==> exists i :: 0 <= i < |s + [m]| && Shows((s + [m])[i], c) {
      ShownOnceMore(s, m, c);
    }
    forall c | c in after
      ensures exists i :: LatestShows(after[c], s + [m], c, i)
    {
      if Shows(m, c) {
        assert LatestShows(after[c], s + [m], c, n);
      } else {
        var i :| LatestShows(before[c], s, c, i);
        LatestStays(before[c], s, m, c, i);
      }
    }
  }

  lemma ShownOnceMore(s: seq<Message>, m: Message, c: Control)
    ensures (exists i :: 0 <= i < |s + [m]| && Shows((s + [m])[i], c))
            <==> (exists i :: 0 <= i < |s| && Shows(s[i], c)) || Shows(m, c)
  {
    var t := s + [m];
    if i :| 0 <= i < |s| && Shows(s[i], c) {
      assert t[i] == s[i];
    }
    if Shows(m, c) {
      assert t[|s|] == m;
    }
  }

  lemma LatestStays(f: Finding, s: seq<Message>, m: Message, c: Control, i: nat)
    requires LatestShows(f, s, c, i) && !Shows(m, c)
    ensures LatestShows(f, s + [m], c, i)
  {
  }

  // ---------------------------------------------------------------- the whole context

  datatype PreparedContext = PreparedContext(messages: seq<Prepared>, controls: map<Control, Finding>)

  function Originals(selected: seq<Prepared>): (r: seq<Message>)
    ensures |r| == |selected|
    ensures forall i :: 0 <= i < |r| ==> r[i] == selected[i].message
  {
    seq(|selected|, i requires 0 <= i < |selected| => selected[i].message)
  }

  method PrepareContext(messages: seq<Message>, limits: Limits, now: int) returns (context: PreparedContext)
    requires messages != [] && ValidLimits(limits)
    ensures context.messages == Select(Eligible(messages, limits, now), limits.maxCharacters)
    ensures FindsControls(context.controls, Originals(context.messages))
    ensures 0 < |context.messages| <= limits.maxMessages
    ensures TotalLength(context.messages) <= limits.maxCharacters
    ensures forall p :: p in context.messages ==> p.message in messages
  {
    var eligible := Eligible(messages, limits, now);
    EligibleEndsWithNewest(messages, limits, now);
    SelectionIsGreedy(eligible, limits.maxCharacters);
    var selected := SelectMessages(eligible, limits.maxCharacters);
    var controls := FindControls(Originals(selected));
    context := PreparedContext(selected, controls);
  }
}
