/**
 What merging and repacking do to a message list, told by the fields of its messages
 (internal/upstream/tool_pairing.go): which neighbours become one message, where each result ends
 up, and when anything changes.
 */
module ToolGroups {
  import opened Common
  import opened ToolPairing

  /** An assistant message that declares calls. */
  predicate Head(m: Message) {
    m.Message? && m.role == Assistant && m.calls.List? && m.calls.calls != []
  }

  predicate IsResult(m: Message) {
    m.Message? && m.role == Tool
  }

  /** The result is one of some call that the head declares. */
  ghost predicate Answers(head: Message, m: Message)
    requires Head(head)
  {
    && IsResult(m) && m.callId != ""
    && exists i :: 0 <= i < |head.calls.calls| && head.calls.calls[i].Call? && head.calls.calls[i].id == m.callId
  }

  /** Neither a foreign result, nor an element that is no object, nor another head. */
  ghost predicate Passes(head: Message, m: Message)
    requires Head(head)
  {
    m.Message? && !Head(m) && (IsResult(m) ==> Answers(head, m))
  }

  /** From the head at `h`, whose first result directly follows it, one gets to `j`. */
  ghost predicate Reached(ms: seq<Message>, h: nat, j: nat) {
    && h < j < |ms| && Head(ms[h]) && Answers(ms[h], ms[h + 1])
    && forall k :: h < k <= j ==> Passes(ms[h], ms[k])
  }

  /** How many of the messages from `from` to `to` are results. */
  function ResultsIn(ms: seq<Message>, from: nat, to: nat): (n: nat)
    requires from <= to <= |ms|
    ensures n <= to - from
  {
    if from == to then 0 else ResultsIn(ms, from, to - 1) + if IsResult(ms[to - 1]) then 1 else 0
  }

  // ------------------------------------------------------------ groups on the fields

  lemma AnswersIsWanted(head: Message, m: Message)
    requires Head(head)
    ensures Answers(head, m) <==> IsTool(m) && m.callId in Wanted(head)
    ensures CallBearing(head) && CallsOf(head) == head.calls.calls
  {
    if IsTool(m) && m.callId in Wanted(head) {
      var c :| c in CallsOf(head) && c.Call? && c.id != "" && c.id == m.callId;
      var i :| 0 <= i < |head.calls.calls| && head.calls.calls[i] == c;
    }
  }

  lemma {:induction false} ZoneReaches(head: Message, s: seq<Message>, i: nat, started: bool)
    requires Head(head) && i < |s| && (started || Answers(head, s[0]))
    ensures Zone(Wanted(head), s, started) > i <==> forall k :: 0 <= k <= i ==> Passes(head, s[k])
    decreases i
  {
    AnswersIsWanted(head, s[0]);
    if Passes(head, s[0]) && i > 0 {
      ZoneReaches(head, s[1..], i - 1, true);
      assert forall k :: 1 <= k <= i ==> s[k] == s[1..][k - 1];
      assert forall k :: 0 <= k <= i - 1 ==> s[1..][k] == s[k + 1];
    }
  }

  /** The group of a head is what is reached from it. */
  lemma GroupIsReached(ms: seq<Message>, h: nat, j: nat)
    requires h < j < |ms| && Head(ms[h])
    ensures Zone(Wanted(ms[h]), ms[h + 1..], false) >= j - h <==> Reached(ms, h, j)
  {
    var s := ms[h + 1..];
    AnswersIsWanted(ms[h], s[0]);
    assert forall k :: h < k <= j ==> ms[k] == s[k - h - 1];
    assert forall k :: 0 <= k <= j - h - 1 ==> s[k] == ms[k + h + 1];
    if Answers(ms[h], s[0]) {
      ZoneReaches(ms[h], s, j - h - 1, false);
    } else {
      AttachedFirst(Wanted(ms[h]), s);
    }
  }

  // ------------------------------------------------------------ a head keeps its place

  lemma {:induction false} ZoneEndsBefore(want: set<Id>, ms: seq<Message>, i: nat, started: bool)
    requires i < |ms| && CallBearing(ms[i])
    ensures Zone(want, ms, started) == Zone(want, ms[..i], started) <= i
    decreases i
  {
    if i > 0 {
      assert ms[..i][1..] == ms[1..][..i - 1];
      ZoneEndsBefore(want, ms[1..], i - 1, true);
      ZoneEndsBefore(want, ms[1..], i - 1, started);
    }
  }

  lemma {:induction false} RepackSplits(ms: seq<Message>, h: nat)
    requires h < |ms| && CallBearing(ms[h])
    ensures Repack(ms) == Repack(ms[..h]) + Repack(ms[h..])
    decreases |ms|, 2
  {
    if h == 0 {
      assert ms[..0] == [] && ms[0..] == ms;
    } else if !CallBearing(ms[0]) {
      RepackSplits(ms[1..], h - 1);
      assert ms[..h][1..] == ms[1..][..h - 1] && ms[1..][h - 1..] == ms[h..] && ms[..h][0] == ms[0];
      Associates([ms[0]], Repack(ms[..h][1..]), Repack(ms[h..]));
    } else {
      SplitsGroup(ms, h);
    }
  }

  /** A list that is cut behind its first group. */
  lemma FrontGroup(ms: seq<Message>, h: nat, n: nat)
    requires 0 < h <= |ms| && CallBearing(ms[0]) && n < h && n == Zone(Wanted(ms[0]), ms[1..][..h - 1], false)
    ensures Repack(ms[..h]) == [ms[0]] + (Tools(ms[1..][..n]) + (Others(ms[1..][..n]) + Repack(ms[1..][n..h - 1])))
  {
    var tail := ms[1..][..h - 1];
    assert ms[..h][1..] == tail && ms[..h][0] == ms[0];
    assert tail[..n] == ms[1..][..n] && tail[n..] == ms[1..][n..h - 1];
  }

  lemma GroupFirst(ms: seq<Message>, n: nat)
    requires ms != [] && CallBearing(ms[0]) && n == Zone(Wanted(ms[0]), ms[1..], false)
    ensures Repack(ms) == [ms[0]] + (Tools(ms[1..][..n]) + (Others(ms[1..][..n]) + Repack(ms[1..][n..])))
  {
  }

  lemma RestSplits(ms: seq<Message>, h: nat, n: nat)
    requires n < h < |ms| && CallBearing(ms[h])
    ensures Repack(ms[1..][n..]) == Repack(ms[1..][n..h - 1]) + Repack(ms[h..])
    decreases |ms|, 0
  {
    var rest := ms[1..][n..];
    RepackSplits(rest, h - 1 - n);
    assert rest[..h - 1 - n] == ms[1..][n..h - 1] && rest[h - 1 - n..] == ms[h..];
  }

  lemma SplitsGroup(ms: seq<Message>, h: nat)
    requires 0 < h < |ms| && CallBearing(ms[h]) && CallBearing(ms[0])
    ensures Repack(ms) == Repack(ms[..h]) + Repack(ms[h..])
    decreases |ms|, 1
  {
    var tail, want := ms[1..], Wanted(ms[0]);
    ZoneEndsBefore(want, tail, h - 1, false);
    var n := Zone(want, tail, false);
    GroupFirst(ms, n);
    FrontGroup(ms, h, n);
    RestSplits(ms, h, n);
    Regroup([ms[0]], Tools(tail[..n]), Others(tail[..n]), Repack(tail[n..h - 1]), Repack(ms[h..]));
  }

  lemma Regroup<T>(a: seq<T>, b: seq<T>, c: seq<T>, d: seq<T>, e: seq<T>)
    ensures a + (b + (c + (d + e))) == (a + (b + (c + d))) + e
  {
  }

  lemma SameLength(ms: seq<Message>)
    ensures |Repack(ms)| == |ms|
  {
    RepackIsPermutation(ms);
    assert |multiset(Repack(ms))| == |multiset(ms)|;
  }

  // ------------------------------------------------------------ where the results go

  /** A result is found among the results at the number of those before it. */
  lemma {:induction false} ToolAt(s: seq<Message>, i: nat)
    requires i < |s| && IsTool(s[i])
    ensures |Tools(s[..i])| < |Tools(s)| && Tools(s)[|Tools(s[..i])|] == s[i]
    decreases i
  {
    if i == 0 {
      assert s[..0] == [];
    } else {
      ToolAt(s[1..], i - 1);
      assert s[..i][1..] == s[1..][..i - 1] && s[..i][0] == s[0];
    }
  }

  lemma {:induction false} CountIsTools(ms: seq<Message>, from: nat, to: nat)
    requires from <= to <= |ms|
    ensures ResultsIn(ms, from, to) == |Tools(ms[from..to])|
    decreases |ms|, to - from
  {
    if from < to {
      CountIsTools(ms, from, to - 1);
      var s, m := ms[from..to - 1], ms[to - 1];
      assert ms[from..to] == s + [m];
      if IsTool(m) {
        AddTool(s, m);
      } else {
        AddOther(s, m);
      }
    } else {
      assert ms[from..to] == [];
    }
  }

  lemma {:induction false} ToolsAreResults(head: Message, s: seq<Message>)
    requires Head(head) && forall k :: 0 <= k < |s| ==> Passes(head, s[k])
    ensures forall k :: 0 <= k < |Tools(s)| ==> Answers(head, Tools(s)[k])
  {
    if s != [] {
      ToolsAreResults(head, s[1..]);
    }
  }

  lemma GroupStart(ms: seq<Message>, h: nat)
    requires h < |ms| && Head(ms[h])
    ensures var n := Zone(Wanted(ms[h]), ms[h + 1..], false);
            var r, t := Repack(ms), Tools(ms[h + 1..][..n]);
            |r| == |ms| && h + 1 + |t| <= |ms| && r[h] == ms[h] && r[h + 1..h + 1 + |t|] == t
  {
    AnswersIsWanted(ms[h], ms[h]);
    RepackSplits(ms, h);
    SameLength(ms);
    SameLength(ms[..h]);
    var tail, n := ms[h + 1..], Zone(Wanted(ms[h]), ms[h + 1..], false);
    assert ms[h..][1..] == tail && ms[h..][0] == ms[h];
    var front, t, back := Repack(ms[..h]), Tools(tail[..n]), Others(tail[..n]) + Repack(tail[n..]);
    assert Repack(ms) == front + ([ms[h]] + (t + back));
    Middle(front, ms[h], t, back);
  }

  lemma Middle<T>(front: seq<T>, x: T, t: seq<T>, back: seq<T>)
    ensures var r := front + ([x] + (t + back));
            r[|front|] == x && r[|front| + 1..|front| + 1 + |t|] == t
  {
  }

  lemma GroupAnswers(ms: seq<Message>, h: nat)
    requires h < |ms| && Head(ms[h])
    ensures var zone := ms[h + 1..][..Zone(Wanted(ms[h]), ms[h + 1..], false)];
            forall k :: 0 <= k < |Tools(zone)| ==> Answers(ms[h], Tools(zone)[k])
  {
    var zone := ms[h + 1..][..Zone(Wanted(ms[h]), ms[h + 1..], false)];
    forall k | 0 <= k < |zone| ensures Passes(ms[h], zone[k]) {
      GroupIsReached(ms, h, h + 1 + k);
    }
    ToolsAreResults(ms[h], zone);
  }

  lemma PlaceInGroup(ms: seq<Message>, h: nat, j: nat)
    requires Reached(ms, h, j) && IsResult(ms[j])
    ensures var t, c := Tools(ms[h + 1..][..Zone(Wanted(ms[h]), ms[h + 1..], false)]), ResultsIn(ms, h + 1, j);
            c < |t| && t[c] == ms[j]
  {
    GroupIsReached(ms, h, j);
    CountIsTools(ms, h + 1, j);
    var zone := ms[h + 1..][..Zone(Wanted(ms[h]), ms[h + 1..], false)];
    ToolAt(zone, j - h - 1);
    assert zone[..j - h - 1] == ms[h + 1..j];
  }

  lemma Section<T>(r: seq<T>, from: nat, t: seq<T>, c: nat)
    requires c < |t| && from + |t| <= |r| && r[from..from + |t|] == t
    ensures forall k :: from <= k <= from + c ==> r[k] == t[k - from]
  {
    assert forall k :: from <= k <= from + c ==> r[k] == r[from..from + |t|][k - from];
  }

  /** Every result that answers some call of a head and is reached from it stands, after
      repacking, behind the head with only results of that head's calls between them, as many as
      stood between them before. */
  lemma ResultsFollow(ms: seq<Message>, h: nat, j: nat)
    requires Reached(ms, h, j) && IsResult(ms[j])
    ensures var r, n := Repack(ms), h + 1 + ResultsIn(ms, h + 1, j);
            && |r| == |ms| && n <= j && r[h] == ms[h] && r[n] == ms[j]
            && forall k :: h < k <= n ==> Answers(ms[h], r[k])
  {
    GroupStart(ms, h);
    PlaceInGroup(ms, h, j);
    GroupAnswers(ms, h);
    Section(Repack(ms), h + 1, Tools(ms[h + 1..][..Zone(Wanted(ms[h]), ms[h + 1..], false)]), ResultsIn(ms, h + 1, j));
  }

  // ------------------------------------------------------------ when anything moves

  /** Something that is no result stands in front of a result that is reached from a head. */
  ghost predicate Displaced(ms: seq<Message>) {
    exists h: nat, i: nat, j: nat :: Reached(ms, h, j) && IsResult(ms[j]) && Between(ms, h, i, j)
  }

  predicate Between(ms: seq<Message>, h: nat, i: nat, j: nat) {
    h < i < j < |ms| && !IsResult(ms[i])
  }

  lemma {:induction false} OthersBefore(s: seq<Message>)
    ensures Others(s) != [] <==> exists i :: 0 <= i < |s| && !IsTool(s[i])
  {
    if s != [] {
      OthersBefore(s[1..]);
      if exists i :: 0 <= i < |s[1..]| && !IsTool(s[1..][i]) {
        var i :| 0 <= i < |s[1..]| && !IsTool(s[1..][i]);
        assert !IsTool(s[i + 1]);
      }
    }
  }

  predicate Inverted(zone: seq<Message>, i: nat, j: nat) {
    i < j < |zone| && !IsTool(zone[i]) && IsTool(zone[j])
  }

  lemma {:induction false} MovesMeans(zone: seq<Message>)
    ensures Moves(zone) <==> exists i: nat, j: nat :: Inverted(zone, i, j)
  {
    if zone != [] {
      var n := |zone| - 1;
      var front := zone[..n];
      MovesMeans(front);
      OthersBefore(front);
      if Moves(front) {
        var i: nat, j: nat :| Inverted(front, i, j);
        assert Inverted(zone, i, j);
      } else if IsTool(zone[n]) && Others(front) != [] {
        var i :| 0 <= i < |front| && !IsTool(front[i]);
        assert Inverted(zone, i, n);
      }
      if i: nat, j: nat :| Inverted(zone, i, j) {
        if j < n {
          assert Inverted(front, i, j);
        } else {
          assert !IsTool(front[i]);
        }
      }
    }
  }

  function GroupAt(ms: seq<Message>, h: nat): seq<Message>
    requires h < |ms|
  {
    ms[h + 1..][..Zone(Wanted(ms[h]), ms[h + 1..], false)]
  }

  lemma {:induction false} PackedMeans(ms: seq<Message>)
    ensures Packed(ms) <==> forall h :: 0 <= h < |ms| && CallBearing(ms[h]) ==> !Moves(GroupAt(ms, h))
  {
    if ms != [] {
      PackedMeans(ms[1..]);
      UnmovedInPlace(GroupAt(ms, 0));
      forall h | 0 < h < |ms| ensures ms[h] == ms[1..][h - 1] && GroupAt(ms, h) == GroupAt(ms[1..], h - 1) {
        assert ms[1..][h..] == ms[h + 1..];
      }
      forall h | 0 <= h < |ms| - 1 ensures ms[1..][h] == ms[h + 1] && GroupAt(ms[1..], h) == GroupAt(ms, h + 1) {
        assert ms[1..][h + 1..] == ms[h + 2..];
      }
    }
  }

  lemma MovesIsDisplaced(ms: seq<Message>, h: nat)
    requires h < |ms| && Head(ms[h])
    ensures Moves(GroupAt(ms, h)) <==> exists i: nat, j: nat :: Reached(ms, h, j) && IsResult(ms[j]) && Between(ms, h, i, j)
  {
    var zone := GroupAt(ms, h);
    MovesMeans(zone);
    if Moves(zone) {
      var i: nat, j: nat :| Inverted(zone, i, j);
      GroupIsReached(ms, h, h + 1 + j);
      assert ms[h + 1 + j] == zone[j] && ms[h + 1 + i] == zone[i];
      assert Between(ms, h, h + 1 + i, h + 1 + j);
    }
    if i: nat, j: nat :| Reached(ms, h, j) && IsResult(ms[j]) && Between(ms, h, i, j) {
      GroupIsReached(ms, h, j);
      assert Inverted(zone, i - h - 1, j - h - 1);
    }
  }

  /** Repacking changes a list exactly when something that is no result stands in front of a
      result that is reached from a head. */
  lemma ChangesExactly(ms: seq<Message>)
    ensures Repack(ms) != ms <==> Displaced(ms)
  {
    RepackIsIdempotent(ms);
    PackedMeans(ms);
    forall h | 0 <= h < |ms| && Head(ms[h])
      ensures CallBearing(ms[h])
      ensures Moves(GroupAt(ms, h)) <==> exists i: nat, j: nat :: Reached(ms, h, j) && IsResult(ms[j]) && Between(ms, h, i, j)
    {
      MovesIsDisplaced(ms, h);
    }
    assert forall m :: CallBearing(m) <==> Head(m);
  }

  lemma LastOther(a: Message, b: Message, c: Message, d: Message)
    requires !IsTool(a) && IsTool(b) && IsTool(c)
    ensures Others([a, b, c, d]) == [a] + (if IsTool(d) then [] else [d])
  {
    assert [a, b, c, d] == [a] + ([b, c] + [d]);
    OthersFirst([a], [b, c] + [d]);
    ToolsFirst([b, c], [d]);
    OneOther(d);
  }

  lemma OneOther(m: Message)
    ensures Others([m]) == (if IsTool(m) then [] else [m])
  {
    assert [m][1..] == [];
  }

  lemma ParallelPlaces(ms: seq<Message>)
    requires |ms| == 4 && Head(ms[0]) && Answers(ms[0], ms[1]) && Answers(ms[0], ms[3])
    requires ms[2].Message? && !IsResult(ms[2]) && !Head(ms[2])
    ensures var r := Repack(ms); |r| == 4 && r[0] == ms[0] && r[1] == ms[1] && r[2] == ms[3]
  {
    ResultsFollow(ms, 0, 1);
    ResultsFollow(ms, 0, 3);
    assert ResultsIn(ms, 1, 1) == 0 && ResultsIn(ms, 1, 2) == 1 && ResultsIn(ms, 1, 3) == 1;
  }

  /** The notice that is put between two parallel results moves behind both. */
  lemma ParallelResults(head: Message, first: Message, notice: Message, second: Message)
    requires Head(head) && Answers(head, first) && Answers(head, second)
    requires notice.Message? && !IsResult(notice) && !Head(notice)
    ensures Repack([head, first, notice, second]) == [head, first, second, notice]
  {
    var ms := [head, first, notice, second];
    ParallelPlaces(ms);
    RepackKeepsOrder(ms);
    NoticeIsOther(head, first, notice, second);
    var r := Repack(ms);
    LastOther(head, first, second, r[3]);
    assert r == [head, first, second, r[3]];
    assert Others(r)[1] == notice;
  }

  lemma NoticeIsOther(head: Message, first: Message, notice: Message, second: Message)
    requires !IsTool(head) && IsTool(first) && !IsTool(notice) && IsTool(second)
    ensures Others([head, first, notice, second]) == [head, notice]
  {
    assert [head, first, notice, second] == [head] + ([first] + ([notice] + [second]));
    OthersFirst([head], [first] + ([notice] + [second]));
    ToolsFirst([first], [notice] + [second]);
    OthersFirst([notice], [second]);
    OneOther(second);
    assert [head] + ([notice] + []) == [head, notice];
  }

  // ------------------------------------------------------------ merging

  predicate Bare(c: Content) {
    c == Content.Blank || c == Text("")
  }

  /** The message declares more calls and has no text of its own, or it is nothing but the text of
      a declaration that has none. */
  predicate Together(prev: Message, m: Message) {
    && Head(prev) && m.Message? && m.role == Assistant
    && ((m.calls.List? && m.calls.calls != [] && Bare(m.content)) ||
        (m.calls == NoKey && m.content.Text? && m.content.text != "" && Bare(prev.content)))
  }

  lemma TogetherIsMergeable(prev: Message, m: Message)
    ensures Together(prev, m) <==> Mergeable(prev, m)
  {
  }

  /** Merging changes a list exactly when two neighbours belong together. */
  lemma MergesExactly(ms: seq<Message>)
    ensures Merge(ms) != ms <==> exists i :: 0 < i < |ms| && Together(ms[i - 1], ms[i])
  {
    MergeIsIdempotent(ms);
    forall i | 0 < i < |ms| ensures Together(ms[i - 1], ms[i]) <==> Mergeable(ms[i - 1], ms[i]) {
      TogetherIsMergeable(ms[i - 1], ms[i]);
    }
    if Merge(ms) != ms {
      var i :| 0 < i < |ms| && Mergeable(ms[i - 1], ms[i]);
      assert Together(ms[i - 1], ms[i]);
    }
  }

  lemma MergeOfTwo(prev: Message, m: Message)
    requires Mergeable(prev, m)
    ensures Merge([prev, m]) == [Merged(prev, m)]
  {
    var none: seq<Message>, one := [], [prev];
    assert one[..0] == none && one == none + [prev];
    assert Merge(none) == none && Merge(one) == MergeInto(none, prev);
    assert [prev, m][..1] == one && one[..0] == none;
  }

  /** The message of the first neighbour with the calls of both, the text of the one that has any,
      and both reasonings on lines of their own. */
  ghost predicate Joined(prev: Message, m: Message, r: Message)
    requires prev.Message? && m.Message? && prev.calls.List?
  {
    && r.Message? && r.role == prev.role && r.callId == prev.callId
    && r.calls == List(prev.calls.calls + (if m.calls.List? then m.calls.calls else []))
    && r.content == (if m.calls.List? then prev.content else m.content)
    && (prev.reasoning != "" && m.reasoning != "" ==> r.reasoning == prev.reasoning + "\n" + m.reasoning)
    && (prev.reasoning == "" ==> r.reasoning == m.reasoning) && (m.reasoning == "" ==> r.reasoning == prev.reasoning)
  }

  lemma MergedIsJoined(prev: Message, m: Message)
    requires Together(prev, m)
    ensures Joined(prev, m, Merged(prev, m))
  {
    if m.calls == NoKey {
      assert prev.calls.calls + [] == prev.calls.calls;
    }
  }

  /** Two neighbours that belong together become one message. */
  lemma NeighboursMerge(prev: Message, m: Message) returns (r: Message)
    requires Together(prev, m)
    ensures Merge([prev, m]) == [r] && Joined(prev, m, r)
  {
    TogetherIsMergeable(prev, m);
    MergeOfTwo(prev, m);
    MergedIsJoined(prev, m);
    r := Merged(prev, m);
  }
}
