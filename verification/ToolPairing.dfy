/** The three rewrites of a message list in internal/upstream/tool_pairing.go. */
module ToolPairing {
  import opened Common

  type Id = string

  /** An element of `tool_calls`; `id` is "" when it is missing. */
  datatype Call = NotAnObject | Call(id: Id, nameEmpty: bool)

  datatype Calls = NoKey | NotAList | List(calls: seq<Call>)

  datatype Content = Blank | Text(text: string) | Parts

  datatype Role = Assistant | Tool | OtherRole(name: string)

  datatype Message =
    | Opaque(raw: int)
    | Message(role: Role, callId: Id, calls: Calls, content: Content, reasoning: string)

  predicate IsAssistant(m: Message) {
    m.Message? && m.role == Assistant
  }

  predicate IsTool(m: Message) {
    m.Message? && m.role == Tool
  }

  predicate CallBearing(m: Message) {
    IsAssistant(m) && m.calls.List? && m.calls.calls != []
  }

  function CallsOf(m: Message): seq<Call> {
    if IsAssistant(m) && m.calls.List? then m.calls.calls else []
  }

  predicate EmptyContent(c: Content) {
    c.Blank? || (c.Text? && c.text == "")
  }

  // ------------------------------------------------------------ merging adjacent declarations

  function JoinReasoning(a: string, b: string): string {
    if b == "" then a else if a == "" then b else a + "\n" + b
  }

  /** The message declares more calls of the one before it. */
  predicate MoreCalls(prev: Message, m: Message) {
    CallBearing(m) && EmptyContent(m.content) && CallBearing(prev)
  }

  /** The message is the text of the declaration before it. */
  predicate OwnText(prev: Message, m: Message) {
    IsAssistant(m) && m.calls.NoKey? && m.content.Text? && m.content.text != "" && CallBearing(prev) && EmptyContent(prev.content)
  }

  predicate Mergeable(prev: Message, m: Message) {
    MoreCalls(prev, m) || OwnText(prev, m)
  }

  function Merged(prev: Message, m: Message): Message
    requires Mergeable(prev, m)
  {
    var r := JoinReasoning(prev.reasoning, m.reasoning);
    if MoreCalls(prev, m) then prev.(calls := List(prev.calls.calls + m.calls.calls), reasoning := r)
    else prev.(content := m.content, reasoning := r)
  }

  /** The message goes into the last one of the list. */
  predicate Joins(out: seq<Message>, m: Message) {
    out != [] && Mergeable(out[|out| - 1], m)
  }

  function MergeInto(out: seq<Message>, m: Message): seq<Message> {
    if Joins(out, m) then out[..|out| - 1] + [Merged(out[|out| - 1], m)] else out + [m]
  }

  function Merge(ms: seq<Message>): seq<Message> {
    if ms == [] then [] else MergeInto(Merge(ms[..|ms| - 1]), ms[|ms| - 1])
  }

  /** All declared calls, in order. */
  function AllCalls(ms: seq<Message>): seq<Call> {
    if ms == [] then [] else AllCalls(ms[..|ms| - 1]) + CallsOf(ms[|ms| - 1])
  }

  /** All contents that are not empty, in order, with the role they belong to. */
  function AllTexts(ms: seq<Message>): seq<(Role, Content)> {
    if ms == [] then [] else AllTexts(ms[..|ms| - 1]) + TextOf(ms[|ms| - 1])
  }

  function TextOf(m: Message): seq<(Role, Content)> {
    if m.Message? && !EmptyContent(m.content) then [(m.role, m.content)] else []
  }

  function ReasoningOf(m: Message): string {
    if m.Message? then m.reasoning else ""
  }

  /** All reasoning, joined line by line. */
  function AllReasoning(ms: seq<Message>): string {
    if ms == [] then "" else JoinReasoning(AllReasoning(ms[..|ms| - 1]), ReasoningOf(ms[|ms| - 1]))
  }

  lemma JoinAssociates(a: string, b: string, c: string)
    ensures JoinReasoning(JoinReasoning(a, b), c) == JoinReasoning(a, JoinReasoning(b, c))
  {
    assert (a + "\n" + b) + "\n" + c == a + "\n" + (b + "\n" + c);
  }

  lemma Snoc(ms: seq<Message>, m: Message)
    ensures AllCalls(ms + [m]) == AllCalls(ms) + CallsOf(m) && AllTexts(ms + [m]) == AllTexts(ms) + TextOf(m)
    ensures AllReasoning(ms + [m]) == JoinReasoning(AllReasoning(ms), ReasoningOf(m))
  {
    assert (ms + [m])[..|ms|] == ms;
  }

  lemma MergeIntoKeeps(out: seq<Message>, m: Message)
    ensures AllCalls(MergeInto(out, m)) == AllCalls(out) + CallsOf(m)
    ensures AllTexts(MergeInto(out, m)) == AllTexts(out) + TextOf(m)
    ensures AllReasoning(MergeInto(out, m)) == JoinReasoning(AllReasoning(out), ReasoningOf(m))
  {
    if out != [] && Mergeable(out[|out| - 1], m) {
      var front, prev := out[..|out| - 1], out[|out| - 1];
      Snoc(front, Merged(prev, m));
      MergedKeeps(prev, m);
      Associates(AllCalls(front), CallsOf(prev), CallsOf(m));
      Associates(AllTexts(front), TextOf(prev), TextOf(m));
      JoinAssociates(AllReasoning(front), ReasoningOf(prev), ReasoningOf(m));
    } else {
      Snoc(out, m);
    }
  }

  lemma MergedKeeps(prev: Message, m: Message)
    requires Mergeable(prev, m)
    ensures CallsOf(Merged(prev, m)) == CallsOf(prev) + CallsOf(m)
    ensures TextOf(Merged(prev, m)) == TextOf(prev) + TextOf(m)
    ensures ReasoningOf(Merged(prev, m)) == JoinReasoning(ReasoningOf(prev), ReasoningOf(m))
  {
  }

  /** Merging keeps the flattened sequence of calls, the sequence of texts and the joined
      reasoning. */
  lemma {:induction false} MergeKeeps(ms: seq<Message>)
    ensures AllCalls(Merge(ms)) == AllCalls(ms) && AllTexts(Merge(ms)) == AllTexts(ms)
    ensures AllReasoning(Merge(ms)) == AllReasoning(ms)
  {
    if ms != [] {
      MergeKeeps(ms[..|ms| - 1]);
      MergeIntoKeeps(Merge(ms[..|ms| - 1]), ms[|ms| - 1]);
    }
  }

  /** No two neighbours can be merged. */
  predicate Settled(ms: seq<Message>) {
    forall i :: 0 < i < |ms| ==> !Mergeable(ms[i - 1], ms[i])
  }

  lemma MergeIntoSettles(out: seq<Message>, m: Message)
    requires Settled(out)
    ensures Settled(MergeInto(out, m))
  {
    if out != [] && Mergeable(out[|out| - 1], m) {
      var n := |out| - 1;
      var r := MergeInto(out, m);
      forall i | 0 < i < |r| ensures !Mergeable(r[i - 1], r[i]) {
        assert !Mergeable(out[i - 1], out[i]);
      }
    }
  }

  lemma {:induction false} MergeSettles(ms: seq<Message>)
    ensures Settled(Merge(ms))
  {
    if ms != [] {
      MergeSettles(ms[..|ms| - 1]);
      MergeIntoSettles(Merge(ms[..|ms| - 1]), ms[|ms| - 1]);
    }
  }

  lemma SettledFront(ms: seq<Message>)
    requires Settled(ms) && ms != []
    ensures var n := |ms| - 1; Settled(ms[..n]) && !Joins(ms[..n], ms[n])
  {
    var n := |ms| - 1;
    forall i | 0 < i < n ensures !Mergeable(ms[..n][i - 1], ms[..n][i]) {
      assert !Mergeable(ms[i - 1], ms[i]);
    }
    if n > 0 {
      assert !Mergeable(ms[n - 1], ms[n]);
    }
  }

  lemma {:induction false} SettledStays(ms: seq<Message>)
    requires Settled(ms)
    ensures Merge(ms) == ms
  {
    if ms != [] {
      SettledFront(ms);
      SettledStays(ms[..|ms| - 1]);
      assert ms == ms[..|ms| - 1] + [ms[|ms| - 1]];
    }
  }

  /** A list is left alone exactly when no two neighbours can be merged; in particular the
      second merge changes nothing. */
  lemma MergeIsIdempotent(ms: seq<Message>)
    ensures Merge(ms) == ms <==> Settled(ms)
    ensures Merge(Merge(ms)) == Merge(ms)
  {
    MergeSettles(ms);
    SettledStays(Merge(ms));
    if Settled(ms) {
      SettledStays(ms);
    }
  }

  lemma {:induction false} MergeLength(ms: seq<Message>)
    ensures |Merge(ms)| <= |ms| && (|Merge(ms)| == |ms| ==> Merge(ms) == ms)
  {
    if ms != [] {
      MergeLength(ms[..|ms| - 1]);
    }
  }

  /** Some message of the list is merged into the one before it. */
  predicate AnyMerged(ms: seq<Message>) {
    ms != [] && (AnyMerged(ms[..|ms| - 1]) || Joins(Merge(ms[..|ms| - 1]), ms[|ms| - 1]))
  }

  lemma {:induction false} AnyMergedShortens(ms: seq<Message>)
    ensures AnyMerged(ms) <==> |Merge(ms)| < |ms|
  {
    if ms != [] {
      AnyMergedShortens(ms[..|ms| - 1]);
      MergeLength(ms[..|ms| - 1]);
    }
  }

  lemma MergeStep(ms: seq<Message>, i: nat)
    requires i < |ms|
    ensures Merge(ms[..i + 1]) == MergeInto(Merge(ms[..i]), ms[i])
    ensures AnyMerged(ms[..i + 1]) == (AnyMerged(ms[..i]) || Joins(Merge(ms[..i]), ms[i]))
  {
    assert ms[..i + 1][..i] == ms[..i];
  }

  /** The next message goes into the last one, or behind it. */
  method Append(out: seq<Message>, m: Message) returns (r: seq<Message>, merged: bool)
    ensures r == MergeInto(out, m) && merged == Joins(out, m)
  {
    if out != [] && Mergeable(out[|out| - 1], m) {
      return out[..|out| - 1] + [Merged(out[|out| - 1], m)], true;
    }
    return out + [m], false;
  }

  method MergeAll(ms: seq<Message>) returns (out: seq<Message>, changed: bool)
    ensures out == Merge(ms) && changed == AnyMerged(ms)
  {
    out, changed := [], false;
    for i := 0 to |ms|
      invariant out == Merge(ms[..i]) && changed == AnyMerged(ms[..i])
    {
      MergeStep(ms, i);
      var merged;
      out, merged := Append(out, ms[i]);
      changed := changed || merged;
    }
    assert ms[..|ms|] == ms;
  }

  method MergeAdjacentToolCalls(ms: seq<Message>) returns (out: seq<Message>, changed: bool)
    ensures out == Merge(ms) && (changed <==> out != ms)
  {
    out, changed := MergeAll(ms);
    AnyMergedShortens(ms);
    MergeLength(ms);
  }

  // ------------------------------------------------------------ making results contiguous

  function Tools(ms: seq<Message>): seq<Message> {
    if ms == [] then [] else (if IsTool(ms[0]) then [ms[0]] else []) + Tools(ms[1..])
  }

  function Others(ms: seq<Message>): seq<Message> {
    if ms == [] then [] else (if IsTool(ms[0]) then [] else [ms[0]]) + Others(ms[1..])
  }

  function IdsOf(calls: seq<Call>): set<Id> {
    set c | c in calls && c.Call? && c.id != "" :: c.id
  }

  function Wanted(head: Message): set<Id> {
    IdsOf(CallsOf(head))
  }

  /** How many messages behind a head belong to its group: its results, and whatever lies
      between them. The group ends at a foreign result, at an element that is no object, at
      the next message that declares calls, and before anything if no result comes first. */
  function Zone(want: set<Id>, ms: seq<Message>, started: bool): (n: nat)
    ensures n <= |ms|
  {
    if ms == [] || !ms[0].Message? then 0
    else if IsTool(ms[0]) then (if ms[0].callId in want then 1 + Zone(want, ms[1..], true) else 0)
    else if started && !CallBearing(ms[0]) then 1 + Zone(want, ms[1..], started)
    else 0
  }

  function Repack(ms: seq<Message>): seq<Message>
    decreases |ms|
  {
    if ms == [] then []
    else if !CallBearing(ms[0]) then [ms[0]] + Repack(ms[1..])
    else
      var n := Zone(Wanted(ms[0]), ms[1..], false);
      [ms[0]] + (Tools(ms[1..][..n]) + (Others(ms[1..][..n]) + Repack(ms[1..][n..])))
  }

  lemma SplitAppend(a: seq<Message>, b: seq<Message>)
    ensures Tools(a + b) == Tools(a) + Tools(b) && Others(a + b) == Others(a) + Others(b)
  {
    ToolsAppend(a, b);
    OthersAppend(a, b);
  }

  lemma {:induction false} ToolsAppend(a: seq<Message>, b: seq<Message>)
    ensures Tools(a + b) == Tools(a) + Tools(b)
  {
    if a == [] {
      assert a + b == b;
    } else {
      assert (a + b)[1..] == a[1..] + b;
      ToolsAppend(a[1..], b);
      Associates(if IsTool(a[0]) then [a[0]] else [], Tools(a[1..]), Tools(b));
    }
  }

  lemma {:induction false} OthersAppend(a: seq<Message>, b: seq<Message>)
    ensures Others(a + b) == Others(a) + Others(b)
  {
    if a == [] {
      assert a + b == b;
    } else {
      assert (a + b)[1..] == a[1..] + b;
      OthersAppend(a[1..], b);
      Associates(if IsTool(a[0]) then [] else [a[0]], Others(a[1..]), Others(b));
    }
  }

  predicate OnlyTools(ms: seq<Message>) {
    forall i :: 0 <= i < |ms| ==> IsTool(ms[i])
  }

  predicate NoTools(ms: seq<Message>) {
    forall i :: 0 <= i < |ms| ==> !IsTool(ms[i])
  }

  lemma {:induction false} ToolsFirst(t: seq<Message>, s: seq<Message>)
    requires OnlyTools(t)
    ensures Tools(t + s) == t + Tools(s) && Others(t + s) == Others(s)
  {
    if t == [] {
      assert t + s == s;
    } else {
      assert (t + s)[1..] == t[1..] + s;
      ToolsFirst(t[1..], s);
      Associates([t[0]], t[1..], Tools(s));
      assert t == [t[0]] + t[1..];
    }
  }

  lemma {:induction false} OthersFirst(o: seq<Message>, s: seq<Message>)
    requires NoTools(o)
    ensures Tools(o + s) == Tools(s) && Others(o + s) == o + Others(s)
  {
    if o == [] {
      assert o + s == s;
    } else {
      assert (o + s)[1..] == o[1..] + s;
      OthersFirst(o[1..], s);
      Associates([o[0]], o[1..], Others(s));
      assert o == [o[0]] + o[1..];
    }
  }

  lemma {:induction false} SplitPure(ms: seq<Message>)
    ensures OnlyTools(Tools(ms)) && NoTools(Others(ms))
  {
    if ms != [] {
      SplitPure(ms[1..]);
    }
  }

  /** Within a group the tools and the others keep their order when the tools go first. */
  lemma GroupKeeps(zone: seq<Message>, rest: seq<Message>)
    ensures Tools(Tools(zone) + (Others(zone) + rest)) == Tools(zone) + Tools(rest)
    ensures Others(Tools(zone) + (Others(zone) + rest)) == Others(zone) + Others(rest)
  {
    SplitPure(zone);
    ToolsFirst(Tools(zone), Others(zone) + rest);
    OthersFirst(Others(zone), rest);
  }

  /** Repacking moves no tool result past another one, and no other message past another one. */
  lemma {:induction false} RepackKeepsOrder(ms: seq<Message>)
    ensures Tools(Repack(ms)) == Tools(ms) && Others(Repack(ms)) == Others(ms)
    decreases |ms|
  {
    if ms != [] {
      var tail := ms[1..];
      assert ms == [ms[0]] + tail;
      SplitAppend([ms[0]], tail);
      if !CallBearing(ms[0]) {
        RepackKeepsOrder(tail);
        SplitAppend([ms[0]], Repack(tail));
      } else {
        var n := Zone(Wanted(ms[0]), tail, false);
        RepackKeepsOrder(tail[n..]);
        SplitAppend(tail[..n], tail[n..]);
        assert tail[..n] + tail[n..] == tail;
        GroupKeeps(tail[..n], Repack(tail[n..]));
        SplitAppend([ms[0]], Tools(tail[..n]) + (Others(tail[..n]) + Repack(tail[n..])));
      }
    }
  }

  lemma {:induction false} SplitIsPermutation(ms: seq<Message>)
    ensures multiset(ms) == multiset(Tools(ms)) + multiset(Others(ms))
  {
    if ms != [] {
      SplitIsPermutation(ms[1..]);
      assert ms == [ms[0]] + ms[1..];
    }
  }

  /** Repacking is a permutation. */
  lemma RepackIsPermutation(ms: seq<Message>)
    ensures multiset(Repack(ms)) == multiset(ms)
  {
    RepackKeepsOrder(ms);
    SplitIsPermutation(ms);
    SplitIsPermutation(Repack(ms));
  }

  // ------------------------------------------------------------ what repacking achieves

  /** In every group the results come first. */
  predicate Packed(ms: seq<Message>)
    decreases |ms|
  {
    ms == [] ||
    (&& (CallBearing(ms[0]) ==>
           var zone := ms[1..][..Zone(Wanted(ms[0]), ms[1..], false)];
           zone == Tools(zone) + Others(zone))
     && Packed(ms[1..]))
  }

  /** A list is left alone if it is packed. */
  lemma {:induction false} PackedStays(ms: seq<Message>)
    requires Packed(ms)
    ensures Repack(ms) == ms
    decreases |ms|
  {
    if ms != [] {
      var tail := ms[1..];
      assert ms == [ms[0]] + tail;
      if !CallBearing(ms[0]) {
        PackedStays(tail);
      } else {
        var n := Zone(Wanted(ms[0]), tail, false);
        PackedDrop(tail, n);
        PackedStays(tail[n..]);
        InPlace(tail, n, Tools(tail[..n]), Others(tail[..n]));
      }
    }
  }

  lemma InPlace<T>(s: seq<T>, n: nat, t: seq<T>, o: seq<T>)
    requires n <= |s| && s[..n] == t + o
    ensures t + (o + s[n..]) == s
  {
    assert s == s[..n] + s[n..];
  }

  lemma {:induction false} PackedDrop(ms: seq<Message>, n: nat)
    requires Packed(ms) && n <= |ms|
    ensures Packed(ms[n..])
    decreases n
  {
    if n > 0 {
      PackedDrop(ms[1..], n - 1);
      assert ms[1..][n - 1..] == ms[n..];
    } else {
      assert ms[0..] == ms;
    }
  }

  /** The first message stays first. */
  lemma FirstStays(ms: seq<Message>)
    requires ms != []
    ensures Repack(ms) != [] && Repack(ms)[0] == ms[0]
  {
  }

  /** What can stand at the end of a group. */
  predicate Stops(want: set<Id>, ms: seq<Message>) {
    ms == [] || !ms[0].Message? || (IsTool(ms[0]) && ms[0].callId !in want) || CallBearing(ms[0])
  }

  predicate WantedTools(want: set<Id>, ms: seq<Message>) {
    forall i :: 0 <= i < |ms| ==> IsTool(ms[i]) && ms[i].callId in want
  }

  predicate Fillers(ms: seq<Message>) {
    forall i :: 0 <= i < |ms| ==> ms[i].Message? && !IsTool(ms[i]) && !CallBearing(ms[i])
  }

  /** The content of a group: wanted results and fillers, and where it ends. */
  lemma {:induction false} ZoneContent(want: set<Id>, ms: seq<Message>, started: bool)
    ensures var n := Zone(want, ms, started);
            && WantedTools(want, Tools(ms[..n])) && Fillers(Others(ms[..n]))
            && (started || n > 0 ==> Stops(want, ms[n..]))
            && (!started && n > 0 ==> Tools(ms[..n]) != [])
            && (!started && n == 0 ==> ms == [] || !(IsTool(ms[0]) && ms[0].callId in want))
    decreases |ms|
  {
    var n := Zone(want, ms, started);
    if n == 0 {
      assert ms[..0] == [] && ms[0..] == ms;
    } else {
      ZoneContent(want, ms[1..], started || IsTool(ms[0]));
      assert ms[..n] == [ms[0]] + ms[1..][..n - 1] && ms[n..] == ms[1..][n - 1..];
    }
  }

  /** A group that is already in order is read back as the same group. */
  lemma {:induction false} ZoneOfPacked(want: set<Id>, t: seq<Message>, o: seq<Message>, rest: seq<Message>, started: bool)
    requires WantedTools(want, t) && Fillers(o) && Stops(want, rest)
    requires started || t != [] || (o == [] && (rest == [] || !(IsTool(rest[0]) && rest[0].callId in want)))
    ensures Zone(want, t + (o + rest), started) == |t| + |o|
    decreases |t| + |o|
  {
    if t != [] {
      assert (t + (o + rest))[1..] == t[1..] + (o + rest);
      ZoneOfPacked(want, t[1..], o, rest, true);
    } else if o != [] {
      assert t + (o + rest) == o + rest && (o + rest)[1..] == t + (o[1..] + rest);
      ZoneOfPacked(want, t, o[1..], rest, started);
    } else {
      assert t + (o + rest) == rest;
    }
  }

  /** The group of a head that has been repacked is the same group, results first. */
  lemma GroupIsPacked(want: set<Id>, tail: seq<Message>)
    ensures var n := Zone(want, tail, false);
            var t, o := Tools(tail[..n]), Others(tail[..n]);
            && Zone(want, t + (o + Repack(tail[n..])), false) == |t| + |o|
  {
    var n := Zone(want, tail, false);
    ZoneContent(want, tail, false);
    if tail[n..] != [] {
      FirstStays(tail[n..]);
    }
    if n == 0 {
      assert tail[..0] == [] && tail[0..] == tail;
      HeadStopsToo(want, tail);
    } else {
      ZoneOfPacked(want, Tools(tail[..n]), Others(tail[..n]), Repack(tail[n..]), false);
    }
  }

  /** A group that is empty because no result comes first stays empty. */
  lemma HeadStopsToo(want: set<Id>, tail: seq<Message>)
    requires Zone(want, tail, false) == 0
    ensures Zone(want, [] + ([] + Repack(tail)), false) == 0
  {
    assert [] + ([] + Repack(tail)) == Repack(tail);
    if tail != [] {
      FirstStays(tail);
    }
  }

  lemma {:induction false} PackedBehind(xs: seq<Message>, rest: seq<Message>)
    requires Packed(rest) && forall i :: 0 <= i < |xs| ==> !CallBearing(xs[i])
    ensures Packed(xs + rest)
  {
    if xs == [] {
      assert xs + rest == rest;
    } else {
      assert (xs + rest)[1..] == xs[1..] + rest;
      PackedBehind(xs[1..], rest);
    }
  }

  lemma PackedHead(head: Message, t: seq<Message>, o: seq<Message>, rest: seq<Message>)
    requires OnlyTools(t) && NoTools(o) && Packed(t + (o + rest))
    requires Zone(Wanted(head), t + (o + rest), false) == |t| + |o|
    ensures Packed([head] + (t + (o + rest)))
  {
    var body := t + (o + rest);
    BodyZone(head, t, o, rest);
    SplitBack(t, o);
  }

  lemma BodyZone(head: Message, t: seq<Message>, o: seq<Message>, rest: seq<Message>)
    ensures var body := t + (o + rest);
            ([head] + body)[0] == head && ([head] + body)[1..] == body && body[..|t| + |o|] == t + o
  {
  }

  lemma SplitBack(t: seq<Message>, o: seq<Message>)
    requires OnlyTools(t) && NoTools(o)
    ensures Tools(t + o) == t && Others(t + o) == o
  {
    ToolsFirst(t, o);
    OthersFirst(o, []);
    assert o + [] == o && t + [] == t;
  }

  /** After repacking, the results of every group directly follow their head. */
  lemma {:induction false} RepackPacks(ms: seq<Message>)
    ensures Packed(Repack(ms))
    decreases |ms|
  {
    if ms != [] {
      var tail := ms[1..];
      if !CallBearing(ms[0]) {
        RepackPacks(tail);
        PackedBehind([ms[0]], Repack(tail));
      } else {
        var n := Zone(Wanted(ms[0]), tail, false);
        var t, o, rest := Tools(tail[..n]), Others(tail[..n]), Repack(tail[n..]);
        RepackPacks(tail[n..]);
        ZoneContent(Wanted(ms[0]), tail, false);
        SplitPure(tail[..n]);
        PackedBehind(o, rest);
        PackedBehind(t, o + rest);
        GroupIsPacked(Wanted(ms[0]), tail);
        PackedHead(ms[0], t, o, rest);
      }
    }
  }

  /** A list is left alone exactly when it is packed; in particular the second repacking
      changes nothing. */
  lemma RepackIsIdempotent(ms: seq<Message>)
    ensures Repack(ms) == ms <==> Packed(ms)
    ensures Repack(Repack(ms)) == Repack(ms)
  {
    RepackPacks(ms);
    PackedStays(Repack(ms));
    if Packed(ms) {
      PackedStays(ms);
    }
  }

  /** The head's group has members exactly when one of its results directly follows it. */
  lemma AttachedFirst(want: set<Id>, tail: seq<Message>)
    ensures Zone(want, tail, false) > 0 <==> tail != [] && IsTool(tail[0]) && tail[0].callId in want
  {
  }

  /** If none does, nothing is moved up to the head, however many of its results come later. */
  lemma DetachedResultStays(ms: seq<Message>)
    requires ms != [] && CallBearing(ms[0])
    requires |ms| == 1 || !IsTool(ms[1]) || ms[1].callId !in Wanted(ms[0])
    ensures Repack(ms) == [ms[0]] + Repack(ms[1..])
  {
    AttachedFirst(Wanted(ms[0]), ms[1..]);
    NoZone(ms[1..]);
  }

  lemma NoZone(tail: seq<Message>)
    ensures Tools(tail[..0]) + (Others(tail[..0]) + Repack(tail[0..])) == Repack(tail)
  {
    assert tail[..0] == [] && tail[0..] == tail;
  }

  /** A message outside of groups, or a head with its results and the fillers among them. */
  datatype Item = Loose(message: Message) | Group(head: Message, results: seq<Message>, between: seq<Message>)

  function Items(ms: seq<Message>): seq<Item>
    decreases |ms|
  {
    if ms == [] then []
    else if !CallBearing(ms[0]) then [Loose(ms[0])] + Items(ms[1..])
    else
      var n := Zone(Wanted(ms[0]), ms[1..], false);
      [Group(ms[0], Tools(ms[1..][..n]), Others(ms[1..][..n]))] + Items(ms[1..][n..])
  }

  /** Repacking keeps every group with all its results and fillers, and the groups in order. */
  lemma {:induction false} RepackKeepsGroups(ms: seq<Message>)
    ensures Items(Repack(ms)) == Items(ms)
    decreases |ms|
  {
    if ms != [] {
      var tail := ms[1..];
      if !CallBearing(ms[0]) {
        RepackKeepsGroups(tail);
        assert ([ms[0]] + Repack(tail))[1..] == Repack(tail);
      } else {
        var n := Zone(Wanted(ms[0]), tail, false);
        RepackKeepsGroups(tail[n..]);
        SplitPure(tail[..n]);
        GroupIsPacked(Wanted(ms[0]), tail);
        ItemsOfGroup(ms[0], Tools(tail[..n]), Others(tail[..n]), Repack(tail[n..]));
      }
    }
  }

  lemma ItemsOfGroup(head: Message, t: seq<Message>, o: seq<Message>, rest: seq<Message>)
    requires CallBearing(head) && OnlyTools(t) && NoTools(o)
    requires Zone(Wanted(head), t + (o + rest), false) == |t| + |o|
    ensures Items([head] + (t + (o + rest))) == [Group(head, t, o)] + Items(rest)
  {
    var body := t + (o + rest);
    BodyZone(head, t, o, rest);
    SplitBack(t, o);
    assert body[|t| + |o|..] == rest;
  }

  // ------------------------------------------------------------ the repacking loops

  /** Some result comes behind a message that is no result. */
  predicate Moves(zone: seq<Message>) {
    zone != [] && (Moves(zone[..|zone| - 1]) || (IsTool(zone[|zone| - 1]) && Others(zone[..|zone| - 1]) != []))
  }

  lemma {:induction false} UnmovedInPlace(zone: seq<Message>)
    ensures Tools(zone) + Others(zone) == zone <==> !Moves(zone)
    ensures |Tools(zone) + Others(zone)| == |zone|
  {
    if zone != [] {
      var front, m := zone[..|zone| - 1], zone[|zone| - 1];
      UnmovedInPlace(front);
      assert zone == front + [m];
      SplitPure(front);
      if IsTool(m) {
        AddTool(front, m);
        ToolBehind(Tools(front), Others(front), m, front);
      } else {
        AddOther(front, m);
        Associates(Tools(front), Others(front), [m]);
        LastAside(Tools(front) + Others(front), front, m);
      }
    }
  }

  lemma LastAside<T>(a: seq<T>, b: seq<T>, m: T)
    ensures a + [m] == b + [m] <==> a == b
  {
    if a + [m] == b + [m] {
      assert (a + [m])[..|a|] == a && (b + [m])[..|b|] == b;
    }
  }

  lemma ToolBehind(t: seq<Message>, o: seq<Message>, m: Message, front: seq<Message>)
    requires NoTools(o) && IsTool(m) && |t + o| == |front|
    ensures (t + [m]) + o == front + [m] <==> o == [] && t + o == front
  {
    if o == [] {
      assert (t + [m]) + o == t + [m] && t + o == t;
      LastAside(t, front, m);
    } else {
      assert ((t + [m]) + o)[|front|] == o[|o| - 1];
    }
  }

  /** What the next message adds to the results and to the rest. */
  lemma GatherStep(ms: seq<Message>, start: nat, i: nat)
    requires start <= i < |ms|
    ensures var z, z', m := ms[start..i], ms[start..i + 1], ms[i];
            && Tools(z') == (if IsTool(m) then Tools(z) + [m] else Tools(z))
            && Others(z') == (if IsTool(m) then Others(z) else Others(z) + [m])
            && Moves(z') == (Moves(z) || (IsTool(m) && Others(z) != []))
  {
    var z, z', m := ms[start..i], ms[start..i + 1], ms[i];
    assert z' == z + [m] && z'[..|z|] == z;
    if IsTool(m) {
      AddTool(z, m);
    } else {
      AddOther(z, m);
    }
  }

  /** The inner loop has come to position `i`. */
  predicate Gathered(want: set<Id>, ms: seq<Message>, start: nat, i: nat, results: seq<Message>, between: seq<Message>, moved: bool) {
    && start <= i <= |ms|
    && results == Tools(ms[start..i]) && between == Others(ms[start..i]) && moved == Moves(ms[start..i])
    && start + Zone(want, ms[start..], false) == i + Zone(want, ms[i..], results != [])
  }

  /** The message at `i` does not belong to the group. */
  predicate Ends(want: set<Id>, m: Message, started: bool) {
    !m.Message? || (if IsTool(m) then m.callId !in want else !started || CallBearing(m))
  }

  lemma GatherResult(want: set<Id>, ms: seq<Message>, start: nat, i: nat, results: seq<Message>, between: seq<Message>, moved: bool)
    requires Gathered(want, ms, start, i, results, between, moved)
    requires i < |ms| && IsTool(ms[i]) && !Ends(want, ms[i], results != [])
    ensures Gathered(want, ms, start, i + 1, results + [ms[i]], between, moved || between != [])
  {
    ZoneAt(want, ms, i, results != []);
    GatherStep(ms, start, i);
  }

  lemma GatherFiller(want: set<Id>, ms: seq<Message>, start: nat, i: nat, results: seq<Message>, between: seq<Message>, moved: bool)
    requires Gathered(want, ms, start, i, results, between, moved)
    requires i < |ms| && !IsTool(ms[i]) && !Ends(want, ms[i], results != [])
    ensures Gathered(want, ms, start, i + 1, results, between + [ms[i]], moved)
  {
    ZoneAt(want, ms, i, results != []);
    GatherStep(ms, start, i);
  }

  /** The inner loop: results and fillers behind a head, from position `start`. */
  method Gather(ms: seq<Message>, start: nat, want: set<Id>) returns (next: nat, results: seq<Message>, between: seq<Message>, moved: bool)
    requires start <= |ms|
    ensures next == start + Zone(want, ms[start..], false) <= |ms|
    ensures results == Tools(ms[start..next]) && between == Others(ms[start..next]) && moved == Moves(ms[start..next])
  {
    next, results, between, moved := start, [], [], false;
    assert ms[start..start] == [];
    while next < |ms|
      invariant Gathered(want, ms, start, next, results, between, moved)
    {
      var m := ms[next];
      ZoneAt(want, ms, next, results != []);
      if !m.Message? {
        break;
      }
      if IsTool(m) {
        if m.callId !in want {
          break;
        }
        GatherResult(want, ms, start, next, results, between, moved);
        results, moved := results + [m], moved || between != [];
      } else {
        if results == [] || CallBearing(m) {
          break;
        }
        GatherFiller(want, ms, start, next, results, between, moved);
        between := between + [m];
      }
      next := next + 1;
    }
  }

  lemma ZoneAt(want: set<Id>, ms: seq<Message>, i: nat, started: bool)
    requires i < |ms|
    ensures Zone(want, ms[i..], started) == if Ends(want, ms[i], started) then 0 else 1 + Zone(want, ms[i + 1..], true)
  {
    assert ms[i..][1..] == ms[i + 1..] && ms[i..][0] == ms[i];
  }

  lemma AddTool(ms: seq<Message>, m: Message)
    requires IsTool(m)
    ensures Tools(ms + [m]) == Tools(ms) + [m] && Others(ms + [m]) == Others(ms)
  {
    SplitAppend(ms, [m]);
    ToolsFirst([m], []);
    assert [m] + [] == [m];
  }

  lemma AddOther(ms: seq<Message>, m: Message)
    requires !IsTool(m)
    ensures Tools(ms + [m]) == Tools(ms) && Others(ms + [m]) == Others(ms) + [m]
  {
    SplitAppend(ms, [m]);
    OthersFirst([m], []);
    assert [m] + [] == [m];
  }

  /** One round of the outer loop takes `part` from position `i` on. */
  predicate Takes(ms: seq<Message>, i: nat, part: seq<Message>, next: nat) {
    i < next <= |ms| && Repack(ms[i..]) == part + Repack(ms[next..])
  }

  lemma TakesOne(ms: seq<Message>, i: nat)
    requires i < |ms| && !CallBearing(ms[i])
    ensures Takes(ms, i, [ms[i]], i + 1)
  {
    assert ms[i..][1..] == ms[i + 1..];
  }

  lemma TakesGroup(ms: seq<Message>, i: nat, next: nat)
    requires i < |ms| && CallBearing(ms[i]) && next == i + 1 + Zone(Wanted(ms[i]), ms[i + 1..], false) <= |ms|
    ensures Takes(ms, i, [ms[i]] + (Tools(ms[i + 1..next]) + Others(ms[i + 1..next])), next)
  {
    var here, n := ms[i..], next - (i + 1);
    assert here[1..] == ms[i + 1..];
    assert here[1..][..n] == ms[i + 1..next] && here[1..][n..] == ms[next..];
    Associates4([ms[i]], Tools(ms[i + 1..next]), Others(ms[i + 1..next]), Repack(ms[next..]));
  }

  /** The outer loop has come to position `i`. */
  predicate Repacked(ms: seq<Message>, i: nat, r: seq<Message>, changed: bool) {
    |r| == i <= |ms| && Repack(ms) == r + Repack(ms[i..]) && changed == (r != ms[..i])
  }

  lemma RoundTakes(ms: seq<Message>, i: nat, r: seq<Message>, changed: bool, part: seq<Message>, next: nat, moved: bool)
    requires Repacked(ms, i, r, changed) && Takes(ms, i, part, next)
    requires |part| == next - i && moved == (part != ms[i..next])
    ensures Repacked(ms, next, r + part, changed || moved)
  {
    Associates(r, part, Repack(ms[next..]));
    TakenInPlace(ms, r, part, next);
  }

  /** Parts put one after the other are in place exactly when each of them is. */
  lemma TakenInPlace(ms: seq<Message>, r: seq<Message>, part: seq<Message>, next: nat)
    requires |r| + |part| == next <= |ms|
    ensures r + part == ms[..next] <==> r == ms[..|r|] && part == ms[|r|..next]
  {
    assert ms[..next] == ms[..|r|] + ms[|r|..next];
    assert (r + part)[..|r|] == r && (r + part)[|r|..] == part;
  }

  lemma GroupInPlace(ms: seq<Message>, i: nat, next: nat)
    requires i < next <= |ms|
    ensures var zone := ms[i + 1..next];
            var part := [ms[i]] + (Tools(zone) + Others(zone));
            |part| == next - i && (part != ms[i..next]) == Moves(zone)
  {
    var zone := ms[i + 1..next];
    UnmovedInPlace(zone);
    var body := Tools(zone) + Others(zone);
    assert ms[i..next] == [ms[i]] + zone;
    assert ([ms[i]] + body)[1..] == body && ([ms[i]] + zone)[1..] == zone;
  }

  lemma RoundOne(ms: seq<Message>, i: nat, r: seq<Message>, changed: bool)
    requires Repacked(ms, i, r, changed) && i < |ms| && !CallBearing(ms[i])
    ensures Repacked(ms, i + 1, r + [ms[i]], changed)
  {
    TakesOne(ms, i);
    RoundTakes(ms, i, r, changed, [ms[i]], i + 1, false);
  }

  lemma RoundGroup(ms: seq<Message>, i: nat, r: seq<Message>, changed: bool, next: nat)
    requires Repacked(ms, i, r, changed) && i < |ms| && CallBearing(ms[i])
    requires next == i + 1 + Zone(Wanted(ms[i]), ms[i + 1..], false) <= |ms|
    ensures var zone := ms[i + 1..next];
            Repacked(ms, next, r + ([ms[i]] + (Tools(zone) + Others(zone))), changed || Moves(zone))
  {
    var zone := ms[i + 1..next];
    TakesGroup(ms, i, next);
    GroupInPlace(ms, i, next);
    RoundTakes(ms, i, r, changed, [ms[i]] + (Tools(zone) + Others(zone)), next, Moves(zone));
  }

  lemma RoundsEnd(ms: seq<Message>, r: seq<Message>, changed: bool)
    ensures Repacked(ms, 0, [], false)
    ensures Repacked(ms, |ms|, r, changed) ==> r == Repack(ms) && changed == (r != ms)
  {
    assert ms[0..] == ms && ms[..|ms|] == ms && ms[|ms|..] == [];
  }

  method RepackToolResultBlocks(ms: seq<Message>) returns (r: seq<Message>, changed: bool)
    ensures r == Repack(ms) && changed == (r != ms)
  {
    r, changed := [], false;
    var i := 0;
    RoundsEnd(ms, [], false);
    while i < |ms|
      invariant Repacked(ms, i, r, changed)
    {
      if CallBearing(ms[i]) {
        var next, results, between, moved := Gather(ms, i + 1, Wanted(ms[i]));
        RoundGroup(ms, i, r, changed, next);
        r, changed, i := r + ([ms[i]] + (results + between)), changed || moved, next;
      } else {
        RoundOne(ms, i, r, changed);
        r, i := r + [ms[i]], i + 1;
      }
    }
    RoundsEnd(ms, r, changed);
  }
}
