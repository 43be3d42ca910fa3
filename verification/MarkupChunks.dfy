/** The per-frame stream bridge of internal/upstream/markup_chunks.go. */
module MarkupChunks {
  import opened Common
  import opened MarkupText
  import opened MarkupBlock
  import opened MarkupScan
  import opened MarkupRepair

  // ------------------------------------------------------------ frames

  /** `content` is "" when it is missing; `structured` counts the upstream's own tool calls. */
  datatype Delta = Delta(content: Text, structured: nat)

  /** `finish` is "" when it is missing or null. */
  datatype Choice = NotObject | Choice(delta: Option<Delta>, finish: Text)

  datatype Payload = Done | NotJson | ErrorFrame | Chunk(choices: seq<Choice>)

  /** An output frame: the payload as it came, the payload with its content and finish
      rewritten, one converted call, a finish moved behind its calls, flushed text, or a
      finish that no payload carried. */
  datatype Frame =
    | Passed(payload: Payload)
    | Edited(content: Text, finish: Text)
    | CallFrame(index: nat, call: Call)
    | FinishFrame(reason: Text)
    | Tail(text: Text)
    | SynthesizedFinish

  const STOP: Text := "stop"
  const TOOL_CALLS: Text := "tool_calls"

  predicate Structured(c: Choice) {
    c.Choice? && c.delta.Some? && c.delta.value.structured > 0
  }

  function ChoiceText(c: Choice): Text {
    if c.Choice? && c.delta.Some? then c.delta.value.content else ""
  }

  function ChoicesText(cs: seq<Choice>): Text {
    if cs == [] then "" else ChoiceText(cs[0]) + ChoicesText(cs[1..])
  }

  /** The content that a payload carries. */
  function InputText(p: Payload): Text {
    if p.Chunk? then ChoicesText(p.choices) else ""
  }

  // ------------------------------------------------------------ specification

  /** `live` until the first multi-choice or structured frame. */
  datatype Core = Core(live: bool, st: State, next: nat, finished: bool)

  /** The frames of a step, and the pieces of the content they stand for. */
  datatype Stepped = Stepped(core: Core, frames: seq<Frame>, pieces: seq<Piece>)

  const FRESH := Core(true, START, 0, false)

  /** The repair goes over the payload instead of passing it on. */
  predicate Repairs(c: Core, p: Payload) {
    c.live && p.Chunk? && |p.choices| == 1 && p.choices[0].Choice? && !Structured(p.choices[0])
  }

  function FlushStep(x: Syntax, c: Core): Stepped {
    if !c.live then Stepped(c, [], [])
    else
      var tail := Pending(x, c.st);
      Stepped(
        c.(st := START, finished := c.finished || c.next > 0),
        (if tail == "" then [] else [Tail(tail)]) + (if c.next > 0 && !c.finished then [SynthesizedFinish] else []),
        [Plain(tail)])
  }

  /** Passing a payload on. */
  function Pass(c: Core, p: Payload): Stepped {
    Stepped(c, [Passed(p)], [Plain(InputText(p))])
  }

  /** Two steps one after the other. */
  function After(r: Stepped, m: Stepped): Stepped {
    Stepped(m.core, r.frames + m.frames, r.pieces + m.pieces)
  }

  function CallFrames(base: nat, calls: seq<Call>): seq<Frame>
    decreases |calls|
  {
    if calls == [] then [] else [CallFrame(base, calls[0])] + CallFrames(base + 1, calls[1..])
  }

  /** A "stop" turns into "tool_calls" once some call has been converted. */
  function Rewritten(finish: Text, converted: bool): Text {
    if finish == STOP && converted then TOOL_CALLS else finish
  }

  /** The scan of the last content gives back what is still undecided. */
  function Ended(x: Syntax, r: Scanned, ends: bool): Scanned {
    if ends then Scanned(r.pieces + [Plain(Pending(x, r.next))], START) else r
  }

  function Repaired(x: Syntax, allowed: set<Text>, c: Core, choice: Choice): Scanned
    requires choice.Choice?
  {
    Ended(x, Scan(x, allowed, c.st.inBlock, c.st.hold + ChoiceText(choice)), choice.finish != "")
  }

  function RepairFrames(base: nat, text: Text, calls: seq<Call>, finish: Text): seq<Frame> {
    [Edited(text, if calls == [] then finish else "")] + CallFrames(base, calls)
      + (if finish != "" && calls != [] then [FinishFrame(finish)] else [])
  }

  function RepairStep(x: Syntax, allowed: set<Text>, c: Core, choice: Choice): Stepped
    requires choice.Choice?
  {
    var r := Repaired(x, allowed, c, choice);
    var calls := CallsIn(r.pieces);
    Stepped(
      Core(true, r.next, c.next + |calls|, c.finished || choice.finish != ""),
      RepairFrames(c.next, if choice.delta.Some? then Emitted(x, r.pieces) else "", calls,
                   Rewritten(choice.finish, c.next + |calls| > 0)),
      r.pieces)
  }

  function Step(x: Syntax, allowed: set<Text>, c: Core, p: Payload): Stepped {
    if p.Done? then FlushStep(x, c)
    else if p.ErrorFrame? then After(FlushStep(x, c), Pass(FlushStep(x, c).core, p))
    else if p.Chunk? && (|p.choices| > 1 || exists i :: 0 <= i < |p.choices| && Structured(p.choices[i])) then
      After(FlushStep(x, c), Pass(FlushStep(x, c).core.(live := false), p))
    else if Repairs(c, p) then RepairStep(x, allowed, c, p.choices[0])
    else Pass(c, p)
  }

  /** A stream, from a fresh normalizer. */
  function Run(x: Syntax, allowed: set<Text>, ps: seq<Payload>): Stepped {
    if ps == [] then Stepped(FRESH, [], [])
    else
      var r := Run(x, allowed, ps[..|ps| - 1]);
      After(r, Step(x, allowed, r.core, ps[|ps| - 1]))
  }

  function Input(ps: seq<Payload>): Text {
    if ps == [] then "" else Input(ps[..|ps| - 1]) + InputText(ps[|ps| - 1])
  }

  // ------------------------------------------------------------ reading the output

  function FrameText(f: Frame): Text {
    match f
    case Passed(p) => InputText(p)
    case Edited(t, _) => t
    case Tail(t) => t
    case _ => ""
  }

  function Content(fs: seq<Frame>): Text {
    if fs == [] then "" else FrameText(fs[0]) + Content(fs[1..])
  }

  /** The converted calls in order, with the index each one carries. */
  function Indexed(fs: seq<Frame>): seq<(nat, Call)> {
    if fs == [] then [] else (if fs[0].CallFrame? then [(fs[0].index, fs[0].call)] else []) + Indexed(fs[1..])
  }

  function Numbered(base: nat, calls: seq<Call>): seq<(nat, Call)>
    decreases |calls|
  {
    if calls == [] then [] else [(base, calls[0])] + Numbered(base + 1, calls[1..])
  }

  /** The finish reasons that the frames carry, apart from those of payloads passed on. */
  function Finishes(fs: seq<Frame>): seq<Text> {
    if fs == [] then [] else FinishOf(fs[0]) + Finishes(fs[1..])
  }

  function FinishOf(f: Frame): seq<Text> {
    if f.Edited? && f.finish != "" then [f.finish] else if f.FinishFrame? then [f.reason] else []
  }

  function Synthesized(fs: seq<Frame>): nat {
    if fs == [] then 0 else (if fs[0].SynthesizedFinish? then 1 else 0) + Synthesized(fs[1..])
  }

  /** Everything read from the frames at once. */
  datatype View = View(text: Text, calls: seq<(nat, Call)>, finishes: seq<Text>, synthesized: nat)

  function Read(fs: seq<Frame>): View {
    View(Content(fs), Indexed(fs), Finishes(fs), Synthesized(fs))
  }

  lemma {:induction false} ContentAppend(a: seq<Frame>, b: seq<Frame>)
    ensures Content(a + b) == Content(a) + Content(b)
  {
    if a == [] {
      assert a + b == b;
    } else {
      assert (a + b)[1..] == a[1..] + b;
      ContentAppend(a[1..], b);
      Associates(FrameText(a[0]), Content(a[1..]), Content(b));
    }
  }

  lemma {:induction false} IndexedAppend(a: seq<Frame>, b: seq<Frame>)
    ensures Indexed(a + b) == Indexed(a) + Indexed(b)
  {
    if a == [] {
      assert a + b == b;
    } else {
      assert (a + b)[1..] == a[1..] + b;
      IndexedAppend(a[1..], b);
      Associates(if a[0].CallFrame? then [(a[0].index, a[0].call)] else [], Indexed(a[1..]), Indexed(b));
    }
  }

  lemma {:induction false} FinishesAppend(a: seq<Frame>, b: seq<Frame>)
    ensures Finishes(a + b) == Finishes(a) + Finishes(b)
  {
    if a == [] {
      assert a + b == b;
    } else {
      assert (a + b)[1..] == a[1..] + b;
      FinishesAppend(a[1..], b);
      Associates(FinishOf(a[0]), Finishes(a[1..]), Finishes(b));
    }
  }

  lemma {:induction false} SynthesizedAppend(a: seq<Frame>, b: seq<Frame>)
    ensures Synthesized(a + b) == Synthesized(a) + Synthesized(b)
  {
    if a == [] {
      assert a + b == b;
    } else {
      assert (a + b)[1..] == a[1..] + b;
      SynthesizedAppend(a[1..], b);
    }
  }

  lemma {:induction false} NumberedAppend(base: nat, a: seq<Call>, b: seq<Call>)
    ensures Numbered(base, a + b) == Numbered(base, a) + Numbered(base + |a|, b)
    decreases |a|
  {
    if a == [] {
      assert a + b == b;
    } else {
      assert (a + b)[1..] == a[1..] + b;
      NumberedAppend(base + 1, a[1..], b);
    }
  }

  /** The i-th call carries index i. */
  lemma {:induction false} NumberedAt(base: nat, calls: seq<Call>, i: nat)
    requires i < |calls|
    ensures |Numbered(base, calls)| == |calls| && Numbered(base, calls)[i] == (base + i, calls[i])
    decreases |calls|
  {
    if |calls| > 1 {
      NumberedAt(base + 1, calls[1..], if i == 0 then 0 else i - 1);
    }
  }

  lemma {:induction false} CallFramesRead(base: nat, calls: seq<Call>)
    ensures Read(CallFrames(base, calls)) == View("", Numbered(base, calls), [], 0)
    decreases |calls|
  {
    if calls != [] {
      CallFramesRead(base + 1, calls[1..]);
      assert CallFrames(base, calls)[1..] == CallFrames(base + 1, calls[1..]);
    }
  }

  // ------------------------------------------------------------ one step

  ghost predicate CoreOK(x: Syntax, c: Core) {
    Bounded(x, c.st) && (!c.live ==> c.st == START)
  }

  /** The frames of a step write the text of its pieces, all of it unless some is lost. */
  predicate Writes(x: Syntax, m: Stepped, lost: Text) {
    && |Content(m.frames)| + |lost| == |Emitted(x, m.pieces)|
    && (lost == "" ==> Content(m.frames) == Emitted(x, m.pieces))
  }

  /** The frames of a step number its calls from `next` on. */
  predicate Numbers(c: Core, m: Stepped) {
    && Indexed(m.frames) == Numbered(c.next, CallsIn(m.pieces))
    && m.core.next == c.next + |CallsIn(m.pieces)|
  }

  predicate Shows(x: Syntax, c: Core, m: Stepped, lost: Text) {
    Writes(x, m, lost) && Numbers(c, m)
  }

  /** The pieces of a step and the new buffer make up the old buffer and the new text. */
  predicate Conserves(x: Syntax, c: Core, m: Stepped, text: Text) {
    Source(x, m.pieces) + Pending(x, m.core.st) == Pending(x, c.st) + text
  }

  lemma PlainPiece(x: Syntax, t: Text)
    ensures Source(x, [Plain(t)]) == Emitted(x, [Plain(t)]) == t && CallsIn([Plain(t)]) == []
  {
    var none: seq<Piece> := [];
    assert [Plain(t)][1..] == none && Source(x, none) == Emitted(x, none) == "" && CallsIn(none) == [];
  }

  lemma OneFrame(f: Frame)
    ensures Content([f]) == FrameText(f) && Indexed([f]) == (if f.CallFrame? then [(f.index, f.call)] else [])
    ensures Synthesized([f]) == if f.SynthesizedFinish? then 1 else 0
    ensures Finishes([f]) == FinishOf(f)
  {
    var none: seq<Frame> := [];
    assert [f][1..] == none && Content(none) == "" && Indexed(none) == [] && Finishes(none) == [];
    assert Content([f]) == FrameText(f);
  }

  /** What a flush writes. */
  lemma FlushRead(text: Text, synthesize: bool)
    ensures var fs := (if text == "" then [] else [Tail(text)]) + if synthesize then [SynthesizedFinish] else [];
            Read(fs) == View(text, [], [], if synthesize then 1 else 0)
  {
    OneFrame(SynthesizedFinish);
    var b: seq<Frame> := if synthesize then [SynthesizedFinish] else [];
    assert [] + b == b;
    ReadFirst(Tail(text), b);
  }

  lemma FlushShows(x: Syntax, c: Core)
    ensures Shows(x, c, FlushStep(x, c), "") && Conserves(x, c, FlushStep(x, c), "")
    ensures Synthesized(FlushStep(x, c).frames) == if c.live && c.next > 0 && !c.finished then 1 else 0
  {
    if c.live {
      PlainPiece(x, Pending(x, c.st));
      FlushRead(Pending(x, c.st), c.next > 0 && !c.finished);
    }
  }

  lemma ReadAppend(a: seq<Frame>, b: seq<Frame>)
    ensures Content(a + b) == Content(a) + Content(b)
    ensures Indexed(a + b) == Indexed(a) + Indexed(b)
    ensures Finishes(a + b) == Finishes(a) + Finishes(b)
    ensures Synthesized(a + b) == Synthesized(a) + Synthesized(b)
  {
    ContentAppend(a, b);
    IndexedAppend(a, b);
    FinishesAppend(a, b);
    SynthesizedAppend(a, b);
  }

  lemma WritesAfter(x: Syntax, r: Stepped, m: Stepped, a: Text, b: Text)
    requires Writes(x, r, a) && Writes(x, m, b)
    ensures Writes(x, After(r, m), a + b)
  {
    ContentAppend(r.frames, m.frames);
    EmittedAppend(x, r.pieces, m.pieces);
  }

  lemma NumbersAfter(c: Core, r: Stepped, m: Stepped)
    requires Numbers(c, r) && Numbers(r.core, m)
    ensures Numbers(c, After(r, m))
  {
    IndexedAppend(r.frames, m.frames);
    CallsAppend(r.pieces, m.pieces);
    NumberedAppend(c.next, CallsIn(r.pieces), CallsIn(m.pieces));
  }

  /** Steps one after the other. */
  lemma ShowsAfter(x: Syntax, c: Core, r: Stepped, m: Stepped, a: Text, b: Text)
    requires Shows(x, c, r, a) && Shows(x, r.core, m, b)
    ensures Shows(x, c, After(r, m), a + b)
  {
    WritesAfter(x, r, m, a, b);
    NumbersAfter(c, r, m);
  }

  lemma ConservesAfter(x: Syntax, c: Core, r: Stepped, m: Stepped, t: Text, u: Text)
    requires Conserves(x, c, r, t) && Conserves(x, r.core, m, u)
    ensures Conserves(x, c, After(r, m), t + u)
  {
    SourceAppend(x, r.pieces, m.pieces);
    Associates(Source(x, r.pieces), Source(x, m.pieces), Pending(x, m.core.st));
    Associates(Source(x, r.pieces), Pending(x, r.core.st), u);
    Associates(Pending(x, c.st), t, u);
  }

  lemma PassShows(x: Syntax, c: Core, p: Payload)
    ensures Shows(x, c, Pass(c, p), "")
    ensures Pending(x, c.st) == "" || InputText(p) == "" ==> Conserves(x, c, Pass(c, p), InputText(p))
    ensures Finishes(Pass(c, p).frames) == [] && Synthesized(Pass(c, p).frames) == 0
  {
    PlainPiece(x, InputText(p));
    OneFrame(Passed(p));
  }

  lemma ScanStuck(x: Syntax, allowed: set<Text>, st: State)
    requires Bounded(x, st)
    ensures Scan(x, allowed, st.inBlock, st.hold) == Scanned([], st)
  {
  }

  lemma EndedIsSame(x: Syntax, r: Scanned, ends: bool)
    ensures CallsIn(Ended(x, r, ends).pieces) == CallsIn(r.pieces)
    ensures Source(x, Ended(x, r, ends).pieces) + Pending(x, Ended(x, r, ends).next) == Source(x, r.pieces) + Pending(x, r.next)
  {
    if ends {
      var last := [Plain(Pending(x, r.next))];
      PlainPiece(x, Pending(x, r.next));
      CallsAppend(r.pieces, last);
      SourceAppend(x, r.pieces, last);
    }
  }

  /** A frame in front of others. */
  lemma ReadFirst(f: Frame, fs: seq<Frame>)
    ensures Content([f] + fs) == FrameText(f) + Content(fs) && Finishes([f] + fs) == FinishOf(f) + Finishes(fs)
    ensures Indexed([f] + fs) == (if f.CallFrame? then [(f.index, f.call)] else []) + Indexed(fs)
    ensures Synthesized([f] + fs) == Synthesized(fs) + if f.SynthesizedFinish? then 1 else 0
  {
    assert ([f] + fs)[1..] == fs;
  }

  /** The calls and the finish behind the edited frame. */
  lemma BehindRead(base: nat, calls: seq<Call>, fs: seq<Frame>)
    ensures Content(CallFrames(base, calls) + fs) == Content(fs)
    ensures Indexed(CallFrames(base, calls) + fs) == Numbered(base, calls) + Indexed(fs)
    ensures Finishes(CallFrames(base, calls) + fs) == Finishes(fs)
    ensures Synthesized(CallFrames(base, calls) + fs) == Synthesized(fs)
  {
    CallFramesRead(base, calls);
    ReadAppend(CallFrames(base, calls), fs);
  }

  lemma RepairFramesRead(base: nat, text: Text, calls: seq<Call>, finish: Text)
    ensures Read(RepairFrames(base, text, calls, finish)) ==
            View(text, Numbered(base, calls), if finish != "" then [finish] else [], 0)
  {
    var a := Edited(text, if calls == [] then finish else "");
    var b := CallFrames(base, calls);
    var c: seq<Frame> := if finish != "" && calls != [] then [FinishFrame(finish)] else [];
    OneFrame(FinishFrame(finish));
    BehindRead(base, calls, c);
    ReadFirst(a, b + c);
    Associates([a], b, c);
  }

  /** The text that a repaired frame has no delta object to write to: a finish gives back
      the buffer, and without a delta it goes nowhere. */
  function LostBy(x: Syntax, c: Core, choice: Choice): Text
    requires choice.Choice?
  {
    if choice.delta.None? && choice.finish != "" then Pending(x, c.st) else ""
  }

  /** Without a delta there is no new text: the buffer stays as it is, or comes back whole. */
  lemma NoDeltaNoText(x: Syntax, allowed: set<Text>, c: Core, choice: Choice)
    requires Bounded(x, c.st) && choice.Choice? && choice.delta.None?
    ensures Emitted(x, RepairStep(x, allowed, c, choice).pieces) == LostBy(x, c, choice)
  {
    ScanStuck(x, allowed, c.st);
    assert c.st.hold + "" == c.st.hold;
    PlainPiece(x, Pending(x, c.st));
    assert [] + [Plain(Pending(x, c.st))] == [Plain(Pending(x, c.st))];
  }

  /** All the text of a repaired frame is written exactly when the frame has a delta object
      or no finish, or nothing is pending. */
  lemma RepairShows(x: Syntax, allowed: set<Text>, c: Core, choice: Choice)
    requires Bounded(x, c.st) && choice.Choice?
    ensures var m := RepairStep(x, allowed, c, choice);
            && Shows(x, c, m, LostBy(x, c, choice))
            && (Content(m.frames) == Emitted(x, m.pieces) <==>
                choice.delta.Some? || choice.finish == "" || Pending(x, c.st) == "")
  {
    var m := RepairStep(x, allowed, c, choice);
    var calls := CallsIn(m.pieces);
    RepairFramesRead(c.next, if choice.delta.Some? then Emitted(x, m.pieces) else "", calls,
                     Rewritten(choice.finish, c.next + |calls| > 0));
    if choice.delta.None? {
      NoDeltaNoText(x, allowed, c, choice);
    }
  }

  lemma RepairRead(x: Syntax, allowed: set<Text>, c: Core, choice: Choice)
    requires choice.Choice?
    ensures var m := RepairStep(x, allowed, c, choice);
            && Finishes(m.frames) == (if choice.finish == "" then [] else [Rewritten(choice.finish, m.core.next > 0)])
            && Synthesized(m.frames) == 0
  {
    var m := RepairStep(x, allowed, c, choice);
    RepairFramesRead(c.next, if choice.delta.Some? then Emitted(x, m.pieces) else "", CallsIn(m.pieces),
                     Rewritten(choice.finish, m.core.next > 0));
  }

  lemma RepairConserves(x: Syntax, allowed: set<Text>, c: Core, choice: Choice)
    requires choice.Choice?
    ensures Conserves(x, c, RepairStep(x, allowed, c, choice), ChoiceText(choice))
    ensures Bounded(x, RepairStep(x, allowed, c, choice).core.st)
  {
    var s := c.st.hold + ChoiceText(choice);
    ScanConserves(x, allowed, c.st.inBlock, s);
    ScanBounded(x, allowed, c.st.inBlock, s);
    EndedIsSame(x, Scan(x, allowed, c.st.inBlock, s), choice.finish != "");
    PendingAppend(x, c.st, ChoiceText(choice));
  }

  /** The text that a step writes nowhere. */
  function Lost(x: Syntax, c: Core, p: Payload): Text {
    if Repairs(c, p) then LostBy(x, c, p.choices[0]) else ""
  }

  lemma StepShows(x: Syntax, allowed: set<Text>, c: Core, p: Payload)
    requires CoreOK(x, c)
    ensures Shows(x, c, Step(x, allowed, c, p), Lost(x, c, p))
  {
    if Repairs(c, p) {
      RepairShows(x, allowed, c, p.choices[0]);
    } else {
      FlushShows(x, c);
      var f := FlushStep(x, c);
      PassShows(x, c, p);
      FlushPassShows(x, c, f.core, p);
      FlushPassShows(x, c, f.core.(live := false), p);
    }
  }

  lemma FlushPassShows(x: Syntax, c: Core, to: Core, p: Payload)
    requires to.next == FlushStep(x, c).core.next
    ensures Shows(x, c, After(FlushStep(x, c), Pass(to, p)), "")
  {
    FlushShows(x, c);
    PassShows(x, to, p);
    ShowsAfter(x, c, FlushStep(x, c).(core := to), Pass(to, p), "", "");
  }

  lemma SoleText(p: Payload)
    requires p.Chunk? && |p.choices| <= 1
    ensures InputText(p) == if p.choices == [] then "" else ChoiceText(p.choices[0])
  {
    if p.choices != [] {
      var none: seq<Choice> := [];
      assert p.choices[1..] == none && ChoicesText(none) == "";
    }
  }

  /** A flush followed by a payload that goes through. */
  lemma FlushedPass(x: Syntax, c: Core, to: Core, p: Payload)
    requires CoreOK(x, c) && to.st == START
    ensures Conserves(x, c, After(FlushStep(x, c), Pass(to, p)), InputText(p))
  {
    FlushShows(x, c);
    PassShows(x, to, p);
    var f := FlushStep(x, c);
    ConservesAfter(x, c, f.(core := to), Pass(to, p), "", InputText(p));
    assert "" + InputText(p) == InputText(p);
  }

  lemma PlainPass(x: Syntax, c: Core, p: Payload)
    requires CoreOK(x, c) && !Repairs(c, p)
    requires p.Chunk? ==> |p.choices| <= 1 && (p.choices != [] ==> !Structured(p.choices[0]))
    ensures Conserves(x, c, Pass(c, p), InputText(p))
  {
    PassShows(x, c, p);
    if p.Chunk? {
      SoleText(p);
    }
  }

  lemma StepConserves(x: Syntax, allowed: set<Text>, c: Core, p: Payload)
    requires CoreOK(x, c)
    ensures Conserves(x, c, Step(x, allowed, c, p), InputText(p)) && CoreOK(x, Step(x, allowed, c, p).core)
  {
    if Repairs(c, p) {
      RepairConserves(x, allowed, c, p.choices[0]);
      SoleText(p);
    } else if p.Done? {
      FlushShows(x, c);
    } else if p.ErrorFrame? {
      FlushedPass(x, c, FlushStep(x, c).core, p);
    } else if p.Chunk? && (|p.choices| > 1 || exists i :: 0 <= i < |p.choices| && Structured(p.choices[i])) {
      FlushedPass(x, c, FlushStep(x, c).core.(live := false), p);
    } else {
      PlainPass(x, c, p);
    }
  }

  lemma StepJudged(x: Syntax, allowed: set<Text>, c: Core, p: Payload)
    ensures forall i :: 0 <= i < |Step(x, allowed, c, p).pieces| ==> Judged(x, allowed, Step(x, allowed, c, p).pieces[i])
  {
    if Repairs(c, p) {
      ScanJudged(x, allowed, c.st.inBlock, c.st.hold + ChoiceText(p.choices[0]));
    }
  }

  // ------------------------------------------------------------ whole streams

  /** All that a stream writes nowhere. */
  function LostIn(x: Syntax, allowed: set<Text>, ps: seq<Payload>): Text {
    if ps == [] then ""
    else
      var n := |ps| - 1;
      LostIn(x, allowed, ps[..n]) + Lost(x, Run(x, allowed, ps[..n]).core, ps[n])
  }

  /** Some text is pending when a repaired finish frame without a delta object comes. */
  predicate Drops(x: Syntax, allowed: set<Text>, ps: seq<Payload>, i: nat)
    requires i < |ps|
  {
    var c := Run(x, allowed, ps[..i]).core;
    && Repairs(c, ps[i]) && ps[i].choices[0].delta.None? && ps[i].choices[0].finish != ""
    && Pending(x, c.st) != ""
  }

  lemma {:induction false} LostIsDropped(x: Syntax, allowed: set<Text>, ps: seq<Payload>)
    ensures LostIn(x, allowed, ps) == "" <==> forall i :: 0 <= i < |ps| ==> !Drops(x, allowed, ps, i)
  {
    if ps != [] {
      var n := |ps| - 1;
      LostIsDropped(x, allowed, ps[..n]);
      forall i | 0 <= i < n ensures Drops(x, allowed, ps[..n], i) <==> Drops(x, allowed, ps, i) {
        assert ps[..n][..i] == ps[..i];
      }
      assert Lost(x, Run(x, allowed, ps[..n]).core, ps[n]) == "" <==> !Drops(x, allowed, ps, n);
    }
  }

  lemma {:induction false} StreamWrites(x: Syntax, allowed: set<Text>, ps: seq<Payload>)
    ensures Shows(x, FRESH, Run(x, allowed, ps), LostIn(x, allowed, ps))
  {
    if ps != [] {
      var n := |ps| - 1;
      StreamWrites(x, allowed, ps[..n]);
      StreamConserves(x, allowed, ps[..n]);
      var m := Run(x, allowed, ps[..n]);
      StepShows(x, allowed, m.core, ps[n]);
      ShowsAfter(x, FRESH, m, Step(x, allowed, m.core, ps[n]), LostIn(x, allowed, ps[..n]), Lost(x, m.core, ps[n]));
    }
  }

  /** What a stream's frames show: the converted calls, numbered 0, 1, 2, ... in order, and
      the text that was not converted, in order; all of it exactly when no finish frame
      without a delta object comes while text is pending, and else less than all. */
  lemma StreamShows(x: Syntax, allowed: set<Text>, ps: seq<Payload>)
    ensures var r := Run(x, allowed, ps);
            && Indexed(r.frames) == Numbered(0, CallsIn(r.pieces))
            && r.core.next == |CallsIn(r.pieces)|
            && |Content(r.frames)| + |LostIn(x, allowed, ps)| == |Emitted(x, r.pieces)|
            && (Content(r.frames) == Emitted(x, r.pieces) <==> forall i :: 0 <= i < |ps| ==> !Drops(x, allowed, ps, i))
  {
    StreamWrites(x, allowed, ps);
    LostIsDropped(x, allowed, ps);
  }

  lemma RunTwo(x: Syntax, allowed: set<Text>, p: Payload, q: Payload)
    ensures var m := Step(x, allowed, FRESH, p);
            Run(x, allowed, [p, q]) == After(m, Step(x, allowed, m.core, q)) && Input([p, q]) == InputText(p) + InputText(q)
  {
    var none: seq<Payload> := [];
    assert [p, q][..1] == [p] && [p][..0] == none && Input(none) == "";
    assert Input([p]) == InputText(p) && Run(x, allowed, [p]) == Step(x, allowed, FRESH, p);
  }

  function ContentFrame(t: Text): Payload {
    Chunk([Choice(Some(Delta(t, 0)), "")])
  }

  const BARE_FINISH := Chunk([Choice(None, STOP)])

  lemma HeldBack(x: Syntax, allowed: set<Text>, t: Text)
    requires t <= x.open && t != x.open
    ensures Step(x, allowed, FRESH, ContentFrame(t)) == Stepped(FRESH.(st := State(false, t)), [Edited("", "")], [])
    ensures Step(x, allowed, FRESH.(st := State(false, t)), BARE_FINISH) ==
              Stepped(FRESH.(finished := true), [Edited("", STOP)], [Plain(t)])
  {
    assert START.hold + t == t && t + "" == t;
    ScanStuck(x, allowed, State(false, t));
    PlainPiece(x, t);
    assert [] + [Plain(t)] == [Plain(t)];
    var none: seq<Piece> := [];
    assert Emitted(x, none) == "" && CallsIn(none) == [];
  }

  /** The failing case: a text like "<", with which the opening marker starts, is held back,
      and a finish without a delta object drops it for good. */
  lemma TextIsLost(x: Syntax, allowed: set<Text>, t: Text)
    requires t <= x.open && t != x.open
    ensures var ps := [ContentFrame(t), BARE_FINISH];
            var all := After(Run(x, allowed, ps), FlushStep(x, Run(x, allowed, ps).core));
            Input(ps) == t && all.frames == [Edited("", ""), Edited("", STOP)]
  {
    RunTwo(x, allowed, ContentFrame(t), BARE_FINISH);
    HeldBack(x, allowed, t);
    SoleText(ContentFrame(t));
    SoleText(BARE_FINISH);
  }

  /** The pieces of a stream are judged blocks and plain text, and with the buffer they are
      exactly the content that came in. */
  lemma {:induction false} StreamConserves(x: Syntax, allowed: set<Text>, ps: seq<Payload>)
    ensures var r := Run(x, allowed, ps);
            && Source(x, r.pieces) + Pending(x, r.core.st) == Input(ps)
            && CoreOK(x, r.core)
            && forall i :: 0 <= i < |r.pieces| ==> Judged(x, allowed, r.pieces[i])
  {
    if ps != [] {
      var n := |ps| - 1;
      StreamConserves(x, allowed, ps[..n]);
      var m := Run(x, allowed, ps[..n]);
      StepConserves(x, allowed, m.core, ps[n]);
      StepJudged(x, allowed, m.core, ps[n]);
      ConservesAfter(x, FRESH, m, Step(x, allowed, m.core, ps[n]), Input(ps[..n]), InputText(ps[n]));
    }
  }

  /** At the end of the stream nothing stays behind, and what is not converted is written,
      all of it exactly when no frame of the stream dropped text. */
  lemma EndOfStream(x: Syntax, allowed: set<Text>, ps: seq<Payload>)
    ensures var r := Run(x, allowed, ps);
            var all := After(r, FlushStep(x, r.core));
            && Source(x, all.pieces) == Input(ps)
            && Indexed(all.frames) == Numbered(0, CallsIn(all.pieces))
            && |Content(all.frames)| + |LostIn(x, allowed, ps)| == |Emitted(x, all.pieces)|
            && (Content(all.frames) == Emitted(x, all.pieces) <==> forall i :: 0 <= i < |ps| ==> !Drops(x, allowed, ps, i))
  {
    var r := Run(x, allowed, ps);
    StreamWrites(x, allowed, ps);
    LostIsDropped(x, allowed, ps);
    StreamConserves(x, allowed, ps);
    FlushShows(x, r.core);
    ShowsAfter(x, FRESH, r, FlushStep(x, r.core), LostIn(x, allowed, ps), "");
    ConservesAfter(x, FRESH, r, FlushStep(x, r.core), Input(ps), "");
    assert Input(ps) + "" == Input(ps);
  }

  /** A finish of the single choice comes out once, and a "stop" comes out as "tool_calls"
      exactly when some call of the stream, up to and including this frame, was converted. */
  lemma FinishComesOut(x: Syntax, allowed: set<Text>, ps: seq<Payload>)
    requires ps != [] && Repairs(Run(x, allowed, ps[..|ps| - 1]).core, ps[|ps| - 1])
    ensures var r := Run(x, allowed, ps);
            var f := ps[|ps| - 1].choices[0].finish;
            Finishes(Step(x, allowed, Run(x, allowed, ps[..|ps| - 1]).core, ps[|ps| - 1]).frames) ==
              if f == "" then [] else [if f == "stop" && Indexed(r.frames) != [] then "tool_calls" else f]
  {
    StepFinishes(x, allowed, Run(x, allowed, ps[..|ps| - 1]).core, ps[|ps| - 1]);
    CallsAreCounted(x, allowed, ps);
  }

  lemma StepFinishes(x: Syntax, allowed: set<Text>, c: Core, p: Payload)
    requires Repairs(c, p)
    ensures var m := Step(x, allowed, c, p);
            var f := p.choices[0].finish;
            Finishes(m.frames) == if f == "" then [] else [if f == STOP && m.core.next > 0 then TOOL_CALLS else f]
  {
    RepairRead(x, allowed, c, p.choices[0]);
  }

  lemma CallsAreCounted(x: Syntax, allowed: set<Text>, ps: seq<Payload>)
    ensures Run(x, allowed, ps).core.next > 0 <==> Indexed(Run(x, allowed, ps).frames) != []
  {
    StreamWrites(x, allowed, ps);
    var all := CallsIn(Run(x, allowed, ps).pieces);
    if all != [] {
      NumberedAt(0, all, 0);
    }
  }

  lemma FlushSynthesizes(x: Syntax, c: Core, to: Core, p: Payload)
    ensures Synthesized(After(FlushStep(x, c), Pass(to, p)).frames) == if c.live && c.next > 0 && !c.finished then 1 else 0
  {
    FlushShows(x, c);
    OneFrame(Passed(p));
    SynthesizedAppend(FlushStep(x, c).frames, [Passed(p)]);
  }

  lemma StepSynthesizes(x: Syntax, allowed: set<Text>, c: Core, p: Payload)
    ensures var m := Step(x, allowed, c, p);
            && Synthesized(m.frames) <= (if c.finished then 0 else 1)
            && (c.finished || Synthesized(m.frames) > 0 ==> m.core.finished)
  {
    if Repairs(c, p) {
      RepairRead(x, allowed, c, p.choices[0]);
    } else if p.Done? {
      FlushShows(x, c);
    } else if p.ErrorFrame? {
      FlushSynthesizes(x, c, FlushStep(x, c).core, p);
    } else if p.Chunk? && (|p.choices| > 1 || exists i :: 0 <= i < |p.choices| && Structured(p.choices[i])) {
      FlushSynthesizes(x, c, FlushStep(x, c).core.(live := false), p);
    } else {
      OneFrame(Passed(p));
    }
  }

  /** Errors, [DONE] and the end of the stream synthesize at most one finish between them,
      and none once a finish has come out. */
  lemma {:induction false} OneSynthesizedFinish(x: Syntax, allowed: set<Text>, ps: seq<Payload>)
    ensures var r := Run(x, allowed, ps);
            && Synthesized(r.frames) <= (if r.core.finished then 1 else 0)
            && Synthesized(r.frames + FlushStep(x, r.core).frames) <= 1
  {
    var r := Run(x, allowed, ps);
    if ps != [] {
      var n := |ps| - 1;
      OneSynthesizedFinish(x, allowed, ps[..n]);
      var m := Run(x, allowed, ps[..n]);
      StepSynthesizes(x, allowed, m.core, ps[n]);
      SynthesizedAppend(m.frames, Step(x, allowed, m.core, ps[n]).frames);
    }
    FlushShows(x, r.core);
    SynthesizedAppend(r.frames, FlushStep(x, r.core).frames);
  }

  // ------------------------------------------------------------ the normalizer

  class Normalizer {
    const x: Syntax
    const allowed: set<Text>
    var repair: Repair?
    var nextIndex: nat
    var finished: bool

    ghost predicate Valid()
      reads this, repair
    {
      repair != null ==> repair.x == x && repair.allowed == allowed && repair.Enabled()
    }

    ghost function Now(): Core
      reads this, repair
    {
      Core(repair != null, if repair != null then repair.Now() else START, nextIndex, finished)
    }

    constructor (x: Syntax, allowed: set<Text>)
      ensures Valid() && Now() == FRESH && this.x == x && this.allowed == allowed
      ensures fresh(repair)
    {
      this.x, this.allowed := x, allowed;
      repair := new Repair(x, allowed, allowed == {});
      nextIndex, finished := 0, false;
    }

    method NormalizeFrames(p: Payload) returns (frames: seq<Frame>)
      requires Valid()
      modifies this, repair
      ensures Valid() && (repair == old(repair) || repair == null)
      ensures Now() == Step(x, allowed, old(Now()), p).core && frames == Step(x, allowed, old(Now()), p).frames
    {
      if p.Done? {
        frames := FlushFrames();
        return;
      }
      if p.NotJson? {
        return [Passed(p)];
      }
      if p.ErrorFrame? {
        var f := FlushFrames();
        return f + [Passed(p)];
      }
      var choices := p.choices;
      if |choices| > 1 || exists i :: 0 <= i < |choices| && Structured(choices[i]) {
        var f := FlushFrames();
        repair := null;
        return f + [Passed(p)];
      }
      if repair == null || |choices| != 1 || choices[0].NotObject? {
        return [Passed(p)];
      }
      frames := RepairFrame(choices[0]);
    }

    /** The single choice goes through the repair. */
    method RepairFrame(choice: Choice) returns (frames: seq<Frame>)
      requires Valid() && repair != null && choice.Choice?
      modifies this`nextIndex, this`finished, repair
      ensures Valid()
      ensures Now() == RepairStep(x, allowed, old(Now()), choice).core
      ensures frames == RepairStep(x, allowed, old(Now()), choice).frames
    {
      var visible, calls := RepairText(choice);
      if choice.finish != "" {
        finished := true;
      }
      frames := Assemble(if choice.delta.Some? then visible else "", calls, choice.finish);
    }

    method RepairText(choice: Choice) returns (visible: Text, calls: seq<Call>)
      requires Valid() && repair != null && choice.Choice?
      modifies repair
      ensures Valid()
      ensures var r := Repaired(x, allowed, old(Now()), choice);
              repair.Now() == r.next && visible == Emitted(x, r.pieces) && calls == CallsIn(r.pieces)
    {
      ghost var r := repair.Effect(ChoiceText(choice));
      visible, calls := repair.Feed(ChoiceText(choice));
      if choice.finish != "" {
        var tail := repair.Flush();
        PlainPiece(x, tail);
        EmittedAppend(x, r.pieces, [Plain(tail)]);
        visible := visible + tail;
      }
      EndedIsSame(x, r, choice.finish != "");
    }

    /** The text, then the calls, then the finish. */
    method Assemble(content: Text, calls: seq<Call>, reason: Text) returns (frames: seq<Frame>)
      modifies this`nextIndex
      ensures nextIndex == old(nextIndex) + |calls|
      ensures frames == RepairFrames(old(nextIndex), content, calls, Rewritten(reason, nextIndex > 0))
    {
      if calls == [] {
        frames := [Edited(content, if nextIndex > 0 && reason == STOP then TOOL_CALLS else reason)];
        return;
      }
      var more := NumberCalls(calls);
      frames := [Edited(content, "")] + more;
      if reason != "" {
        frames := frames + [FinishFrame(if reason == STOP then TOOL_CALLS else reason)];
      }
    }

    /** One frame for each call, numbered on. */
    method NumberCalls(calls: seq<Call>) returns (frames: seq<Frame>)
      modifies this`nextIndex
      ensures frames == CallFrames(old(nextIndex), calls) && nextIndex == old(nextIndex) + |calls|
    {
      frames := [];
      for i := 0 to |calls|
        invariant nextIndex == old(nextIndex) + i
        invariant frames + CallFrames(nextIndex, calls[i..]) == CallFrames(old(nextIndex), calls)
      {
        assert calls[i..][1..] == calls[i + 1..];
        frames := frames + [CallFrame(nextIndex, calls[i])];
        nextIndex := nextIndex + 1;
      }
    }

    method FlushFrames() returns (frames: seq<Frame>)
      requires Valid()
      modifies this`finished, repair
      ensures Valid()
      ensures Now() == FlushStep(x, old(Now())).core && frames == FlushStep(x, old(Now())).frames
    {
      frames := [];
      if repair == null {
        return;
      }
      var tail := repair.Flush();
      if tail != "" {
        frames := [Tail(tail)];
      }
      if nextIndex > 0 && !finished {
        frames := frames + [SynthesizedFinish];
        finished := true;
      }
    }
  }

  // ------------------------------------------------------------ standing aside

  /** A payload with several choices, or with tool calls of the upstream's own. */
  predicate Foreign(p: Payload) {
    && p.Chunk?
    && (|p.choices| >= 2 ||
        exists i :: 0 <= i < |p.choices| && p.choices[i].Choice? && p.choices[i].delta.Some? && p.choices[i].delta.value.structured != 0)
  }

  lemma ForeignStep(x: Syntax, allowed: set<Text>, c: Core, p: Payload)
    requires Foreign(p)
    ensures var m := Step(x, allowed, c, p); !m.core.live && m.frames != [] && m.frames[|m.frames| - 1] == Passed(p)
  {
    if |p.choices| < 2 {
      var i :| 0 <= i < |p.choices| && p.choices[i].Choice? && p.choices[i].delta.Some? && p.choices[i].delta.value.structured != 0;
      assert Structured(p.choices[i]);
    }
  }

  lemma AsideStep(x: Syntax, allowed: set<Text>, c: Core, p: Payload)
    requires !c.live
    ensures var m := Step(x, allowed, c, p); !m.core.live && m.frames == if p.Done? then [] else [Passed(p)]
  {
  }

  lemma {:induction false} StaysAside(x: Syntax, allowed: set<Text>, ps: seq<Payload>, i: nat)
    requires i < |ps| && Foreign(ps[i])
    ensures !Run(x, allowed, ps).core.live
    decreases |ps|
  {
    var n := |ps| - 1;
    var c := Run(x, allowed, ps[..n]).core;
    if i == n {
      ForeignStep(x, allowed, c, ps[n]);
    } else {
      StaysAside(x, allowed, ps[..n], i);
      AsideStep(x, allowed, c, ps[n]);
    }
  }

  /** From the first such payload on, it and every later one is passed on as it came, and nothing
      else is written for the later ones. */
  lemma ForeignIsPassed(x: Syntax, allowed: set<Text>, ps: seq<Payload>, i: nat)
    requires i < |ps| && Foreign(ps[i])
    ensures var n := |ps| - 1;
            var before, after := Run(x, allowed, ps[..n]).frames, Run(x, allowed, ps).frames;
            if i == n then |before| < |after| && after[|after| - 1] == Passed(ps[n])
            else after == before + if ps[n].Done? then [] else [Passed(ps[n])]
  {
    var n := |ps| - 1;
    var c := Run(x, allowed, ps[..n]).core;
    if i == n {
      ForeignStep(x, allowed, c, ps[n]);
    } else {
      StaysAside(x, allowed, ps[..n], i);
      AsideStep(x, allowed, c, ps[n]);
    }
  }
}
