/**
 What the markup repair of internal/upstream/dsml.go does to a text, however the text is
 cut into increments.
 */
module MarkupScan {
  import opened Common
  import opened MarkupText
  import opened MarkupBlock

  /** A run of plain text, a block that became calls, or a block that is given back. */
  datatype Piece = Plain(text: Text) | Converted(inner: Text, calls: seq<Call>) | Refused(inner: Text)

  /** What an instance keeps between two increments. */
  datatype State = State(inBlock: bool, hold: Text)

  datatype Scanned = Scanned(pieces: seq<Piece>, next: State)

  const START := State(false, "")

  function Then(ps: seq<Piece>, r: Scanned): Scanned {
    Scanned(ps + r.pieces, r.next)
  }

  function Judge(x: Syntax, allowed: set<Text>, inner: Text): Piece {
    var calls := Block(x, allowed, inner);
    if calls.Some? then Converted(inner, calls.value) else Refused(inner)
  }

  /** The effect of one increment on the text `s` made of the buffer and the increment. */
  function Scan(x: Syntax, allowed: set<Text>, inBlock: bool, s: Text): Scanned
    decreases |s|
  {
    if inBlock then
      var cut := Split(s, x.close);
      if cut.Some? then Then([Judge(x, allowed, cut.value.0)], Scan(x, allowed, false, cut.value.1))
      else if |s| > x.cap then Scanned([Plain(x.open + s)], START)
      else Scanned([], State(true, s))
    else if x.open <= s then Scan(x, allowed, true, s[|x.open|..])
    else if s <= x.open then Scanned([], State(false, s))
    else Then([Plain([s[0]])], Scan(x, allowed, false, s[1..]))
  }

  /** A sequence of increments, from a fresh instance. */
  function Feeds(x: Syntax, allowed: set<Text>, chunks: seq<Text>): Scanned {
    if chunks == [] then Scanned([], START)
    else
      var n := |chunks| - 1;
      var r := Feeds(x, allowed, chunks[..n]);
      Then(r.pieces, Scan(x, allowed, r.next.inBlock, r.next.hold + chunks[n]))
  }

  function Concat(chunks: seq<Text>): Text {
    if chunks == [] then "" else Concat(chunks[..|chunks| - 1]) + chunks[|chunks| - 1]
  }

  // ------------------------------------------------------------ what comes out

  /** The text that is written out for the pieces. */
  function Emitted(x: Syntax, ps: seq<Piece>): Text {
    if ps == [] then "" else EmittedOne(x, ps[0]) + Emitted(x, ps[1..])
  }

  function EmittedOne(x: Syntax, p: Piece): Text {
    match p
    case Plain(t) => t
    case Converted(_, _) => ""
    case Refused(inner) => x.open + (inner + x.close)
  }

  function CallsIn(ps: seq<Piece>): seq<Call> {
    if ps == [] then [] else (if ps[0].Converted? then ps[0].calls else []) + CallsIn(ps[1..])
  }

  /** The input text that the pieces stand for. */
  function Source(x: Syntax, ps: seq<Piece>): Text {
    if ps == [] then "" else SourceOne(x, ps[0]) + Source(x, ps[1..])
  }

  function SourceOne(x: Syntax, p: Piece): Text {
    if p.Plain? then p.text else x.open + (p.inner + x.close)
  }

  /** What Flush gives back. */
  function Pending(x: Syntax, st: State): Text {
    if st.inBlock then x.open + st.hold else st.hold
  }

  lemma {:induction false} SourceAppend(x: Syntax, ps: seq<Piece>, qs: seq<Piece>)
    ensures Source(x, ps + qs) == Source(x, ps) + Source(x, qs)
  {
    if ps == [] {
      assert ps + qs == qs;
    } else {
      assert (ps + qs)[1..] == ps[1..] + qs;
      SourceAppend(x, ps[1..], qs);
      Associates(SourceOne(x, ps[0]), Source(x, ps[1..]), Source(x, qs));
    }
  }

  lemma {:induction false} EmittedAppend(x: Syntax, ps: seq<Piece>, qs: seq<Piece>)
    ensures Emitted(x, ps + qs) == Emitted(x, ps) + Emitted(x, qs)
  {
    if ps == [] {
      assert ps + qs == qs;
    } else {
      assert (ps + qs)[1..] == ps[1..] + qs;
      EmittedAppend(x, ps[1..], qs);
      Associates(EmittedOne(x, ps[0]), Emitted(x, ps[1..]), Emitted(x, qs));
    }
  }

  lemma {:induction false} CallsAppend(ps: seq<Piece>, qs: seq<Piece>)
    ensures CallsIn(ps + qs) == CallsIn(ps) + CallsIn(qs)
  {
    if ps == [] {
      assert ps + qs == qs;
    } else {
      assert (ps + qs)[1..] == ps[1..] + qs;
      CallsAppend(ps[1..], qs);
      Associates(if ps[0].Converted? then ps[0].calls else [], CallsIn(ps[1..]), CallsIn(qs));
    }
  }

  lemma OutputAppend(x: Syntax, ps: seq<Piece>, qs: seq<Piece>)
    ensures Emitted(x, ps + qs) == Emitted(x, ps) + Emitted(x, qs)
    ensures CallsIn(ps + qs) == CallsIn(ps) + CallsIn(qs)
  {
    EmittedAppend(x, ps, qs);
    CallsAppend(ps, qs);
  }

  // ------------------------------------------------------------ conservation

  lemma {:induction false} ScanConserves(x: Syntax, allowed: set<Text>, inBlock: bool, s: Text)
    ensures var r := Scan(x, allowed, inBlock, s);
            Source(x, r.pieces) + Pending(x, r.next) == Pending(x, State(inBlock, s))
    decreases |s|
  {
    if inBlock {
      var cut := Split(s, x.close);
      if cut.Some? {
        ScanConserves(x, allowed, false, cut.value.1);
        BlockConserves(x, s, cut.value, Judge(x, allowed, cut.value.0), Scan(x, allowed, false, cut.value.1));
      }
    } else if x.open <= s {
      ScanConserves(x, allowed, true, s[|x.open|..]);
      Front(s, x.open);
    } else if !(s <= x.open) {
      ScanConserves(x, allowed, false, s[1..]);
      ThenConserves(x, Plain([s[0]]), Scan(x, allowed, false, s[1..]), s[1..]);
      Front(s, [s[0]]);
    }
  }

  lemma Front(s: Text, p: Text)
    requires p <= s
    ensures p + s[|p|..] == s
  {
  }

  lemma BlockConserves(x: Syntax, s: Text, cut: (Text, Text), p: Piece, r: Scanned)
    requires Split(s, x.close) == Some(cut) && !p.Plain? && p.inner == cut.0
    requires Source(x, r.pieces) + Pending(x, r.next) == cut.1
    ensures Source(x, Then([p], r).pieces) + Pending(x, r.next) == x.open + s
  {
    SplitJoins(s, x.close);
    ThenConserves(x, p, r, cut.1);
    Associates4(x.open, cut.0, x.close, cut.1);
  }

  lemma ThenConserves(x: Syntax, p: Piece, r: Scanned, s: Text)
    requires Source(x, r.pieces) + Pending(x, r.next) == s
    ensures Source(x, Then([p], r).pieces) + Pending(x, r.next) == SourceOne(x, p) + s
  {
    assert ([p] + r.pieces)[1..] == r.pieces;
  }

  /** After any increments, the sources of what came out followed by the pending buffer are
      the input, byte for byte. */
  lemma {:induction false} FeedsConserve(x: Syntax, allowed: set<Text>, chunks: seq<Text>)
    ensures var r := Feeds(x, allowed, chunks);
            Source(x, r.pieces) + Pending(x, r.next) == Concat(chunks)
  {
    if chunks != [] {
      var n := |chunks| - 1;
      var r := Feeds(x, allowed, chunks[..n]);
      FeedsConserve(x, allowed, chunks[..n]);
      StepConserves(x, allowed, r, chunks[n]);
    }
  }

  lemma StepConserves(x: Syntax, allowed: set<Text>, r: Scanned, t: Text)
    ensures var m := Scan(x, allowed, r.next.inBlock, r.next.hold + t);
            Source(x, Then(r.pieces, m).pieces) + Pending(x, m.next) == (Source(x, r.pieces) + Pending(x, r.next)) + t
  {
    var m := Scan(x, allowed, r.next.inBlock, r.next.hold + t);
    ScanConserves(x, allowed, r.next.inBlock, r.next.hold + t);
    SourceAppend(x, r.pieces, m.pieces);
    PendingAppend(x, r.next, t);
    Associates(Source(x, r.pieces), Source(x, m.pieces), Pending(x, m.next));
    Associates(Source(x, r.pieces), Pending(x, r.next), t);
  }

  lemma PendingAppend(x: Syntax, st: State, t: Text)
    ensures Pending(x, State(st.inBlock, st.hold + t)) == Pending(x, st) + t
  {
  }

  /** Without a converted block the output is the input. */
  lemma NothingLost(x: Syntax, allowed: set<Text>, chunks: seq<Text>)
    requires CallsIn(Feeds(x, allowed, chunks).pieces) == []
    ensures var r := Feeds(x, allowed, chunks);
            Emitted(x, r.pieces) + Pending(x, r.next) == Concat(chunks)
  {
    FeedsConserve(x, allowed, chunks);
    FeedsJudged(x, allowed, chunks);
    NoCallsNoLoss(x, allowed, Feeds(x, allowed, chunks).pieces);
  }

  /** A block is converted exactly when the block parser accepts it. */
  predicate Judged(x: Syntax, allowed: set<Text>, p: Piece) {
    match p
    case Plain(_) => true
    case Converted(inner, calls) => Block(x, allowed, inner) == Some(calls) && calls != []
    case Refused(inner) => Block(x, allowed, inner).None?
  }

  lemma {:induction false} NoCallsNoLoss(x: Syntax, allowed: set<Text>, ps: seq<Piece>)
    requires (forall i :: 0 <= i < |ps| ==> Judged(x, allowed, ps[i])) && CallsIn(ps) == []
    ensures Emitted(x, ps) == Source(x, ps)
  {
    if ps != [] {
      assert Judged(x, allowed, ps[0]);
      assert forall i :: 0 <= i < |ps[1..]| ==> ps[1..][i] == ps[i + 1];
      NoCallsNoLoss(x, allowed, ps[1..]);
    }
  }

  lemma {:induction false} ScanJudged(x: Syntax, allowed: set<Text>, inBlock: bool, s: Text)
    ensures forall i :: 0 <= i < |Scan(x, allowed, inBlock, s).pieces| ==> Judged(x, allowed, Scan(x, allowed, inBlock, s).pieces[i])
    decreases |s|
  {
    if inBlock {
      var cut := Split(s, x.close);
      if cut.Some? {
        ScanJudged(x, allowed, false, cut.value.1);
      }
    } else if x.open <= s {
      ScanJudged(x, allowed, true, s[|x.open|..]);
    } else if !(s <= x.open) {
      ScanJudged(x, allowed, false, s[1..]);
    }
  }

  /** Every block that came out was judged by the block parser, and the buffer is bounded. */
  lemma {:induction false} FeedsJudged(x: Syntax, allowed: set<Text>, chunks: seq<Text>)
    ensures forall i :: 0 <= i < |Feeds(x, allowed, chunks).pieces| ==> Judged(x, allowed, Feeds(x, allowed, chunks).pieces[i])
    ensures Bounded(x, Feeds(x, allowed, chunks).next)
  {
    if chunks != [] {
      var n := |chunks| - 1;
      var r := Feeds(x, allowed, chunks[..n]);
      FeedsJudged(x, allowed, chunks[..n]);
      ScanJudged(x, allowed, r.next.inBlock, r.next.hold + chunks[n]);
      ScanBounded(x, allowed, r.next.inBlock, r.next.hold + chunks[n]);
    }
  }

  // ------------------------------------------------------------ the buffer

  /** Outside a block the buffer is a proper prefix of the opening marker; inside, it has no
      closing marker and stays within the cap. */
  predicate Bounded(x: Syntax, st: State) {
    if st.inBlock then |st.hold| <= x.cap && Split(st.hold, x.close).None?
    else st.hold <= x.open && st.hold != x.open
  }

  lemma {:induction false} ScanBounded(x: Syntax, allowed: set<Text>, inBlock: bool, s: Text)
    ensures Bounded(x, Scan(x, allowed, inBlock, s).next)
    decreases |s|
  {
    if inBlock {
      var cut := Split(s, x.close);
      if cut.Some? {
        ScanBounded(x, allowed, false, cut.value.1);
      }
    } else if x.open <= s {
      ScanBounded(x, allowed, true, s[|x.open|..]);
    } else if !(s <= x.open) {
      ScanBounded(x, allowed, false, s[1..]);
    }
  }

  // ------------------------------------------------------------ independence from the increments

  /** The unclosed block at the end of `s`, if any, is within the cap. */
  predicate Fits(x: Syntax, inBlock: bool, s: Text)
    decreases |s|
  {
    if inBlock then
      var cut := Split(s, x.close);
      if cut.Some? then Fits(x, false, cut.value.1) else |s| <= x.cap
    else if x.open <= s then Fits(x, true, s[|x.open|..])
    else s <= x.open || Fits(x, false, s[1..])
  }

  lemma Mismatch(p: Text, s: Text, t: Text)
    requires !(p <= s) && !(s <= p)
    ensures !(p <= s + t) && !(s + t <= p)
  {
  }

  lemma ThenThen(ps: seq<Piece>, qs: seq<Piece>, r: Scanned)
    ensures Then(ps, Then(qs, r)) == Then(ps + qs, r)
  {
    assert ps + (qs + r.pieces) == (ps + qs) + r.pieces;
  }

  /** Scanning a text is scanning its front and going on from the state that leaves. */
  lemma {:induction false} ScanComposes(x: Syntax, allowed: set<Text>, inBlock: bool, s: Text, t: Text)
    requires Fits(x, inBlock, s)
    ensures var r := Scan(x, allowed, inBlock, s);
            Scan(x, allowed, inBlock, s + t) == Then(r.pieces, Scan(x, allowed, r.next.inBlock, r.next.hold + t))
    decreases |s|
  {
    if inBlock {
      var cut := Split(s, x.close);
      if cut.Some? {
        SplitAppend(s, t, x.close);
        ScanComposes(x, allowed, false, cut.value.1, t);
        var r := Scan(x, allowed, false, cut.value.1);
        ThenThen([Judge(x, allowed, cut.value.0)], r.pieces, Scan(x, allowed, r.next.inBlock, r.next.hold + t));
      }
    } else if x.open <= s {
      assert (s + t)[|x.open|..] == s[|x.open|..] + t;
      ScanComposes(x, allowed, true, s[|x.open|..], t);
    } else if !(s <= x.open) {
      Mismatch(x.open, s, t);
      assert (s + t)[1..] == s[1..] + t;
      ScanComposes(x, allowed, false, s[1..], t);
      var r := Scan(x, allowed, false, s[1..]);
      ThenThen([Plain([s[0]])], r.pieces, Scan(x, allowed, r.next.inBlock, r.next.hold + t));
    }
  }

  /** No increment but the last leaves an unclosed block over the cap. */
  predicate WithinCap(x: Syntax, chunks: seq<Text>) {
    forall i :: 0 <= i < |chunks| ==> Fits(x, false, Concat(chunks[..i]))
  }

  /** Feeding a text in increments gives exactly what feeding it at once gives: the same
      pieces in the same order, and the same buffer. */
  lemma {:induction false} ChunkIndependence(x: Syntax, allowed: set<Text>, chunks: seq<Text>)
    requires WithinCap(x, chunks)
    ensures Feeds(x, allowed, chunks) == Scan(x, allowed, false, Concat(chunks))
  {
    if chunks != [] {
      var n := |chunks| - 1;
      assert forall i :: 0 <= i < n ==> chunks[..n][..i] == chunks[..i];
      ChunkIndependence(x, allowed, chunks[..n]);
      ScanComposes(x, allowed, false, Concat(chunks[..n]), chunks[n]);
    }
  }

  /** Everything that is written for a text: the emitted text and, at the end, the buffer. */
  function Output(x: Syntax, r: Scanned): (Text, seq<Call>) {
    (Emitted(x, r.pieces) + Pending(x, r.next), CallsIn(r.pieces))
  }

  /** Any two ways of cutting a text produce the same text and the same calls. */
  lemma SplitsAgree(x: Syntax, allowed: set<Text>, a: seq<Text>, b: seq<Text>)
    requires Concat(a) == Concat(b) && WithinCap(x, a) && WithinCap(x, b)
    ensures Output(x, Feeds(x, allowed, a)) == Output(x, Feeds(x, allowed, b))
  {
    ChunkIndependence(x, allowed, a);
    ChunkIndependence(x, allowed, b);
  }

  /** A text none of whose prefixes leaves an unclosed block over the cap may be cut anywhere. */
  lemma CutAnywhere(x: Syntax, text: Text, chunks: seq<Text>)
    requires (forall n :: 0 <= n <= |text| ==> Fits(x, false, text[..n])) && Concat(chunks) == text
    ensures WithinCap(x, chunks)
  {
    forall i | 0 <= i < |chunks| ensures Fits(x, false, Concat(chunks[..i])) {
      ConcatPrefix(chunks, i);
      assert Concat(chunks[..i]) == text[..|Concat(chunks[..i])|];
    }
  }

  lemma {:induction false} ConcatPrefix(chunks: seq<Text>, i: nat)
    requires i <= |chunks|
    ensures Concat(chunks[..i]) <= Concat(chunks)
  {
    if i < |chunks| {
      var n := |chunks| - 1;
      ConcatPrefix(chunks[..n], i);
      assert chunks[..n][..i] == chunks[..i];
    } else {
      assert chunks[..i] == chunks;
    }
  }

  /** A text no longer than the closing marker holds no whole block. */
  lemma {:induction false} ShortHasNoBlock(x: Syntax, ps: seq<Piece>)
    requires |Source(x, ps)| <= |x.close|
    ensures CallsIn(ps) == []
  {
    if ps != [] {
      ShortHasNoBlock(x, ps[1..]);
    }
  }

  /** The cap is what decides: an acceptable block that arrives in front of its closing
      marker becomes calls exactly when it is within the cap. */
  lemma CapDecides(x: Syntax, allowed: set<Text>, inner: Text)
    requires Block(x, allowed, inner).Some? && Split(inner + x.close, x.close) == Some((inner, ""))
    ensures CallsIn(Feeds(x, allowed, [x.open + (inner + x.close)]).pieces) == Block(x, allowed, inner).value != []
    ensures CallsIn(Feeds(x, allowed, [x.open + inner, x.close]).pieces) ==
            if |inner| <= x.cap then Block(x, allowed, inner).value else []
  {
    OneFeed(x, allowed, x.open + (inner + x.close));
    OneFeed(x, allowed, x.open + inner);
    ScanOpened(x, allowed, inner + x.close);
    ScanOpened(x, allowed, inner);
    WholeBlock(x, allowed, inner);
    if Split(inner, x.close).Some? {
      SplitAppend(inner, x.close, x.close);
    }
    assert [x.open + inner, x.close][..1] == [x.open + inner];
    if |inner| > x.cap {
      ScanConserves(x, allowed, false, x.close);
      ShortHasNoBlock(x, Scan(x, allowed, false, x.close).pieces);
      assert "" + x.close == x.close;
      OutputAppend(x, [Plain(x.open + inner)], Scan(x, allowed, false, x.close).pieces);
    }
  }

  lemma OneFeed(x: Syntax, allowed: set<Text>, t: Text)
    ensures Feeds(x, allowed, [t]) == Scan(x, allowed, false, t)
  {
    assert [t][..0] == [] && "" + t == t;
  }

  lemma ScanOpened(x: Syntax, allowed: set<Text>, t: Text)
    ensures Scan(x, allowed, false, x.open + t) == Scan(x, allowed, true, t)
  {
    assert (x.open + t)[|x.open|..] == t;
  }

  lemma WholeBlock(x: Syntax, allowed: set<Text>, inner: Text)
    requires Block(x, allowed, inner).Some? && Split(inner + x.close, x.close) == Some((inner, ""))
    ensures Scan(x, allowed, true, inner + x.close) == Scanned([Converted(inner, Block(x, allowed, inner).value)], START)
  {
  }
}
