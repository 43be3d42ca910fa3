/** The repair state machine of internal/upstream/dsml.go. */
module MarkupRepair {
  import opened MarkupText
  import opened MarkupBlock
  import opened MarkupScan

  // ------------------------------------------------------------ finding a start

  /** An opening marker, whole or cut off by the end of the text, starts at `i`. */
  predicate Candidate(x: Syntax, s: Text, i: nat)
    requires i < |s|
  {
    x.open <= s[i..] || s[i..] <= x.open
  }

  /** The first candidate, or -1. */
  method StartCandidate(x: Syntax, s: Text) returns (r: int)
    ensures -1 <= r < |s| && (0 <= r ==> Candidate(x, s, r))
    ensures forall j :: 0 <= j < (if r < 0 then |s| else r) ==> !Candidate(x, s, j)
  {
    var i := 0;
    while i < |s|
      invariant 0 <= i <= |s|
      invariant forall j :: 0 <= j < i ==> !Candidate(x, s, j)
    {
      if s[i] == '<' {
        var rest := s[i..];
        if |rest| >= |x.open| {
          if rest[..|x.open|] == x.open {
            return i;
          }
        } else if rest <= x.open {
          return i;
        }
      }
      i := i + 1;
    }
    return -1;
  }

  function Chars(t: Text): seq<Piece> {
    if t == "" then [] else [Plain([t[0]])] + Chars(t[1..])
  }

  lemma {:induction false} CharsAreThemselves(x: Syntax, t: Text)
    ensures Emitted(x, Chars(t)) == t && CallsIn(Chars(t)) == [] && Tally(Chars(t)) == (0, 0)
  {
    if t != "" {
      CharsAreThemselves(x, t[1..]);
      assert Chars(t)[1..] == Chars(t[1..]);
    }
  }

  lemma CandidateTail(x: Syntax, s: Text, i: nat)
    requires 0 < i <= |s| && forall j :: 0 <= j < i ==> !Candidate(x, s, j)
    ensures forall j :: 0 <= j < i - 1 ==> !Candidate(x, s[1..], j)
  {
    forall j | 0 <= j < i - 1 ensures !Candidate(x, s[1..], j) {
      assert s[1..][j..] == s[j + 1..] && !Candidate(x, s, j + 1);
    }
  }

  /** Text in front of the first candidate passes through. */
  lemma {:induction false} ScanSkips(x: Syntax, allowed: set<Text>, s: Text, i: nat)
    requires i <= |s| && forall j :: 0 <= j < i ==> !Candidate(x, s, j)
    ensures Scan(x, allowed, false, s) == Then(Chars(s[..i]), Scan(x, allowed, false, s[i..]))
  {
    if i == 0 {
      assert s[0..] == s;
    } else {
      assert !Candidate(x, s, 0) && s[0..] == s;
      CandidateTail(x, s, i);
      ScanSkips(x, allowed, s[1..], i - 1);
      assert s[..i][1..] == s[1..][..i - 1] && s[1..][i - 1..] == s[i..];
      ThenThen([Plain([s[0]])], Chars(s[1..][..i - 1]), Scan(x, allowed, false, s[i..]));
    }
  }

  // ------------------------------------------------------------ counting

  /** How many blocks the pieces hold, and how many of them were given back. */
  function Tally(ps: seq<Piece>): (nat, nat) {
    if ps == [] then (0, 0)
    else
      var (seen, rejected) := Tally(ps[1..]);
      (seen + (if ps[0].Plain? then 0 else 1), rejected + (if ps[0].Refused? then 1 else 0))
  }

  lemma {:induction false} TallyAppend(ps: seq<Piece>, qs: seq<Piece>)
    ensures Tally(ps + qs) == (Tally(ps).0 + Tally(qs).0, Tally(ps).1 + Tally(qs).1)
  {
    if ps == [] {
      assert ps + qs == qs;
    } else {
      assert (ps + qs)[1..] == ps[1..] + qs;
      TallyAppend(ps[1..], qs);
    }
  }

  /** What a Feed adds to the outputs and counters. */
  datatype Yield = Yield(emit: Text, calls: seq<Call>, seen: int, rejected: int)

  function YieldOf(x: Syntax, ps: seq<Piece>): Yield {
    Yield(Emitted(x, ps), CallsIn(ps), Tally(ps).0, Tally(ps).1)
  }

  function Add(a: Yield, b: Yield): Yield {
    Yield(a.emit + b.emit, a.calls + b.calls, a.seen + b.seen, a.rejected + b.rejected)
  }

  lemma YieldAppend(x: Syntax, ps: seq<Piece>, qs: seq<Piece>)
    ensures YieldOf(x, ps + qs) == Add(YieldOf(x, ps), YieldOf(x, qs))
  {
    OutputAppend(x, ps, qs);
    TallyAppend(ps, qs);
  }

  function PieceYield(x: Syntax, p: Piece): Yield {
    Yield(EmittedOne(x, p), if p.Converted? then p.calls else [], if p.Plain? then 0 else 1, if p.Refused? then 1 else 0)
  }

  lemma YieldOne(x: Syntax, p: Piece)
    ensures YieldOf(x, [p]) == PieceYield(x, p)
  {
    var none: seq<Piece> := [];
    assert [p][1..] == none && Emitted(x, none) == "" && CallsIn(none) == [] && Tally(none) == (0, 0);
    assert Emitted(x, [p]) == EmittedOne(x, p) && CallsIn([p]) == if p.Converted? then p.calls else [];
  }

  // ------------------------------------------------------------ the machine

  class Repair {
    const x: Syntax
    const allowed: set<Text>
    const allowUnknown: bool
    var hold: Text
    var inBlock: bool
    var seen: nat
    var rejected: nat
    var converted: nat

    constructor (x: Syntax, allowed: set<Text>, allowUnknown: bool)
      ensures this.x == x && this.allowed == allowed && this.allowUnknown == allowUnknown
      ensures Now() == START && seen == rejected == converted == 0
    {
      this.x, this.allowed, this.allowUnknown := x, allowed, allowUnknown;
      hold, inBlock, seen, rejected, converted := "", false, 0, 0, 0;
    }

    predicate Enabled() {
      allowed != {} || allowUnknown
    }

    function Now(): State
      reads this
    {
      State(inBlock, hold)
    }

    /** What the increment does, by the specification. */
    function Effect(text: Text): Scanned
      reads this
    {
      Scan(x, allowed, inBlock, hold + text)
    }

    method Feed(text: Text) returns (emit: Text, calls: seq<Call>)
      modifies this
      ensures allowed != {} || allowUnknown ==>
                && Now() == old(Effect(text)).next
                && Yield(emit, calls, seen - old(seen), rejected - old(rejected)) == YieldOf(x, old(Effect(text)).pieces)
                && converted == old(converted) + |calls|
      ensures allowed == {} && !allowUnknown ==> emit == text && calls == [] && unchanged(this)
    {
      if !Enabled() {
        return text, [];
      }
      emit, calls := Drain(text);
    }

    /** The rounds of a Feed, from block to block. */
    method Drain(text: Text) returns (emit: Text, calls: seq<Call>)
      modifies this
      ensures Now() == old(Effect(text)).next
      ensures Yield(emit, calls, seen - old(seen), rejected - old(rejected)) == YieldOf(x, old(Effect(text)).pieces)
      ensures converted == old(converted) + |calls|
    {
      var s, stop := hold + text, false;
      hold := "";
      emit, calls := "", [];
      ghost var done: seq<Piece> := [];
      while !stop
        invariant old(Effect(text)) == Then(done, Remaining(stop, s))
        invariant Yield(emit, calls, seen - old(seen), rejected - old(rejected)) == YieldOf(x, done)
        invariant converted == old(converted) + |calls| && (!stop ==> hold == "")
        decreases !stop, |s|, !inBlock
      {
        var e: Text, c: seq<Call>;
        ghost var ps: seq<Piece>;
        if inBlock {
          stop, s, e, c, ps := Inside(s);
        } else {
          stop, s, e, ps := Outside(s);
          c := [];
        }
        emit, calls := emit + e, calls + c;
        YieldAppend(x, done, ps);
        ThenThen(done, ps, Remaining(stop, s));
        done := done + ps;
      }
      assert done + [] == done;
    }

    /** What is left of a scan: nothing but the new state once it has stopped. */
    ghost function Remaining(stop: bool, s: Text): Scanned
      reads this
    {
      if stop then Scanned([], Now()) else Scan(x, allowed, inBlock, s)
    }

    /** One round outside a block: look for a start. */
    method Outside(s: Text) returns (stop: bool, rest: Text, emit: Text, ghost ps: seq<Piece>)
      requires !inBlock && hold == ""
      modifies this`hold, this`inBlock
      ensures old(Remaining(false, s)) == Then(ps, Remaining(stop, rest)) && YieldOf(x, ps) == Yield(emit, [], 0, 0)
      ensures |rest| <= |s| && (!stop ==> inBlock && hold == "")
    {
      var i := StartCandidate(x, s);
      var n := if i < 0 then |s| else i;
      emit, ps := s[..n], Chars(s[..n]);
      ScanSkips(x, allowed, s, n);
      CharsAreThemselves(x, s[..n]);
      if i < 0 {
        return true, "", emit, ps;
      }
      if |s| - i < |x.open| {
        hold := s[i..];
        return true, "", emit, ps;
      }
      inBlock := true;
      assert s[i..][|x.open|..] == s[i + |x.open|..];
      return false, s[i + |x.open|..], emit, ps;
    }

    /** One round inside a block: look for its end. */
    method Inside(s: Text) returns (stop: bool, rest: Text, emit: Text, calls: seq<Call>, ghost ps: seq<Piece>)
      requires inBlock && hold == ""
      modifies this
      ensures old(Remaining(false, s)) == Then(ps, Remaining(stop, rest))
      ensures YieldOf(x, ps) == Yield(emit, calls, seen - old(seen), rejected - old(rejected))
      ensures converted == old(converted) + |calls|
      ensures (|rest| < |s| && hold == "") || stop
    {
      var cut := Split(s, x.close);
      if cut.Some? {
        inBlock := false;
        emit, calls := Settle(cut.value.0);
        ps := [Judge(x, allowed, cut.value.0)];
        YieldOne(x, ps[0]);
        return false, cut.value.1, emit, calls, ps;
      }
      if |s| > x.cap {
        inBlock := false;
        ps := [Plain(x.open + s)];
        YieldOne(x, ps[0]);
        return true, "", x.open + s, [], ps;
      }
      hold := s;
      return true, "", "", [], [];
    }

    /** One closed block: its calls, or its text given back. */
    method Settle(inner: Text) returns (emit: Text, calls: seq<Call>)
      modifies this`seen, this`rejected, this`converted
      ensures Yield(emit, calls, seen - old(seen), rejected - old(rejected)) == PieceYield(x, Judge(x, allowed, inner))
      ensures converted == old(converted) + |calls|
    {
      seen := seen + 1;
      var got := ParseBlock(x, allowed, inner);
      if got.Some? {
        converted := converted + |got.value|;
        return "", got.value;
      }
      rejected := rejected + 1;
      return x.open + (inner + x.close), [];
    }

    method Flush() returns (out: Text)
      modifies this`hold, this`inBlock
      ensures allowed != {} || allowUnknown ==> out == old(Pending(x, Now())) && Now() == START
      ensures allowed == {} && !allowUnknown ==> out == "" && unchanged(this)
    {
      if !Enabled() {
        return "";
      }
      out := if inBlock then x.open + hold else hold;
      hold, inBlock := "", false;
    }
  }

  /** Feeding the increments one by one and flushing writes the output of the whole text. */
  method FeedAll(r: Repair, chunks: seq<Text>) returns (text: Text, calls: seq<Call>)
    requires r.Enabled() && r.Now() == START && WithinCap(r.x, chunks)
    modifies r
    ensures (text, calls) == Output(r.x, Scan(r.x, r.allowed, false, Concat(chunks)))
    ensures r.Now() == START
  {
    text, calls := "", [];
    ghost var done := Scanned([], START);
    for i := 0 to |chunks|
      invariant done == Feeds(r.x, r.allowed, chunks[..i]) && done.next == r.Now()
      invariant text == Emitted(r.x, done.pieces) && calls == CallsIn(done.pieces)
    {
      assert chunks[..i + 1][..i] == chunks[..i];
      ghost var m := r.Effect(chunks[i]);
      var t, c := r.Feed(chunks[i]);
      OutputAppend(r.x, done.pieces, m.pieces);
      done := Then(done.pieces, m);
      text, calls := text + t, calls + c;
    }
    assert chunks[..|chunks|] == chunks;
    ChunkIndependence(r.x, r.allowed, chunks);
    var t := r.Flush();
    text := text + t;
  }
}
