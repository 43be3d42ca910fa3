/**
 The native tool-call markup of internal/upstream/dsml.go: its markers, and the parser of
 one `calls` block. Text is a sequence of bytes, written as characters below U+0100.
 */
module MarkupText {
  import opened Common

  type Text = string

  /** UTF-8 of the two full-width vertical bars. */
  const PIPE: Text := [0xef as char, 0xbd as char, 0x9c as char, 0xef as char, 0xbd as char, 0x9c as char]
  const TAG: Text := "<" + PIPE + "DSML" + PIPE
  const OPEN: Text := TAG + " calls>"
  const CLOSE: Text := "</" + PIPE + "DSML" + PIPE + " calls>"
  const MAX_BLOCK := 256 * 1024

  // ------------------------------------------------------------ searching

  /** The text before and behind the first occurrence of `p`, if there is one. */
  function Split(s: Text, p: Text): (r: Option<(Text, Text)>)
    ensures r.Some? ==> |r.value.1| + |p| <= |s|
  {
    if p <= s then Some(("", s[|p|..]))
    else if s == "" then None
    else
      var r := Split(s[1..], p);
      if r.None? then None else Some(([s[0]] + r.value.0, r.value.1))
  }

  lemma {:induction false} SplitJoins(s: Text, p: Text)
    requires Split(s, p).Some?
    ensures s == Split(s, p).value.0 + (p + Split(s, p).value.1)
  {
    if !(p <= s) {
      SplitJoins(s[1..], p);
    }
  }

  /** No occurrence starts before the one that is found. */
  lemma {:induction false} SplitIsFirst(s: Text, p: Text, j: nat)
    requires j <= |s| && p <= s[j..]
    ensures Split(s, p).Some? && |Split(s, p).value.0| <= j
  {
    if !(p <= s) {
      assert s[j..] == s[1..][j - 1..];
      SplitIsFirst(s[1..], p, j - 1);
    }
  }

  /** An occurrence stays the first one when text is appended. */
  lemma {:induction false} SplitAppend(s: Text, t: Text, p: Text)
    requires Split(s, p).Some?
    ensures Split(s + t, p) == Some((Split(s, p).value.0, Split(s, p).value.1 + t))
  {
    if p <= s {
      assert (s + t)[|p|..] == s[|p|..] + t;
    } else {
      assert (s + t)[1..] == s[1..] + t;
      SplitAppend(s[1..], t, p);
    }
  }

  // ------------------------------------------------------------ white space

  /** `\s` of the tag expressions. */
  predicate IsSpace(c: char) {
    c == ' ' || c == '\t' || c == '\n' || c as int == 0x0c || c == '\r'
  }

  function SkipSpace(s: Text): (r: Text)
    ensures |r| <= |s|
  {
    if s != "" && IsSpace(s[0]) then SkipSpace(s[1..]) else s
  }

  /** Length of the Unicode white-space character that starts `s`, or 0. */
  function BlankLength(s: Text): (n: nat)
    ensures n <= |s|
  {
    if s == "" then 0
    else if IsSpace(s[0]) || s[0] as int == 0x0b then 1
    else if |s| >= 2 && s[0] as int == 0xc2 && s[1] as int in {0x85, 0xa0} then 2
    else if |s| >= 3 && WideBlank(s[0], s[1], s[2]) then 3
    else 0
  }

  /** U+1680, U+2000 to U+200A, U+2028, U+2029, U+202F, U+205F and U+3000. */
  predicate WideBlank(a: char, b: char, c: char) {
    var (x, y, z) := (a as int, b as int, c as int);
    || (x == 0xe1 && y == 0x9a && z == 0x80)
    || (x == 0xe2 && y == 0x80 && (0x80 <= z <= 0x8a || z in {0xa8, 0xa9, 0xaf}))
    || (x == 0xe2 && y == 0x81 && z == 0x9f)
    || (x == 0xe3 && y == 0x80 && z == 0x80)
  }

  /** strings.TrimSpace(s) == "". */
  predicate Blank(s: Text)
    decreases |s|
  {
    s == "" || (BlankLength(s) > 0 && Blank(s[BlankLength(s)..]))
  }

  /** No tag can start inside blank text. */
  lemma {:induction false} BlankHasNoTag(s: Text, i: nat)
    requires Blank(s) && i < |s|
    ensures s[i] != '<'
    decreases |s|
  {
    var n := BlankLength(s);
    if n <= i {
      BlankHasNoTag(s[n..], i - n);
    }
  }

  // ------------------------------------------------------------ tags

  datatype Kind = Invoke | Parameter

  function Word(k: Kind): Text {
    if k.Invoke? then "invoke" else "parameter"
  }

  function Closer(k: Kind): Text {
    "</" + PIPE + "DSML" + PIPE + " " + Word(k) + ">"
  }

  /** A matched opening tag and the text behind it. */
  datatype Header = Header(tag: Text, rest: Text, name: Text, isString: bool)

  function After(s: Text, literal: Text): (r: Option<Text>)
    ensures r.Some? ==> |r.value| + |literal| == |s|
  {
    if literal <= s then Some(s[|literal|..]) else None
  }

  /** `\s+` followed by a literal. */
  function AfterSpaced(s: Text, literal: Text): (r: Option<Text>)
    ensures r.Some? ==> |r.value| <= |s|
  {
    if s != "" && IsSpace(s[0]) then After(SkipSpace(s), literal) else None
  }

  /** The optional `string` attribute of a parameter tag. */
  function Attribute(k: Kind, s: Text): (r: (Text, bool))
    ensures |r.0| <= |s|
  {
    var yes, no := AfterSpaced(s, "string=\"true\""), AfterSpaced(s, "string=\"false\"");
    if k.Invoke? then (s, false)
    else if yes.Some? then (yes.value, true)
    else if no.Some? then (no.value, false)
    else (s, false)
  }

  datatype Name = Name(rest: Text, name: Text, isString: bool)

  /** The tail of an opening tag, from behind `name="`. */
  function MatchName(k: Kind, s: Text): (r: Option<Name>)
    ensures r.Some? ==> |r.value.rest| <= |s|
  {
    var q := Split(s, "\"");
    if q.None? then None
    else
      var attr := Attribute(k, q.value.1);
      var rest := After(SkipSpace(attr.0), ">");
      if rest.None? then None else Some(Name(rest.value, q.value.0, attr.1))
  }

  /** What follows the tag's fixed prefix. */
  function MatchWord(k: Kind, s: Text): (r: Option<Name>)
    ensures r.Some? ==> |r.value.rest| <= |s|
  {
    var b := AfterSpaced(s, Word(k));
    if b.None? then None
    else
      var c := AfterSpaced(b.value, "name=\"");
      if c.None? then None else MatchName(k, c.value)
  }

  function Ending(s: Text, n: nat): Text
    requires n <= |s|
  {
    s[|s| - n..]
  }

  /** The opening tag expression anchored at the start of `s`. */
  function MatchHeader(k: Kind, s: Text): Option<Header> {
    var a := After(s, TAG);
    if a.None? then None
    else
      var m := MatchWord(k, a.value);
      if m.None? then None
      else Some(Header(s[..|s| - |m.value.rest|], Ending(s, |m.value.rest|), m.value.name, m.value.isString))
  }

  // ------------------------------------------------------------ the syntax as a parameter

  /** The markers of a markup, the matcher of its opening tags, and the bound on a block. */
  datatype RawSyntax = RawSyntax(
    open: Text, close: Text, header: (Kind, Text) -> Option<Header>, closer: Kind -> Text, cap: nat)

  /** Markers start with '<', closing markers are not empty, and a matched tag is a prefix
      that starts with '<'. */
  ghost predicate ValidSyntax(x: RawSyntax) {
    && x.open != "" && x.open[0] == '<' && x.close != ""
    && (forall k :: x.closer(k) != "")
    && (forall k, s :: x.header(k, s).Some? ==> Cuts(x.header(k, s).value, s))
  }

  ghost predicate Cuts(h: Header, s: Text) {
    s == h.tag + h.rest && h.tag != "" && h.tag[0] == '<'
  }

  const DSML: RawSyntax := RawSyntax(OPEN, CLOSE, MatchHeader, Closer, MAX_BLOCK)

  lemma HeaderCuts(k: Kind, s: Text)
    requires MatchHeader(k, s).Some?
    ensures Cuts(MatchHeader(k, s).value, s)
  {
    assert |TAG| > 0 && TAG[0] == '<';
  }

  lemma DsmlIsValid()
    ensures ValidSyntax(DSML)
  {
    forall k, s | DSML.header(k, s).Some? ensures Cuts(DSML.header(k, s).value, s) {
      HeaderCuts(k, s);
    }
  }

  type Syntax = x: RawSyntax | ValidSyntax(x) witness (DsmlIsValid(); DSML)

  /** The text before the leftmost opening tag, and that tag. */
  function FindHeader(x: Syntax, k: Kind, s: Text): (r: Option<(Text, Header)>)
    ensures r.Some? ==> |r.value.1.rest| < |s|
  {
    if s == "" then None
    else
      var h := x.header(k, s);
      if h.Some? then assert Cuts(h.value, s); Some(("", h.value))
      else
        var r := FindHeader(x, k, s[1..]);
        if r.None? then None else Some(([s[0]] + r.value.0, r.value.1))
  }

  lemma {:induction false} FindHeaderJoins(x: Syntax, k: Kind, s: Text)
    requires FindHeader(x, k, s).Some?
    ensures var (gap, h) := FindHeader(x, k, s).value;
            s == gap + (h.tag + h.rest) && h.tag != "" && x.header(k, h.tag + h.rest) == Some(h)
  {
    if x.header(k, s).Some? {
      assert Cuts(x.header(k, s).value, s);
    } else {
      FindHeaderJoins(x, k, s[1..]);
    }
  }

  /** Text that cannot start a tag is skipped. */
  lemma {:induction false} FindHeaderSkips(x: Syntax, k: Kind, s: Text, t: Text)
    requires forall j :: 0 <= j < |s| ==> s[j] != '<'
    ensures FindHeader(x, k, t).None? ==> FindHeader(x, k, s + t).None?
    ensures FindHeader(x, k, t).Some? ==>
              FindHeader(x, k, s + t) == Some((s + FindHeader(x, k, t).value.0, FindHeader(x, k, t).value.1))
  {
    if s == "" {
      assert s + t == t;
      if FindHeader(x, k, t).Some? {
        assert s + FindHeader(x, k, t).value.0 == FindHeader(x, k, t).value.0;
      }
    } else {
      var u := s + t;
      assert u[1..] == s[1..] + t && u[0] == s[0];
      FindHeaderSkips(x, k, s[1..], t);
      if FindHeader(x, k, t).Some? {
        assert [s[0]] + (s[1..] + FindHeader(x, k, t).value.0) == s + FindHeader(x, k, t).value.0;
      }
    }
  }
}
