/**
 The gateway's markup written out character by character (internal/upstream/dsml.go), and that
 the repair reads back exactly what was written.
 */
module MarkupWritten {
  import opened Common
  import opened MarkupText
  import opened MarkupBlock
  import opened MarkupScan

  /** Two full-width bars, in UTF-8. */
  const BARS: Text := [0xef as char, 0xbd as char, 0x9c as char, 0xef as char, 0xbd as char, 0x9c as char]
  const BLOCK_START: Text := "<" + BARS + "DSML" + BARS + " calls>"
  const BLOCK_END: Text := "</" + BARS + "DSML" + BARS + " calls>"
  const INVOKE_END: Text := "</" + BARS + "DSML" + BARS + " invoke>"
  const PARAMETER_END: Text := "</" + BARS + "DSML" + BARS + " parameter>"

  function Gateway(): Syntax {
    DsmlIsValid();
    DSML
  }

  // ------------------------------------------------------------ one tag

  /** The five characters that `\s` matches. */
  predicate Spaces(s: Text) {
    forall i :: 0 <= i < |s| ==> s[i] == ' ' || s[i] == '\t' || s[i] == '\n' || s[i] == '\r' || s[i] as int == 12
  }

  /** The `string` attribute with the white space in front of it. */
  datatype Attr = Absent | Stated(lead: Text, value: bool)

  /** An opening tag: its name, its attribute, and white space wherever some is permitted. */
  datatype Tag = Tag(lead: Text, between: Text, name: Text, attr: Attr, trail: Text)

  predicate TagOK(k: Kind, g: Tag) {
    && Spaces(g.lead) && g.lead != "" && Spaces(g.between) && g.between != "" && Spaces(g.trail)
    && (forall i :: 0 <= i < |g.name| ==> g.name[i] != '"')
    && (g.attr.Stated? ==> k.Parameter? && Spaces(g.attr.lead) && g.attr.lead != "")
  }

  function Written(k: Kind, g: Tag, rest: Text): Text {
    "<" + BARS + "DSML" + BARS + (g.lead + ((if k.Invoke? then "invoke" else "parameter") + (g.between + ("name=\"" + (g.name + Behind(g, rest))))))
  }

  /** The tag from the closing quote of its name on. */
  function Behind(g: Tag, rest: Text): Text {
    "\"" + match g.attr
           case Absent => g.trail + (">" + rest)
           case Stated(lead, value) => lead + ((if value then "string=\"true\"" else "string=\"false\"") + (g.trail + (">" + rest)))
  }

  function IsString(g: Tag): bool {
    g.attr.Stated? && g.attr.value
  }

  lemma Front2(a: Text, b: Text)
    ensures a <= a + b && (a + b)[|a|..] == b
  {
  }

  lemma {:induction false} SpacesSkipped(sp: Text, t: Text)
    requires Spaces(sp) && (t == "" || !IsSpace(t[0]))
    ensures SkipSpace(sp + t) == t
  {
    if sp == "" {
      assert sp + t == t;
    } else {
      assert (sp + t)[1..] == sp[1..] + t;
      SpacesSkipped(sp[1..], t);
    }
  }

  lemma SpacedRead(sp: Text, literal: Text, t: Text)
    requires Spaces(sp) && sp != "" && literal != "" && !IsSpace(literal[0])
    ensures AfterSpaced(sp + (literal + t), literal) == Some(t)
  {
    SpacesSkipped(sp, literal + t);
    Front2(literal, t);
  }

  /** White space that is followed by something else. */
  lemma SpacedMissed(sp: Text, literal: Text, t: Text)
    requires Spaces(sp) && (t == "" || !IsSpace(t[0])) && !(literal <= t)
    ensures AfterSpaced(sp + t, literal) == None
  {
    SpacesSkipped(sp, t);
  }

  lemma {:induction false} NameRead(name: Text, t: Text)
    requires forall i :: 0 <= i < |name| ==> name[i] != '"'
    ensures Split(name + ("\"" + t), "\"") == Some((name, t))
  {
    if name == "" {
      assert name + ("\"" + t) == "\"" + t;
      Front2("\"", t);
    } else {
      var s := name + ("\"" + t);
      assert s[1..] == name[1..] + ("\"" + t) && s[0] == name[0] && !("\"" <= s);
      NameRead(name[1..], t);
      assert [name[0]] + name[1..] == name;
    }
  }

  lemma AttributeRead(k: Kind, g: Tag, rest: Text)
    requires TagOK(k, g)
    ensures var s := Behind(g, rest)[1..];
            Attribute(k, s) == (if g.attr.Absent? then (s, false) else (g.trail + (">" + rest), g.attr.value))
  {
    var yes, no := "string=\"true\"", "string=\"false\"";
    match g.attr
    case Absent =>
      assert Behind(g, rest)[1..] == g.trail + (">" + rest);
      SpacedMissed(g.trail, yes, ">" + rest);
      SpacedMissed(g.trail, no, ">" + rest);
    case Stated(lead, value) =>
      var t := g.trail + (">" + rest);
      if value {
        assert Behind(g, rest)[1..] == lead + (yes + t);
        SpacedRead(lead, yes, t);
      } else {
        assert Behind(g, rest)[1..] == lead + (no + t);
        SpacedRead(lead, no, t);
        assert yes[8] == 't' && (no + t)[8] == 'f';
        SpacedMissed(lead, yes, no + t);
      }
  }

  lemma TailRead(k: Kind, g: Tag, rest: Text)
    requires TagOK(k, g)
    ensures MatchName(k, g.name + Behind(g, rest)) == Some(Name(rest, g.name, IsString(g)))
  {
    var s := Behind(g, rest)[1..];
    assert Behind(g, rest) == "\"" + s;
    NameRead(g.name, s);
    AttributeRead(k, g, rest);
    SpacesSkipped(g.trail, ">" + rest);
    Front2(">", rest);
    if g.attr.Absent? {
      assert s == g.trail + (">" + rest);
    }
  }

  lemma Glue(a: Text, b: Text, c: Text, d: Text, e: Text, t: Text)
    ensures a + (b + (c + (d + (e + t)))) == (a + (b + (c + (d + e)))) + t
  {
  }

  function TagText(k: Kind, g: Tag): Text {
    Written(k, g, "")
  }

  lemma WrittenJoins(k: Kind, g: Tag, rest: Text)
    ensures Written(k, g, rest) == TagText(k, g) + rest
  {
    BehindJoins(g, rest);
    var word := if k.Invoke? then "invoke" else "parameter";
    assert g.name + (Behind(g, "") + rest) == (g.name + Behind(g, "")) + rest;
    Glue("<" + BARS + "DSML" + BARS + g.lead, word, g.between, "name=\"", g.name + Behind(g, ""), rest);
  }

  lemma BehindJoins(g: Tag, rest: Text)
    ensures Behind(g, rest) == Behind(g, "") + rest
  {
    assert ">" + "" == ">" && g.trail + (">" + rest) == (g.trail + ">") + rest;
  }

  /** A tag that is written out is matched with exactly its name, its flag and what follows it. */
  lemma HeaderReads(k: Kind, g: Tag, rest: Text)
    requires TagOK(k, g)
    ensures MatchHeader(k, Written(k, g, rest)) == Some(Header(TagText(k, g), rest, g.name, IsString(g)))
  {
    var s := Written(k, g, rest);
    var word := if k.Invoke? then "invoke" else "parameter";
    var c := g.name + Behind(g, rest);
    var b := g.between + ("name=\"" + c);
    assert s == TAG + (g.lead + (word + b));
    Front2(TAG, g.lead + (word + b));
    SpacedRead(g.lead, word, b);
    SpacedRead(g.between, "name=\"", c);
    TailRead(k, g, rest);
    WrittenJoins(k, g, rest);
    assert s[..|s| - |rest|] == TagText(k, g) && Ending(s, |rest|) == rest;
  }

  // ------------------------------------------------------------ every match was written so

  lemma {:induction false} SkippedIsSpaces(s: Text) returns (sp: Text)
    ensures s == sp + SkipSpace(s) && Spaces(sp)
    ensures s != "" && IsSpace(s[0]) ==> sp != ""
  {
    if s != "" && IsSpace(s[0]) {
      var more := SkippedIsSpaces(s[1..]);
      sp := [s[0]] + more;
      assert s == [s[0]] + s[1..];
    } else {
      sp := "";
    }
  }

  lemma SpacedParts(s: Text, literal: Text) returns (sp: Text)
    requires AfterSpaced(s, literal).Some?
    ensures Spaces(sp) && sp != "" && s == sp + (literal + AfterSpaced(s, literal).value)
  {
    sp := SkippedIsSpaces(s);
  }

  lemma NameHasNoQuote(s: Text)
    requires Split(s, "\"").Some?
    ensures var name := Split(s, "\"").value.0; forall i :: 0 <= i < |name| ==> name[i] != '"'
  {
    var name := Split(s, "\"").value.0;
    SplitJoins(s, "\"");
    forall i | 0 <= i < |name| ensures name[i] != '"' {
      if name[i] == '"' {
        SplitIsFirst(s, "\"", i);
      }
    }
  }

  lemma AttributeParts(k: Kind, s: Text) returns (a: Attr)
    ensures a.Stated? ==> k.Parameter? && Spaces(a.lead) && a.lead != ""
    ensures Attribute(k, s).1 == (a.Stated? && a.value)
    ensures s == match a
                 case Absent => Attribute(k, s).0
                 case Stated(lead, value) => lead + ((if value then "string=\"true\"" else "string=\"false\"") + Attribute(k, s).0)
  {
    a := Absent;
    if k.Parameter? {
      if AfterSpaced(s, "string=\"true\"").Some? {
        var sp := SpacedParts(s, "string=\"true\"");
        a := Stated(sp, true);
      } else if AfterSpaced(s, "string=\"false\"").Some? {
        var sp := SpacedParts(s, "string=\"false\"");
        a := Stated(sp, false);
      }
    }
  }

  lemma ClosedParts(s: Text) returns (trail: Text)
    requires After(SkipSpace(s), ">").Some?
    ensures Spaces(trail) && s == trail + (">" + After(SkipSpace(s), ">").value)
  {
    trail := SkippedIsSpaces(s);
  }

  /** The parts of a matched tail, put together again. */
  lemma TailJoins(k: Kind, s: Text, g: Tag, rest: Text)
    requires Split(s, "\"").Some? && g.name == Split(s, "\"").value.0
    requires var q := Split(s, "\"").value.1;
             && Attribute(k, q) == (g.trail + (">" + rest), IsString(g))
             && q == match g.attr
                     case Absent => Attribute(k, q).0
                     case Stated(lead, value) => lead + ((if value then "string=\"true\"" else "string=\"false\"") + Attribute(k, q).0)
    ensures s == g.name + Behind(g, rest)
  {
    SplitJoins(s, "\"");
  }

  lemma TailParts(k: Kind, s: Text, lead: Text, between: Text) returns (g: Tag)
    requires MatchName(k, s).Some?
    requires Spaces(lead) && lead != "" && Spaces(between) && between != ""
    ensures TagOK(k, g) && g.lead == lead && g.between == between
    ensures s == g.name + Behind(g, MatchName(k, s).value.rest)
  {
    var q := Split(s, "\"").value;
    NameHasNoQuote(s);
    var a := AttributeParts(k, q.1);
    var trail := ClosedParts(Attribute(k, q.1).0);
    g := Tag(lead, between, q.0, a, trail);
    TailJoins(k, s, g, MatchName(k, s).value.rest);
  }

  lemma HeaderJoins(k: Kind, s: Text, g: Tag, b: Text, c: Text, rest: Text)
    requires s == TAG + (g.lead + (Word(k) + b)) && b == g.between + ("name=\"" + c) && c == g.name + Behind(g, rest)
    ensures s == Written(k, g, rest)
  {
    assert TAG + (g.lead + (Word(k) + b)) == "<" + BARS + "DSML" + BARS + (g.lead + (Word(k) + b));
  }

  /** Whatever is matched was written out as such a tag, in front of what is left. */
  lemma HeaderIsWritten(k: Kind, s: Text) returns (g: Tag)
    requires MatchHeader(k, s).Some?
    ensures TagOK(k, g) && s == Written(k, g, MatchHeader(k, s).value.rest)
    ensures MatchHeader(k, s).value == Header(TagText(k, g), MatchHeader(k, s).value.rest, g.name, IsString(g))
  {
    var a := After(s, TAG).value;
    var lead := SpacedParts(a, Word(k));
    var b := AfterSpaced(a, Word(k)).value;
    var between := SpacedParts(b, "name=\"");
    var c := AfterSpaced(b, "name=\"").value;
    g := TailParts(k, c, lead, between);
    var rest := MatchName(k, c).value.rest;
    HeaderJoins(k, s, g, b, c, rest);
    HeaderReads(k, g, rest);
  }

  // ------------------------------------------------------------ marks that cannot overlap

  /** The text does not contain `p`. */
  ghost predicate Free(p: Text, s: Text) {
    forall i :: 0 <= i <= |s| ==> !(p <= s[i..])
  }

  /** An end mark: "</" in front, ">" at the end, and neither of them, nor a quote, between. */
  predicate IsMark(p: Text) {
    && |p| >= 3 && p[0] == '<' && p[1] == '/' && p[|p| - 1] == '>'
    && forall i :: 1 <= i < |p| - 1 ==> p[i] != '<' && p[i] != '>' && p[i] != '"'
  }

  lemma Differs(p: Text, s: Text, i: nat, j: nat)
    requires j < |p| && i <= |s| && (i + j < |s| ==> p[j] != s[i + j])
    ensures !(p <= s[i..])
  {
  }

  lemma FreeTail(p: Text, b: Text)
    requires Free(p, b) && b != ""
    ensures Free(p, b[1..]) && !(p <= b)
  {
    assert b[0..] == b && !(p <= b[0..]);
    forall i | 0 <= i <= |b[1..]| ensures !(p <= b[1..][i..]) {
      assert b[1..][i..] == b[i + 1..];
    }
  }

  /** The text is cut at the first mark. */
  lemma {:induction false} CutAtMark(p: Text, b: Text, rest: Text)
    requires IsMark(p) && Free(p, b)
    ensures Split(b + (p + rest), p) == Some((b, rest))
  {
    var s := b + (p + rest);
    if b == "" {
      assert s == p + rest;
      Front2(p, rest);
    } else {
      FreeTail(p, b);
      NotAtFront(p, b, rest);
      CutAtMark(p, b[1..], rest);
      assert s[1..] == b[1..] + (p + rest) && [b[0]] + b[1..] == b && s[0] == b[0];
    }
  }

  lemma NotAtFront(p: Text, b: Text, rest: Text)
    requires IsMark(p) && b != "" && !(p <= b)
    ensures !(p <= b + (p + rest))
  {
    var s := b + (p + rest);
    if |b| < |p| {
      assert s[0..] == s && s[|b|] == '<';
      Differs(p, s, 0, |b|);
    } else {
      assert s[..|p|] == b[..|p|];
    }
  }

  /** The two texts meet where no mark can cross. */
  predicate Meets(a: Text, b: Text) {
    b == "" || b[0] == '<' || b[0] == '"' || (a != "" && (a[|a| - 1] == '>' || a[|a| - 1] == '"'))
  }

  /** Joined texts contain a mark only if one of them does. */
  lemma FreeJoin(p: Text, a: Text, b: Text)
    requires IsMark(p) && Free(p, a) && Free(p, b) && Meets(a, b)
    ensures Free(p, a + b)
  {
    var s := a + b;
    forall i | 0 <= i <= |s| ensures !(p <= s[i..]) {
      if |a| <= i {
        assert s[i..] == b[i - |a|..];
      } else if i + |p| <= |a| {
        assert s[i..][..|p|] == a[i..][..|p|] && !(p <= a[i..]);
      } else if i + |p| <= |s| {
        if b[0] == '<' || b[0] == '"' {
          Differs(p, s, i, |a| - i);
        } else {
          Differs(p, s, i, |a| - 1 - i);
        }
      }
    }
  }

  lemma NoLessIsFree(p: Text, s: Text)
    requires IsMark(p) && forall i :: 0 <= i < |s| ==> s[i] != '<'
    ensures Free(p, s)
  {
    forall i | 0 <= i <= |s| ensures !(p <= s[i..]) {
      Differs(p, s, i, 0);
    }
  }

  lemma BlankIsFree(p: Text, s: Text)
    requires IsMark(p) && Blank(s)
    ensures Free(p, s)
  {
    forall i | 0 <= i < |s| ensures s[i] != '<' {
      BlankHasNoTag(s, i);
    }
    NoLessIsFree(p, s);
  }

  /** A text whose only '<' is its first character is free of a mark that it does not start with. */
  lemma OneLessIsFree(p: Text, s: Text)
    requires IsMark(p) && !(p <= s) && forall i :: 1 <= i < |s| ==> s[i] != '<'
    ensures Free(p, s)
  {
    forall i | 0 <= i <= |s| ensures !(p <= s[i..]) {
      if i == 0 {
        assert s[0..] == s;
      } else {
        Differs(p, s, i, 0);
      }
    }
  }

  lemma OtherMarkIsFree(p: Text, q: Text)
    requires IsMark(p) && IsMark(q) && p != q
    ensures Free(p, q)
  {
    if |p| < |q| {
      assert q[0..] == q;
      Differs(p, q, 0, |p| - 1);
    }
    OneLessIsFree(p, q);
  }

  lemma Marks()
    ensures IsMark(BLOCK_END) && IsMark(INVOKE_END) && IsMark(PARAMETER_END)
    ensures BLOCK_END != INVOKE_END && BLOCK_END != PARAMETER_END && INVOKE_END != PARAMETER_END
    ensures BLOCK_START == OPEN && BLOCK_END == CLOSE && INVOKE_END == Closer(Invoke) && PARAMETER_END == Closer(Parameter)
  {
    assert BLOCK_END[19] == 'c' && INVOKE_END[19] == 'i' && PARAMETER_END[19] == 'p';
  }

  /** A tag contains a mark only if its name does. */
  lemma TagIsFree(p: Text, k: Kind, g: Tag)
    requires IsMark(p) && TagOK(k, g) && Free(p, g.name)
    ensures Free(p, TagText(k, g)) && TagText(k, g)[|TagText(k, g)| - 1] == '>' && TagText(k, g)[0] == '<'
  {
    var a := "<" + BARS + "DSML" + BARS + (g.lead + ((if k.Invoke? then "invoke" else "parameter") + (g.between + "name=\"")));
    var b := Behind(g, "");
    assert TagText(k, g) == a + (g.name + b);
    assert a[1] == BARS[0] && p[1] == '/';
    assert a[0..] == a;
    Differs(p, a, 0, 1);
    OneLessIsFree(p, a);
    NoLessIsFree(p, b);
    FreeJoin(p, g.name, b);
    FreeJoin(p, a, g.name + b);
  }

  // ------------------------------------------------------------ whole blocks

  datatype WrittenParam = WrittenParam(gap: Text, tag: Tag, value: Text)

  datatype WrittenCall = WrittenCall(gap: Text, tag: Tag, params: seq<WrittenParam>, tail: Text)

  function ParamsText(ps: seq<WrittenParam>, tail: Text): Text {
    if ps == [] then tail
    else ps[0].gap + (TagText(Parameter, ps[0].tag) + (ps[0].value + (PARAMETER_END + ParamsText(ps[1..], tail))))
  }

  function CallsText(cs: seq<WrittenCall>, tail: Text): Text {
    if cs == [] then tail
    else cs[0].gap + (TagText(Invoke, cs[0].tag) + (ParamsText(cs[0].params, cs[0].tail) + (INVOKE_END + CallsText(cs[1..], tail))))
  }

  /** Neither the name nor the value contains an end mark that would cut the call short. */
  ghost predicate ParamOK(p: WrittenParam) {
    && Blank(p.gap) && TagOK(Parameter, p.tag) && Free(PARAMETER_END, p.value)
    && Free(INVOKE_END, p.tag.name) && Free(INVOKE_END, p.value)
    && Free(BLOCK_END, p.tag.name) && Free(BLOCK_END, p.value)
  }

  ghost predicate CallOK(allowed: set<Text>, c: WrittenCall) {
    && Blank(c.gap) && Blank(c.tail) && TagOK(Invoke, c.tag) && NameOK(allowed, c.tag.name) && Free(BLOCK_END, c.tag.name)
    && forall i :: 0 <= i < |c.params| ==> ParamOK(c.params[i])
  }

  /** Such an element contains a mark only if one of its parts does. */
  lemma ElementIsFree(p: Text, gap: Text, k: Kind, g: Tag, body: Text, end: Text, rest: Text)
    requires IsMark(p) && IsMark(end) && p != end && Blank(gap) && TagOK(k, g)
    requires Free(p, g.name) && Free(p, body) && Free(p, rest)
    ensures Free(p, gap + (TagText(k, g) + (body + (end + rest))))
  {
    OtherMarkIsFree(p, end);
    FreeJoin(p, end, rest);
    FreeJoin(p, body, end + rest);
    TagIsFree(p, k, g);
    FreeJoin(p, TagText(k, g), body + (end + rest));
    BlankIsFree(p, gap);
    assert (TagText(k, g) + (body + (end + rest)))[0] == '<';
    FreeJoin(p, gap, TagText(k, g) + (body + (end + rest)));
  }

  lemma {:induction false} ParamsAreFree(p: Text, ps: seq<WrittenParam>, tail: Text)
    requires (p == INVOKE_END || p == BLOCK_END) && Blank(tail) && forall i :: 0 <= i < |ps| ==> ParamOK(ps[i])
    ensures Free(p, ParamsText(ps, tail))
  {
    Marks();
    if ps == [] {
      BlankIsFree(p, tail);
    } else {
      ParamsAreFree(p, ps[1..], tail);
      assert ParamOK(ps[0]);
      ElementIsFree(p, ps[0].gap, Parameter, ps[0].tag, ps[0].value, PARAMETER_END, ParamsText(ps[1..], tail));
    }
  }

  lemma {:induction false} CallsAreFree(allowed: set<Text>, cs: seq<WrittenCall>, tail: Text)
    requires Blank(tail) && forall i :: 0 <= i < |cs| ==> CallOK(allowed, cs[i])
    ensures Free(BLOCK_END, CallsText(cs, tail))
  {
    Marks();
    if cs == [] {
      BlankIsFree(BLOCK_END, tail);
    } else {
      CallsAreFree(allowed, cs[1..], tail);
      assert CallOK(allowed, cs[0]);
      ParamsAreFree(BLOCK_END, cs[0].params, cs[0].tail);
      ElementIsFree(BLOCK_END, cs[0].gap, Invoke, cs[0].tag, ParamsText(cs[0].params, cs[0].tail), INVOKE_END, CallsText(cs[1..], tail));
    }
  }

  // ------------------------------------------------------------ reading them back

  function ItemOf(k: Kind, gap: Text, g: Tag, body: Text): Item {
    Item(gap, TagText(k, g), g.name, IsString(g), body)
  }

  lemma ElementReads(k: Kind, gap: Text, g: Tag, body: Text, rest: Text)
    requires Blank(gap) && TagOK(k, g) && Free(if k.Invoke? then INVOKE_END else PARAMETER_END, body)
    ensures ItemOK(Gateway(), k, ItemOf(k, gap, g, body), rest)
  {
    Marks();
    var end := if k.Invoke? then INVOKE_END else PARAMETER_END;
    WrittenJoins(k, g, body + (end + rest));
    HeaderReads(k, g, body + (end + rest));
    CutAtMark(end, body, rest);
    NotEmpty(k, g);
  }

  lemma NotEmpty(k: Kind, g: Tag)
    ensures TagText(k, g) != ""
  {
  }

  function ParamItem(p: WrittenParam): Item {
    ItemOf(Parameter, p.gap, p.tag, p.value)
  }

  function CallItem(c: WrittenCall): Item {
    ItemOf(Invoke, c.gap, c.tag, ParamsText(c.params, c.tail))
  }

  function ParamItems(ps: seq<WrittenParam>): (r: seq<Item>)
    ensures |r| == |ps|
  {
    seq(|ps|, i requires 0 <= i < |ps| => ParamItem(ps[i]))
  }

  function CallItems(cs: seq<WrittenCall>): (r: seq<Item>)
    ensures |r| == |cs|
  {
    seq(|cs|, i requires 0 <= i < |cs| => CallItem(cs[i]))
  }

  lemma CloserIs(k: Kind)
    ensures Gateway().closer(k) == if k.Invoke? then INVOKE_END else PARAMETER_END
  {
    Marks();
  }

  lemma BodyIsFree(allowed: set<Text>, c: WrittenCall)
    requires CallOK(allowed, c)
    ensures Free(INVOKE_END, ParamsText(c.params, c.tail))
  {
    Marks();
    ParamsAreFree(INVOKE_END, c.params, c.tail);
  }

  /** One more element in front of a text that is well formed. */
  lemma OneMoreElement(k: Kind, it: Item, items: seq<Item>, tail: Text, rest: Text)
    requires WellFormed(Gateway(), k, items, tail) && Render(Gateway(), k, items, tail) == rest && ItemOK(Gateway(), k, it, rest)
    ensures WellFormed(Gateway(), k, [it] + items, tail)
    ensures Render(Gateway(), k, [it] + items, tail) == it.gap + (it.header + (it.body + (Gateway().closer(k) + rest)))
  {
    assert ([it] + items)[1..] == items;
  }

  lemma ParamReads(p: WrittenParam, rest: Text)
    requires ParamOK(p)
    ensures ItemOK(Gateway(), Parameter, ParamItem(p), rest)
  {
    ElementReads(Parameter, p.gap, p.tag, p.value, rest);
  }

  lemma CallReads(allowed: set<Text>, c: WrittenCall, rest: Text)
    requires CallOK(allowed, c)
    ensures ItemOK(Gateway(), Invoke, CallItem(c), rest)
  {
    BodyIsFree(allowed, c);
    ElementReads(Invoke, c.gap, c.tag, ParamsText(c.params, c.tail), rest);
  }

  lemma ParamItemsSplit(ps: seq<WrittenParam>)
    requires ps != []
    ensures ParamItems(ps) == [ParamItem(ps[0])] + ParamItems(ps[1..])
  {
  }

  lemma ParamsSplit(ps: seq<WrittenParam>, tail: Text)
    requires ps != []
    ensures var it := ParamItem(ps[0]);
            ParamsText(ps, tail) == it.gap + (it.header + (it.body + (Gateway().closer(Parameter) + ParamsText(ps[1..], tail))))
  {
    CloserIs(Parameter);
  }

  lemma CallItemsSplit(cs: seq<WrittenCall>)
    requires cs != []
    ensures CallItems(cs) == [CallItem(cs[0])] + CallItems(cs[1..])
  {
  }

  lemma CallsSplit(cs: seq<WrittenCall>, tail: Text)
    requires cs != []
    ensures var it := CallItem(cs[0]);
            CallsText(cs, tail) == it.gap + (it.header + (it.body + (Gateway().closer(Invoke) + CallsText(cs[1..], tail))))
  {
    CloserIs(Invoke);
  }

  lemma {:induction false} ParamsRead(ps: seq<WrittenParam>, tail: Text)
    requires Blank(tail) && forall i :: 0 <= i < |ps| ==> ParamOK(ps[i])
    ensures Render(Gateway(), Parameter, ParamItems(ps), tail) == ParamsText(ps, tail)
    ensures WellFormed(Gateway(), Parameter, ParamItems(ps), tail)
  {
    if ps != [] {
      ParamsRead(ps[1..], tail);
      ParamReads(ps[0], ParamsText(ps[1..], tail));
      ParamItemsSplit(ps);
      ParamsSplit(ps, tail);
      OneMoreElement(Parameter, ParamItem(ps[0]), ParamItems(ps[1..]), tail, ParamsText(ps[1..], tail));
    }
  }

  lemma {:induction false} CallsRead(allowed: set<Text>, cs: seq<WrittenCall>, tail: Text)
    requires Blank(tail) && forall i :: 0 <= i < |cs| ==> CallOK(allowed, cs[i])
    ensures Render(Gateway(), Invoke, CallItems(cs), tail) == CallsText(cs, tail)
    ensures WellFormed(Gateway(), Invoke, CallItems(cs), tail)
  {
    if cs != [] {
      CallsRead(allowed, cs[1..], tail);
      CallReads(allowed, cs[0], CallsText(cs[1..], tail));
      CallItemsSplit(cs);
      CallsSplit(cs, tail);
      OneMoreElement(Invoke, CallItem(cs[0]), CallItems(cs[1..]), tail, CallsText(cs[1..], tail));
    }
  }

  /** The last parameter of the name that was written. */
  predicate IsLast(ps: seq<WrittenParam>, j: nat) {
    j < |ps| && forall i :: j < i < |ps| ==> ps[i].tag.name != ps[j].tag.name
  }

  /** The arguments are the parameters that were written: the same names, and for each the value
      written last, as a string exactly if it was marked as one. */
  ghost predicate Means(args: map<Text, Param>, ps: seq<WrittenParam>) {
    && (forall name :: name in args ==> exists j :: 0 <= j < |ps| && ps[j].tag.name == name)
    && (forall j: nat :: IsLast(ps, j) ==>
          ps[j].tag.name in args && args[ps[j].tag.name] == Param(ps[j].value, ps[j].tag.attr.Stated? && ps[j].tag.attr.value))
    && (forall j :: 0 <= j < |ps| ==> ps[j].tag.name in args)
  }

  lemma {:induction false} ArgumentsMean(ps: seq<WrittenParam>)
    ensures Means(Arguments(ParamItems(ps), map[]), ps)
    decreases |ps|
  {
    var args := Arguments(ParamItems(ps), map[]);
    forall name ensures name in args ==> exists j :: 0 <= j < |ps| && ps[j].tag.name == name {
      ArgumentsAreLast(ParamItems(ps), map[], name);
      LastIsWritten(ps, name);
    }
    forall j: nat | IsLast(ps, j)
      ensures ps[j].tag.name in args && args[ps[j].tag.name] == Param(ps[j].value, IsString(ps[j].tag))
    {
      ArgumentsAreLast(ParamItems(ps), map[], ps[j].tag.name);
      LastIsFound(ps, j);
    }
    forall j | 0 <= j < |ps| ensures ps[j].tag.name in args {
      ArgumentsAreLast(ParamItems(ps), map[], ps[j].tag.name);
      SomeIsFound(ps, j);
    }
  }

  lemma {:induction false} LastIsWritten(ps: seq<WrittenParam>, name: Text)
    ensures LastNamed(ParamItems(ps), name).Some? ==> exists j :: 0 <= j < |ps| && ps[j].tag.name == name
    decreases |ps|
  {
    if ps != [] {
      var n := |ps| - 1;
      assert ParamItems(ps)[..n] == ParamItems(ps[..n]);
      LastIsWritten(ps[..n], name);
    }
  }

  lemma {:induction false} LastIsFound(ps: seq<WrittenParam>, j: nat)
    requires IsLast(ps, j)
    ensures LastNamed(ParamItems(ps), ps[j].tag.name) == Some(Param(ps[j].value, IsString(ps[j].tag)))
    decreases |ps|
  {
    var n := |ps| - 1;
    if j < n {
      assert ParamItems(ps)[..n] == ParamItems(ps[..n]);
      LastIsFound(ps[..n], j);
    }
  }

  lemma {:induction false} SomeIsFound(ps: seq<WrittenParam>, j: nat)
    requires j < |ps|
    ensures LastNamed(ParamItems(ps), ps[j].tag.name).Some?
    decreases |ps|
  {
    var n := |ps| - 1;
    if j < n {
      assert ParamItems(ps)[..n] == ParamItems(ps[..n]);
      SomeIsFound(ps[..n], j);
    }
  }

  /** The calls that come out are the calls that were written. */
  ghost predicate SameCalls(calls: seq<Call>, cs: seq<WrittenCall>) {
    |calls| == |cs| && forall i :: 0 <= i < |cs| ==> calls[i].name == cs[i].tag.name && Means(calls[i].args, cs[i].params)
  }

  lemma ParamsMean(ps: seq<WrittenParam>, tail: Text)
    requires Blank(tail) && forall i :: 0 <= i < |ps| ==> ParamOK(ps[i])
    ensures Params(Gateway(), ParamsText(ps, tail)).Some? && Means(Params(Gateway(), ParamsText(ps, tail)).value, ps)
  {
    ParamsRead(ps, tail);
    ItemsComplete(Gateway(), Parameter, ParamItems(ps), tail);
    ArgumentsMean(ps);
  }

  /** A block that is written out from any calls with admissible names and values, with any
      permitted spacing, is converted into exactly these calls. */
  lemma BlockRoundTrip(allowed: set<Text>, cs: seq<WrittenCall>, tail: Text)
    requires cs != [] && Blank(tail) && forall i :: 0 <= i < |cs| ==> CallOK(allowed, cs[i])
    ensures var calls := Block(Gateway(), allowed, CallsText(cs, tail)); calls.Some? && SameCalls(calls.value, cs)
  {
    var items := CallItems(cs);
    CallsRead(allowed, cs, tail);
    forall i | 0 <= i < |cs|
      ensures NameOK(allowed, items[i].name) && Params(Gateway(), items[i].body).Some?
      ensures Means(Params(Gateway(), items[i].body).value, cs[i].params)
    {
      assert CallOK(allowed, cs[i]);
      ParamsMean(cs[i].params, cs[i].tail);
    }
    ItemsComplete(Gateway(), Invoke, items, tail);
    CallsOfIsExact(Gateway(), allowed, items);
  }

  /** Fed to the repair as a whole, between its markers, such a block comes out as its calls, and
      nothing else does. */
  lemma FeedRoundTrip(allowed: set<Text>, cs: seq<WrittenCall>, tail: Text)
    requires cs != [] && Blank(tail) && forall i :: 0 <= i < |cs| ==> CallOK(allowed, cs[i])
    ensures var r := Feeds(Gateway(), allowed, [BLOCK_START + (CallsText(cs, tail) + BLOCK_END)]);
            && SameCalls(CallsIn(r.pieces), cs)
            && Emitted(Gateway(), r.pieces) == "" && Pending(Gateway(), r.next) == ""
  {
    var inner := CallsText(cs, tail);
    Marks();
    BlockRoundTrip(allowed, cs, tail);
    CallsAreFree(allowed, cs, tail);
    CutAtMark(BLOCK_END, inner, "");
    assert BLOCK_END + "" == BLOCK_END;
    OneFeed(Gateway(), allowed, BLOCK_START + (inner + BLOCK_END));
    ScanOpened(Gateway(), allowed, inner + BLOCK_END);
    WholeBlock(Gateway(), allowed, inner);
    OneBlockOut(inner, Block(Gateway(), allowed, inner).value);
  }

  lemma OneBlockOut(inner: Text, calls: seq<Call>)
    ensures CallsIn([Converted(inner, calls)]) == calls && Emitted(Gateway(), [Converted(inner, calls)]) == ""
  {
    var ps, none := [Converted(inner, calls)], [];
    assert ps[1..] == none && CallsIn(none) == [] && Emitted(Gateway(), none) == "";
    assert calls + [] == calls;
  }

  lemma {:induction false} NotCut(p: Text, s: Text)
    requires p != "" && Free(p, s)
    ensures Split(s, p).None?
  {
    assert s[0..] == s && !(p <= s[0..]);
    if s != "" {
      forall i | 0 <= i <= |s[1..]| ensures !(p <= s[1..][i..]) {
        assert s[1..][i..] == s[i + 1..] && !(p <= s[i + 1..]);
      }
      NotCut(p, s[1..]);
    }
  }

  /** A block that is not closed is held back up to 256 KiB, and given back beyond. */
  lemma UnclosedBlock(allowed: set<Text>, s: Text)
    requires Free(BLOCK_END, s)
    ensures var r := Feeds(Gateway(), allowed, [BLOCK_START + s]);
            CallsIn(r.pieces) == []
            && if |s| <= 262_144 then Emitted(Gateway(), r.pieces) == "" && Pending(Gateway(), r.next) == BLOCK_START + s
               else Emitted(Gateway(), r.pieces) == BLOCK_START + s && Pending(Gateway(), r.next) == ""
  {
    Marks();
    NotCut(BLOCK_END, s);
    OneFeed(Gateway(), allowed, BLOCK_START + s);
    ScanOpened(Gateway(), allowed, s);
    OnePlainOut(BLOCK_START + s);
  }

  lemma OnePlainOut(t: Text)
    ensures CallsIn([Plain(t)]) == [] && Emitted(Gateway(), [Plain(t)]) == t
  {
    var ps, none := [Plain(t)], [];
    assert ps[1..] == none && CallsIn(none) == [] && Emitted(Gateway(), none) == "";
    assert t + "" == t;
  }

  // ------------------------------------------------------------ blank text and names

  /** The white-space characters of Unicode. */
  predicate White(c: int) {
    || 0x09 <= c <= 0x0d || c == 0x20 || c == 0x85 || c == 0xa0 || c == 0x1680 || 0x2000 <= c <= 0x200a
    || c == 0x2028 || c == 0x2029 || c == 0x202f || c == 0x205f || c == 0x3000
  }

  /** UTF-8 of a character below U+10000. */
  function Encoded(c: int): Text
    requires 0 <= c < 0x10000
  {
    if c < 0x80 then [c as char]
    else if c < 0x800 then [(0xc0 + c / 64) as char, (0x80 + c % 64) as char]
    else [(0xe0 + c / 4096) as char, (0x80 + c / 64 % 64) as char, (0x80 + c % 64) as char]
  }

  function Encode(cs: seq<int>): Text
    requires forall i :: 0 <= i < |cs| ==> White(cs[i])
  {
    if cs == [] then "" else assert White(cs[0]); Encoded(cs[0]) + Encode(cs[1..])
  }

  /** White space of two bytes and of three. */
  lemma WideFront(s: Text, c: int)
    requires White(c) && c >= 0x80 && Encoded(c) <= s
    ensures BlankLength(s) == |Encoded(c)|
  {
    assert s[0] == Encoded(c)[0] && s[1] == Encoded(c)[1];
    if c >= 0x800 {
      assert s[2] == Encoded(c)[2];
    }
  }

  lemma WhiteFront(s: Text, c: int)
    requires White(c) && Encoded(c) <= s
    ensures BlankLength(s) == |Encoded(c)|
  {
    if c >= 0x80 {
      WideFront(s, c);
    } else {
      assert s[0] == Encoded(c)[0];
    }
  }

  lemma FrontIsWhite(s: Text) returns (c: int)
    requires BlankLength(s) > 0
    ensures White(c) && s[..BlankLength(s)] == Encoded(c)
  {
    var n := BlankLength(s);
    if n == 1 {
      c := s[0] as int;
    } else if n == 2 {
      c := s[1] as int;
    } else {
      c := (s[0] as int - 0xe0) * 4096 + (s[1] as int - 0x80) * 64 + (s[2] as int - 0x80);
      assert s[..3] == [s[0], s[1], s[2]];
    }
  }

  lemma {:induction false} BlankIsEncoded(s: Text) returns (cs: seq<int>)
    requires Blank(s)
    ensures (forall i :: 0 <= i < |cs| ==> White(cs[i])) && s == Encode(cs)
    decreases |s|
  {
    cs := [];
    if s != "" {
      var n := BlankLength(s);
      var c := FrontIsWhite(s);
      var more := BlankIsEncoded(s[n..]);
      cs := [c] + more;
      assert cs[1..] == more && s == s[..n] + s[n..];
    }
  }

  lemma {:induction false} EncodedIsBlank(cs: seq<int>)
    requires forall i :: 0 <= i < |cs| ==> White(cs[i])
    ensures Blank(Encode(cs))
  {
    if cs != [] {
      EncodedIsBlank(cs[1..]);
      var s := Encode(cs);
      WhiteFront(s, cs[0]);
      assert s[|Encoded(cs[0])|..] == Encode(cs[1..]);
    }
  }

  /** The text is the encoding of some white-space characters. */
  ghost predicate OnlyWhite(s: Text) {
    exists cs: seq<int> :: (forall i :: 0 <= i < |cs| ==> White(cs[i])) && s == Encode(cs)
  }

  /** Blank text is the encoding of white-space characters, and nothing else. */
  lemma BlankIsWhite(s: Text)
    ensures Blank(s) <==> OnlyWhite(s)
  {
    if Blank(s) {
      var cs := BlankIsEncoded(s);
    }
    if OnlyWhite(s) {
      var cs: seq<int> :| (forall i :: 0 <= i < |cs| ==> White(cs[i])) && s == Encode(cs);
      EncodedIsBlank(cs);
    }
  }

  /** An ASCII letter, a digit or an underscore. */
  predicate Letter(c: char) {
    var n := c as int;
    48 <= n <= 57 || 65 <= n <= 90 || n == 95 || 97 <= n <= 122
  }

  /** A declared name if any are declared; else a letter, and up to 63 more letters, dots, colons
      and dashes. */
  lemma NameRule(allowed: set<Text>, name: Text)
    ensures (exists declared :: declared in allowed) ==> (NameOK(allowed, name) <==> name in allowed)
    ensures NameOK({}, name) <==>
              && 1 <= |name| <= 64 && Letter(name[0])
              && forall i :: 0 <= i < |name| ==> Letter(name[i]) || name[i] as int in {46, 58, 45}
  {
    if NameOK({}, name) {
      forall i | 0 <= i < |name| ensures Letter(name[i]) || name[i] as int in {46, 58, 45} {
      }
    }
  }
}
