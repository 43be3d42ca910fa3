/** The parser of one `calls` block of internal/upstream/dsml.go, and the grammar it decides. */
module MarkupBlock {
  import opened Common
  import opened MarkupText

  /** One tagged element together with the blank text in front of it. */
  datatype Item = Item(gap: Text, header: Text, name: Text, isString: bool, body: Text)

  // ------------------------------------------------------------ the grammar

  function Render(x: Syntax, k: Kind, items: seq<Item>, tail: Text): Text {
    if items == [] then tail
    else items[0].gap + (items[0].header + (items[0].body + (x.closer(k) + Render(x, k, items[1..], tail))))
  }

  /** The element reads as a tag up to its header and ends at its first closing tag. */
  predicate ItemOK(x: Syntax, k: Kind, it: Item, rest: Text) {
    var b := it.body + (x.closer(k) + rest);
    && Blank(it.gap) && it.header != ""
    && x.header(k, it.header + b) == Some(Header(it.header, b, it.name, it.isString))
    && Split(b, x.closer(k)) == Some((it.body, rest))
  }

  /** Only blank text and closed elements. */
  predicate WellFormed(x: Syntax, k: Kind, items: seq<Item>, tail: Text) {
    if items == [] then Blank(tail)
    else ItemOK(x, k, items[0], Render(x, k, items[1..], tail)) && WellFormed(x, k, items[1..], tail)
  }

  // ------------------------------------------------------------ the parser

  datatype Parsed = Parsed(items: seq<Item>, tail: Text)

  /** What the loops of parseMarkupBlock and parseMarkupParams find at the front of a text. */
  datatype Front = NoTag | Rejected | Element(item: Item, rest: Text)

  function Next(x: Syntax, k: Kind, s: Text): (f: Front)
    ensures f.Element? ==> |f.rest| < |s|
  {
    var found := FindHeader(x, k, s);
    if found.None? then NoTag
    else
      var (gap, h) := found.value;
      var cut := Split(h.rest, x.closer(k));
      if !Blank(gap) || cut.None? then Rejected
      else Element(Item(gap, h.tag, h.name, h.isString, cut.value.0), cut.value.1)
  }

  lemma NextForm(x: Syntax, k: Kind, s: Text)
    requires Next(x, k, s).Element?
    ensures var f := Next(x, k, s);
            && ItemOK(x, k, f.item, f.rest)
            && s == f.item.gap + (f.item.header + (f.item.body + (x.closer(k) + f.rest)))
  {
    FindHeaderJoins(x, k, s);
    SplitJoins(FindHeader(x, k, s).value.1.rest, x.closer(k));
  }

  function Items(x: Syntax, k: Kind, s: Text): Option<Parsed>
    decreases |s|
  {
    match Next(x, k, s)
    case NoTag => if Blank(s) then Some(Parsed([], s)) else None
    case Rejected => None
    case Element(it, rest) =>
      var more := Items(x, k, rest);
      if more.None? then None else Some(Parsed([it] + more.value.items, more.value.tail))
  }

  /** Whatever the parser accepts is well formed and renders back to the input. */
  lemma {:induction false} ItemsSound(x: Syntax, k: Kind, s: Text)
    requires Items(x, k, s).Some?
    ensures Render(x, k, Items(x, k, s).value.items, Items(x, k, s).value.tail) == s
    ensures WellFormed(x, k, Items(x, k, s).value.items, Items(x, k, s).value.tail)
    decreases |s|
  {
    var f := Next(x, k, s);
    if f.Element? {
      NextForm(x, k, s);
      ItemsSound(x, k, f.rest);
      assert Items(x, k, s).value.items[1..] == Items(x, k, f.rest).value.items;
    }
  }

  lemma BlankIsSkipped(x: Syntax, k: Kind, s: Text, t: Text)
    requires Blank(s)
    ensures FindHeader(x, k, t).None? ==> FindHeader(x, k, s + t).None?
    ensures FindHeader(x, k, t).Some? ==>
              FindHeader(x, k, s + t) == Some((s + FindHeader(x, k, t).value.0, FindHeader(x, k, t).value.1))
  {
    forall j | 0 <= j < |s| ensures s[j] != '<' {
      BlankHasNoTag(s, j);
    }
    FindHeaderSkips(x, k, s, t);
  }

  /** A well-formed element is found at the front, whatever follows it. */
  lemma NextIs(x: Syntax, k: Kind, it: Item, rest: Text)
    requires ItemOK(x, k, it, rest)
    ensures Next(x, k, it.gap + (it.header + (it.body + (x.closer(k) + rest)))) == Element(it, rest)
  {
    BlankIsSkipped(x, k, it.gap, it.header + (it.body + (x.closer(k) + rest)));
    assert it.gap + "" == it.gap;
  }

  /** Every well-formed text is accepted, with exactly its own elements. */
  lemma {:induction false} ItemsComplete(x: Syntax, k: Kind, items: seq<Item>, tail: Text)
    requires WellFormed(x, k, items, tail)
    ensures Items(x, k, Render(x, k, items, tail)) == Some(Parsed(items, tail))
  {
    if items == [] {
      BlankIsSkipped(x, k, tail, "");
      assert tail + "" == tail;
    } else {
      NextIs(x, k, items[0], Render(x, k, items[1..], tail));
      ItemsComplete(x, k, items[1..], tail);
      assert [items[0]] + items[1..] == items;
    }
  }

  // ------------------------------------------------------------ calls

  /** A parameter value: JSON text unless `isString` (or unless it does not parse). */
  datatype Param = Param(raw: Text, isString: bool)

  datatype Call = Call(name: Text, args: map<Text, Param>)

  function Arguments(items: seq<Item>, args: map<Text, Param>): map<Text, Param> {
    if items == [] then args
    else Arguments(items[1..], args[items[0].name := Param(items[0].body, items[0].isString)])
  }

  /** The last parameter of the name, if there is one. */
  function LastNamed(items: seq<Item>, name: Text): Option<Param> {
    if items == [] then None
    else
      var it := items[|items| - 1];
      if it.name == name then Some(Param(it.body, it.isString)) else LastNamed(items[..|items| - 1], name)
  }

  /** The arguments have the names of the parameters, each with the value given last. */
  lemma {:induction false} ArgumentsAreLast(items: seq<Item>, args: map<Text, Param>, name: Text)
    ensures var r := Arguments(items, args);
            match LastNamed(items, name)
            case Some(p) => name in r && r[name] == p
            case None => (name in r <==> name in args) && (name in args ==> r[name] == args[name])
    decreases |items|
  {
    if items != [] {
      ArgumentsAreLast(items[1..], args[items[0].name := Param(items[0].body, items[0].isString)], name);
      LastNamedFirst(items, name);
    }
  }

  lemma {:induction false} LastNamedFirst(items: seq<Item>, name: Text)
    requires items != []
    ensures LastNamed(items, name) ==
              if LastNamed(items[1..], name).Some? then LastNamed(items[1..], name)
              else if items[0].name == name then Some(Param(items[0].body, items[0].isString)) else None
    decreases |items|
  {
    if |items| > 1 {
      LastNamedFirst(items[..|items| - 1], name);
      assert items[1..][..|items| - 2] == items[..|items| - 1][1..];
    } else {
      assert items[1..] == [] && items[..0] == [];
    }
  }

  function Params(x: Syntax, body: Text): Option<map<Text, Param>> {
    var p := Items(x, Parameter, body);
    if p.None? then None else Some(Arguments(p.value.items, map[]))
  }

  predicate WordChar(c: char) {
    'a' <= c <= 'z' || 'A' <= c <= 'Z' || '0' <= c <= '9' || c == '_'
  }

  /** Strict test against the declared tools, or the weak test on the name's shape. */
  predicate NameOK(allowed: set<Text>, name: Text) {
    if allowed != {} then name in allowed
    else
      && 1 <= |name| <= 64 && WordChar(name[0])
      && forall i :: 1 <= i < |name| ==> WordChar(name[i]) || name[i] == '.' || name[i] == ':' || name[i] == '-'
  }

  function CallsOf(x: Syntax, allowed: set<Text>, items: seq<Item>): Option<seq<Call>> {
    if items == [] then Some([])
    else
      var args, more := Params(x, items[0].body), CallsOf(x, allowed, items[1..]);
      if !NameOK(allowed, items[0].name) || args.None? || more.None? then None
      else Some([Call(items[0].name, args.value)] + more.value)
  }

  function Invokes(x: Syntax, allowed: set<Text>, s: Text): Option<seq<Call>> {
    var p := Items(x, Invoke, s);
    if p.None? then None else CallsOf(x, allowed, p.value.items)
  }

  /** The calls of a block, if the block is nothing but calls. */
  function Block(x: Syntax, allowed: set<Text>, inner: Text): Option<seq<Call>> {
    var calls := Invokes(x, allowed, inner);
    if calls.Some? && calls.value != [] then calls else None
  }

  /** A block is converted exactly when it is a non-empty sequence of closed invokes with
      nothing but blank text between them, every name passes the strict or weak test, and
      every body is a sequence of closed parameters. */
  lemma BlockIsExact(x: Syntax, allowed: set<Text>, items: seq<Item>, tail: Text)
    requires WellFormed(x, Invoke, items, tail)
    ensures Block(x, allowed, Render(x, Invoke, items, tail)).Some? <==>
              && items != []
              && forall i :: 0 <= i < |items| ==> NameOK(allowed, items[i].name) && Params(x, items[i].body).Some?
  {
    ItemsComplete(x, Invoke, items, tail);
    CallsOfIsExact(x, allowed, items);
  }

  /** A converted block is well formed, and yields one call per invoke, in order. */
  lemma BlockHasForm(x: Syntax, allowed: set<Text>, inner: Text) returns (p: Parsed)
    requires Block(x, allowed, inner).Some?
    ensures WellFormed(x, Invoke, p.items, p.tail) && Render(x, Invoke, p.items, p.tail) == inner
    ensures |Block(x, allowed, inner).value| == |p.items|
    ensures forall i :: 0 <= i < |p.items| ==>
              && Block(x, allowed, inner).value[i].name == p.items[i].name
              && Params(x, p.items[i].body) == Some(Block(x, allowed, inner).value[i].args)
  {
    p := Items(x, Invoke, inner).value;
    ItemsSound(x, Invoke, inner);
    CallsOfIsExact(x, allowed, p.items);
  }

  lemma {:induction false} CallsOfIsExact(x: Syntax, allowed: set<Text>, items: seq<Item>)
    ensures CallsOf(x, allowed, items).Some? <==>
              forall i :: 0 <= i < |items| ==> NameOK(allowed, items[i].name) && Params(x, items[i].body).Some?
    ensures CallsOf(x, allowed, items).Some? ==>
              && |CallsOf(x, allowed, items).value| == |items|
              && forall i :: 0 <= i < |items| ==>
                   && CallsOf(x, allowed, items).value[i].name == items[i].name
                   && Params(x, items[i].body) == Some(CallsOf(x, allowed, items).value[i].args)
  {
    if items != [] {
      CallsOfIsExact(x, allowed, items[1..]);
      assert forall i :: 1 <= i < |items| ==> items[i] == items[1..][i - 1];
    }
  }

  // ------------------------------------------------------------ the loops

  method ParseParams(x: Syntax, body: Text) returns (r: Option<map<Text, Param>>)
    ensures r == Params(x, body)
  {
    var args, rest := map[], body;
    while true
      invariant |rest| <= |body|
      invariant Items(x, Parameter, body).Some? <==> Items(x, Parameter, rest).Some?
      invariant Items(x, Parameter, rest).Some? ==>
                  Params(x, body) == Some(Arguments(Items(x, Parameter, rest).value.items, args))
      decreases |rest|
    {
      match Next(x, Parameter, rest)
      case NoTag => return if Blank(rest) then Some(args) else None;
      case Rejected => return None;
      case Element(it, more) =>
        ghost var before := rest;
        args, rest := args[it.name := Param(it.body, it.isString)], more;
        assert Items(x, Parameter, rest).Some? ==>
            Items(x, Parameter, before).value.items[1..] == Items(x, Parameter, rest).value.items;
    }
    r := None;
  }

  /** One accepted invoke is followed by the calls of the rest. */
  lemma InvokesStep(x: Syntax, allowed: set<Text>, s: Text)
    requires Next(x, Invoke, s).Element?
    ensures var f := Next(x, Invoke, s);
            var args, more := Params(x, f.item.body), Invokes(x, allowed, f.rest);
            Invokes(x, allowed, s) ==
              if !NameOK(allowed, f.item.name) || args.None? || more.None? then None
              else Some([Call(f.item.name, args.value)] + more.value)
  {
    var f := Next(x, Invoke, s);
    if Items(x, Invoke, f.rest).Some? {
      assert Items(x, Invoke, s).value.items[1..] == Items(x, Invoke, f.rest).value.items;
    }
  }

  /** `whole` is the calls read so far followed by those of the text that is left. */
  predicate Remains(whole: Option<seq<Call>>, out: seq<Call>, left: Option<seq<Call>>) {
    if left.None? then whole.None? else whole == Some(out + left.value)
  }

  lemma RemainsStart(whole: Option<seq<Call>>)
    ensures Remains(whole, [], whole)
  {
    assert whole.Some? ==> [] + whole.value == whole.value;
  }

  lemma RemainsStep(whole: Option<seq<Call>>, out: seq<Call>, c: Call, more: Option<seq<Call>>)
    requires Remains(whole, out, if more.None? then None else Some([c] + more.value))
    ensures Remains(whole, out + [c], more)
  {
    assert more.Some? ==> out + ([c] + more.value) == (out + [c]) + more.value;
  }

  /** Behind the last invoke only blank text is accepted, and an element that does not parse
      rejects the whole text. */
  lemma InvokesEnd(x: Syntax, allowed: set<Text>, s: Text)
    requires !Next(x, Invoke, s).Element?
    ensures Invokes(x, allowed, s) == if Next(x, Invoke, s).NoTag? && Blank(s) then Some([]) else None
  {
  }

  method ParseBlock(x: Syntax, allowed: set<Text>, inner: Text) returns (r: Option<seq<Call>>)
    ensures r == Block(x, allowed, inner)
  {
    var out, rest := [], inner;
    var front := Next(x, Invoke, rest);
    RemainsStart(Invokes(x, allowed, inner));
    while front.Element?
      invariant |rest| <= |inner| && front == Next(x, Invoke, rest)
      invariant Remains(Invokes(x, allowed, inner), out, Invokes(x, allowed, rest))
      decreases |rest|
    {
      InvokesStep(x, allowed, rest);
      var args := ParseParams(x, front.item.body);
      if args.None? || !NameOK(allowed, front.item.name) {
        return None;
      }
      var call := Call(front.item.name, args.value);
      RemainsStep(Invokes(x, allowed, inner), out, call, Invokes(x, allowed, front.rest));
      out, rest := out + [call], front.rest;
      front := Next(x, Invoke, rest);
    }
    InvokesEnd(x, allowed, rest);
    if front.Rejected? || out == [] || !Blank(rest) {
      return None;
    }
    assert out + [] == out;
    return Some(out);
  }
}
