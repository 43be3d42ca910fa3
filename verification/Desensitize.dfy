/**
 The term-splitting loop of plugin/desensitize.go. Text is a sequence of runes; case folding
 maps each rune to the representative of its class, and the zero-width space is alone in its
 class.
 */
module Desensitize {
  import opened Common

  type Text = string

  const ZERO_WIDTH: char := 0x200b as char

  /** The compiled expression: literal alternatives, tried in order. */
  datatype Matcher = Matcher(fold: char -> char, alternatives: seq<Text>)

  predicate IsTerm(t: Text) {
    |t| >= 2 && ZERO_WIDTH !in t
  }

  ghost predicate Valid(m: Matcher) {
    && (forall c :: m.fold(c) == m.fold(ZERO_WIDTH) ==> c == ZERO_WIDTH)
    && (forall i :: 0 <= i < |m.alternatives| ==> IsTerm(m.alternatives[i]))
  }

  predicate EqualFold(fold: char -> char, a: Text, b: Text) {
    |a| == |b| && forall i :: 0 <= i < |a| ==> fold(a[i]) == fold(b[i])
  }

  // ------------------------------------------------------------ one pass

  predicate StartsWith(fold: char -> char, s: Text, t: Text) {
    |t| <= |s| && EqualFold(fold, t, s[..|t|])
  }

  /** The length of the first alternative that the text starts with. */
  function Match(fold: char -> char, alternatives: seq<Text>, s: Text): (r: Option<nat>)
    ensures r.Some? ==> r.value <= |s| && exists t :: t in alternatives && |t| == r.value && StartsWith(fold, s, t)
    ensures r.None? ==> forall t :: t in alternatives ==> !StartsWith(fold, s, t)
  {
    if alternatives == [] then None
    else if StartsWith(fold, s, alternatives[0]) then
      assert alternatives[0] in alternatives;
      Some(|alternatives[0]|)
    else
      var r := Match(fold, alternatives[1..], s);
      assert forall t :: t in alternatives <==> t == alternatives[0] || t in alternatives[1..];
      r
  }

  /** Leftmost matches, one after the other; behind the first rune of each a separator goes in. */
  function Pass(m: Matcher, s: Text): Text
    decreases |s|
  {
    if s == "" then ""
    else
      var n := Match(m.fold, m.alternatives, s);
      if n.None? || n.value == 0 then [s[0]] + Pass(m, s[1..])
      else [s[0]] + ([ZERO_WIDTH] + (s[1..n.value] + Pass(m, s[n.value..])))
  }

  /** Some alternative matches somewhere. */
  predicate Hits(m: Matcher, s: Text) {
    s != "" && (Match(m.fold, m.alternatives, s).Some? || Hits(m, s[1..]))
  }

  // ------------------------------------------------------------ termination

  /** Adjacent runes without a separator among them. */
  function Pairs(s: Text): nat {
    if |s| < 2 then 0 else Pairs(s[1..]) + if s[0] != ZERO_WIDTH && s[1] != ZERO_WIDTH then 1 else 0
  }

  /** The pairs of two texts joined: those of each, and the one across. */
  lemma {:induction false} PairsAppend(a: Text, b: Text)
    ensures Pairs(a + b) == Pairs(a) + Pairs(b) +
              if a != "" && b != "" && a[|a| - 1] != ZERO_WIDTH && b[0] != ZERO_WIDTH then 1 else 0
  {
    if a == "" {
      assert a + b == b;
    } else {
      assert (a + b)[1..] == a[1..] + b;
      PairsAppend(a[1..], b);
    }
  }

  lemma MatchIsTerm(m: Matcher, s: Text)
    requires Valid(m) && Match(m.fold, m.alternatives, s).Some?
    ensures var n := Match(m.fold, m.alternatives, s).value;
            2 <= n <= |s| && forall i :: 0 <= i < n ==> s[i] != ZERO_WIDTH
  {
    var n := Match(m.fold, m.alternatives, s).value;
    var t :| t in m.alternatives && |t| == n && StartsWith(m.fold, s, t);
    forall i | 0 <= i < n ensures s[i] != ZERO_WIDTH {
      assert m.fold(t[i]) == m.fold(s[..n][i]);
      assert t[i] in t;
    }
  }

  lemma FirstStays(m: Matcher, s: Text)
    requires s != ""
    ensures Pass(m, s) != "" && Pass(m, s)[0] == s[0]
  {
  }

  /** Splitting a match removes one pair and adds none. */
  lemma SplitPairs(c: char, body: Text, was: Text, rest: Text)
    requires c != ZERO_WIDTH && body != "" && body[0] != ZERO_WIDTH && body[|body| - 1] != ZERO_WIDTH
    requires (was == "" <==> rest == "") && (rest != "" ==> rest[0] == was[0])
    ensures Pairs([c] + ([ZERO_WIDTH] + (body + rest))) == Pairs([c] + (body + was)) - 1 - Pairs(was) + Pairs(rest)
  {
    PairsAppend([c], body + was);
    PairsAppend(body, was);
    PairsAppend(body, rest);
    PairsAppend([ZERO_WIDTH], body + rest);
    PairsAppend([c], [ZERO_WIDTH] + (body + rest));
  }

  lemma Pieces(s: Text, n: nat)
    requires 2 <= n <= |s| && forall i :: 0 <= i < n ==> s[i] != ZERO_WIDTH
    ensures s == [s[0]] + (s[1..n] + s[n..]) && |s[1..n]| == n - 1
    ensures s[0] != ZERO_WIDTH && s[1..n][0] != ZERO_WIDTH && s[1..n][n - 2] != ZERO_WIDTH
  {
  }

  /** A pass never adds a pair, and one that changes something removes one. */
  lemma {:induction false} PassSplits(m: Matcher, s: Text)
    requires Valid(m)
    ensures Pairs(Pass(m, s)) <= Pairs(s) && (Hits(m, s) ==> Pairs(Pass(m, s)) < Pairs(s))
    decreases |s|
  {
    if s != "" {
      var n := Match(m.fold, m.alternatives, s);
      if n.Some? {
        MatchIsTerm(m, s);
        Pieces(s, n.value);
        PassSplits(m, s[n.value..]);
        if s[n.value..] != "" {
          FirstStays(m, s[n.value..]);
        }
        SplitPairs(s[0], s[1..n.value], s[n.value..], Pass(m, s[n.value..]));
      } else {
        PassSplits(m, s[1..]);
        if s[1..] != "" {
          FirstStays(m, s[1..]);
        }
        PairsAppend([s[0]], Pass(m, s[1..]));
        PairsAppend([s[0]], s[1..]);
        assert [s[0]] + s[1..] == s;
      }
    }
  }

  // ------------------------------------------------------------ the fixpoint

  /** Passes until one changes nothing. */
  ghost function Replace(m: Matcher, s: Text): Text
    requires Valid(m)
    decreases Pairs(s)
  {
    if Hits(m, s) then
      PassSplits(m, s);
      Replace(m, Pass(m, s))
    else s
  }

  /** The text with all separators erased. */
  function Erase(s: Text): Text {
    if s == "" then "" else (if s[0] == ZERO_WIDTH then "" else [s[0]]) + Erase(s[1..])
  }

  lemma {:induction false} EraseAppend(a: Text, b: Text)
    ensures Erase(a + b) == Erase(a) + Erase(b)
  {
    if a == "" {
      assert a + b == b;
    } else {
      assert (a + b)[1..] == a[1..] + b;
      EraseAppend(a[1..], b);
    }
  }

  lemma {:induction false} PassErases(m: Matcher, s: Text)
    ensures Erase(Pass(m, s)) == Erase(s)
    decreases |s|
  {
    if s != "" {
      var n := Match(m.fold, m.alternatives, s);
      if n.None? || n.value == 0 {
        PassErases(m, s[1..]);
        assert ([s[0]] + Pass(m, s[1..]))[1..] == Pass(m, s[1..]);
      } else {
        PassErases(m, s[n.value..]);
        SplitErases(s, n.value, Pass(m, s[n.value..]));
      }
    }
  }

  lemma SplitErases(s: Text, n: nat, rest: Text)
    requires 0 < n <= |s| && Erase(rest) == Erase(s[n..])
    ensures Erase([s[0]] + ([ZERO_WIDTH] + (s[1..n] + rest))) == Erase(s)
  {
    var tail := s[1..n] + rest;
    EraseAppend(s[1..n], rest);
    EraseAppend(s[1..n], s[n..]);
    assert s[1..] == s[1..n] + s[n..];
    assert ([ZERO_WIDTH] + tail)[1..] == tail;
    assert ([s[0]] + ([ZERO_WIDTH] + tail))[1..] == [ZERO_WIDTH] + tail;
  }

  /** Erasing the separators from the result and from the input gives the same text. */
  lemma {:induction false} ReplaceErases(m: Matcher, s: Text)
    requires Valid(m)
    ensures Erase(Replace(m, s)) == Erase(s)
    decreases Pairs(s)
  {
    if Hits(m, s) {
      PassSplits(m, s);
      PassErases(m, s);
      ReplaceErases(m, Pass(m, s));
    }
  }

  /** `r` is `s` with zero-width spaces put in, and nothing else. */
  predicate Inserted(s: Text, r: Text)
    decreases |r|
  {
    if r == "" then s == ""
    else (s != "" && s[0] == r[0] && Inserted(s[1..], r[1..])) || (r[0] as int == 0x200b && Inserted(s, r[1..]))
  }

  lemma {:induction false} InsertedSame(a: Text, s: Text, r: Text)
    requires Inserted(s, r)
    ensures Inserted(a + s, a + r)
  {
    if a == "" {
      assert a + s == s && a + r == r;
    } else {
      InsertedSame(a[1..], s, r);
      assert (a + s)[1..] == a[1..] + s && (a + r)[1..] == a[1..] + r;
    }
  }

  lemma {:induction false} InsertedTwice(s: Text, t: Text, r: Text)
    requires Inserted(s, t) && Inserted(t, r)
    ensures Inserted(s, r)
    decreases |r|
  {
    if r != "" {
      if t != "" && t[0] == r[0] && Inserted(t[1..], r[1..]) {
        if s != "" && s[0] == t[0] && Inserted(s[1..], t[1..]) {
          InsertedTwice(s[1..], t[1..], r[1..]);
        } else {
          InsertedTwice(s, t[1..], r[1..]);
        }
      } else {
        InsertedTwice(s, t, r[1..]);
      }
    }
  }

  lemma OneInserted(s: Text, n: nat, rest: Text)
    requires 0 < n <= |s| && Inserted(s[n..], rest)
    ensures Inserted(s, [s[0]] + ([ZERO_WIDTH] + (s[1..n] + rest)))
  {
    InsertedSame(s[1..n], s[n..], rest);
    assert s[1..n] + s[n..] == s[1..];
    var tail := s[1..n] + rest;
    assert ([ZERO_WIDTH] + tail)[1..] == tail;
    assert Inserted(s[1..], [ZERO_WIDTH] + tail);
    var r := [s[0]] + ([ZERO_WIDTH] + tail);
    assert r[1..] == [ZERO_WIDTH] + tail && r[0] == s[0];
  }

  lemma {:induction false} PassInserts(m: Matcher, s: Text)
    ensures Inserted(s, Pass(m, s))
    decreases |s|
  {
    if s != "" {
      var n := Match(m.fold, m.alternatives, s);
      if n.None? || n.value == 0 {
        PassInserts(m, s[1..]);
        assert ([s[0]] + Pass(m, s[1..]))[1..] == Pass(m, s[1..]);
      } else {
        PassInserts(m, s[n.value..]);
        OneInserted(s, n.value, Pass(m, s[n.value..]));
      }
    }
  }

  lemma {:induction false} InsertedNothing(s: Text)
    ensures Inserted(s, s)
  {
    if s != "" {
      InsertedNothing(s[1..]);
    }
  }

  /** The result is the text with zero-width spaces put in: nothing is removed, reordered or
      otherwise added. */
  lemma {:induction false} ReplaceInserts(m: Matcher, s: Text)
    requires Valid(m)
    ensures Inserted(s, Replace(m, s))
    decreases Pairs(s)
  {
    if Hits(m, s) {
      PassSplits(m, s);
      PassInserts(m, s);
      ReplaceInserts(m, Pass(m, s));
      InsertedTwice(s, Pass(m, s), Replace(m, s));
    } else {
      InsertedNothing(s);
    }
  }

  predicate Contains(fold: char -> char, s: Text, t: Text) {
    exists i :: 0 <= i <= |s| && StartsWith(fold, s[i..], t)
  }

  /** Something matches exactly when some alternative occurs. */
  lemma {:induction false} HitsIsContains(m: Matcher, s: Text)
    requires Valid(m)
    ensures Hits(m, s) <==> exists t :: t in m.alternatives && Contains(m.fold, s, t)
  {
    if Hits(m, s) {
      var t := HitsContains(m, s);
    } else {
      forall t | t in m.alternatives ensures !Contains(m.fold, s, t) {
        NoHitsNoTerm(m, s, t);
      }
    }
  }

  lemma {:induction false} HitsContains(m: Matcher, s: Text) returns (t: Text)
    requires Hits(m, s)
    ensures t in m.alternatives && Contains(m.fold, s, t)
  {
    if Match(m.fold, m.alternatives, s).Some? {
      t :| t in m.alternatives && StartsWith(m.fold, s, t);
      assert s[0..] == s;
    } else {
      t := HitsContains(m, s[1..]);
      var i :| 0 <= i <= |s[1..]| && StartsWith(m.fold, s[1..][i..], t);
      assert s[1..][i..] == s[i + 1..];
    }
  }

  lemma {:induction false} NoHitsNoTerm(m: Matcher, s: Text, t: Text)
    requires !Hits(m, s) && t in m.alternatives && t != ""
    ensures !Contains(m.fold, s, t)
  {
    forall i | 0 <= i <= |s| ensures !StartsWith(m.fold, s[i..], t) {
      NoMatchAt(m, s, t, i);
    }
  }

  lemma {:induction false} NoMatchAt(m: Matcher, s: Text, t: Text, i: nat)
    requires !Hits(m, s) && t in m.alternatives && t != "" && i <= |s|
    ensures !StartsWith(m.fold, s[i..], t)
    decreases i
  {
    if i == 0 {
      assert s[0..] == s;
    } else {
      NoMatchAt(m, s[1..], t, i - 1);
      assert s[1..][i - 1..] == s[i..];
    }
  }

  lemma {:induction false} ReplaceSettles(m: Matcher, s: Text)
    requires Valid(m)
    ensures !Hits(m, Replace(m, s))
    decreases Pairs(s)
  {
    if Hits(m, s) {
      PassSplits(m, s);
      ReplaceSettles(m, Pass(m, s));
    }
  }

  /** Terms that fold alike occur alike. */
  lemma FoldAlike(fold: char -> char, s: Text, t: Text, u: Text)
    requires EqualFold(fold, t, u)
    ensures Contains(fold, s, t) ==> Contains(fold, s, u)
  {
    if Contains(fold, s, t) {
      var i :| 0 <= i <= |s| && StartsWith(fold, s[i..], t);
      assert StartsWith(fold, s[i..], u);
    }
  }

  predicate Represented(fold: char -> char, alternatives: seq<Text>, t: Text) {
    exists a :: a in alternatives && EqualFold(fold, t, a)
  }

  /** Every configured term has an alternative that folds alike. */
  predicate Covers(m: Matcher, terms: seq<Text>) {
    forall t :: t in terms ==> Represented(m.fold, m.alternatives, t)
  }

  /** A text is returned as it is exactly when it contains no alternative. */
  lemma CleanTextStays(m: Matcher, s: Text)
    requires Valid(m)
    ensures Replace(m, s) == s <==> forall t :: t in m.alternatives ==> !Contains(m.fold, s, t)
  {
    HitsIsContains(m, s);
    ReplaceSettles(m, s);
  }

  /** The result contains no configured term up to case, also none that was dropped because
      another folds alike. */
  lemma NoTermIsLeft(m: Matcher, terms: seq<Text>, s: Text, t: Text)
    requires Valid(m) && Covers(m, terms) && t in terms
    ensures !Contains(m.fold, Replace(m, s), t)
  {
    assert Represented(m.fold, m.alternatives, t);
    var a :| a in m.alternatives && EqualFold(m.fold, t, a);
    ReplaceSettles(m, s);
    NoHitsNoTerm(m, Replace(m, s), a);
    FoldAlike(m.fold, Replace(m, s), t, a);
  }

  // ------------------------------------------------------------ the loops

  /** One pass over the text, and whether it changed anything. */
  method ReplaceAll(m: Matcher, s: Text) returns (r: Text, changed: bool)
    requires Valid(m)
    ensures r == Pass(m, s) && changed == Hits(m, s)
  {
    r, changed := "", false;
    var rest := s;
    while rest != ""
      invariant Pass(m, s) == r + Pass(m, rest) && Hits(m, s) == (changed || Hits(m, rest))
      decreases |rest|
    {
      var n := Match(m.fold, m.alternatives, rest);
      if n.None? {
        r, rest := r + [rest[0]], rest[1..];
      } else {
        MatchIsTerm(m, rest);
        Associates4([rest[0]], [ZERO_WIDTH], rest[1..n.value], Pass(m, rest[n.value..]));
        Associates(r, [rest[0]] + ([ZERO_WIDTH] + rest[1..n.value]), Pass(m, rest[n.value..]));
        r, rest := r + ([rest[0]] + ([ZERO_WIDTH] + rest[1..n.value])), rest[n.value..];
        changed := true;
      }
    }
  }

  /** The loop ends on every input: each round takes away a pair of adjacent runes. */
  method ReplaceTerms(m: Matcher, input: Text) returns (r: Text)
    requires Valid(m)
    ensures r == Replace(m, input)
  {
    r := input;
    while true
      invariant Replace(m, r) == Replace(m, input)
      decreases Pairs(r)
    {
      PassSplits(m, r);
      var next, changed := ReplaceAll(m, r);
      if !changed {
        return;
      }
      r := next;
    }
  }

  /** The configured terms, trimmed, without empty and repeated ones; None if one of them is
      too short or holds a separator. */
  method NormalizeTerms(configured: seq<Text>, trim: Text -> Text) returns (r: Option<seq<Text>>)
    ensures r.None? <==> exists i :: 0 <= i < |configured| && trim(configured[i]) != "" && !IsTerm(trim(configured[i]))
    ensures r.Some? ==> NoDuplicates(r.value) && forall t :: t in r.value <==> t != "" && exists i :: 0 <= i < |configured| && trim(configured[i]) == t
  {
    var terms: seq<Text> := [];
    for i := 0 to |configured|
      invariant NoDuplicates(terms) && forall j :: 0 <= j < |terms| ==> terms[j] != "" && IsTerm(terms[j])
      invariant forall t :: t in terms <==> t != "" && exists j :: 0 <= j < i && trim(configured[j]) == t
    {
      var term := trim(configured[i]);
      if term == "" || term in terms {
        assert forall j :: 0 <= j < i + 1 && trim(configured[j]) != "" ==> trim(configured[j]) in terms;
        continue;
      }
      if |term| < 2 || ZERO_WIDTH in term {
        return None;
      }
      terms := terms + [term];
    }
    forall i | 0 <= i < |configured| && trim(configured[i]) != "" ensures IsTerm(trim(configured[i])) {
      assert trim(configured[i]) in terms;
    }
    return Some(terms);
  }

  predicate Descending(ts: seq<Text>) {
    forall i, j :: 0 <= i < j < |ts| ==> |ts[i]| >= |ts[j]|
  }

  /** No two alternatives fold alike. */
  predicate Unlike(fold: char -> char, ts: seq<Text>) {
    forall i, j :: 0 <= i < j < |ts| ==> !EqualFold(fold, ts[j], ts[i])
  }

  method HasAlike(fold: char -> char, alternatives: seq<Text>, term: Text) returns (found: bool)
    ensures found == Represented(fold, alternatives, term)
  {
    for i := 0 to |alternatives|
      invariant forall j :: 0 <= j < i ==> !EqualFold(fold, term, alternatives[j])
    {
      if EqualFold(fold, term, alternatives[i]) {
        assert alternatives[i] in alternatives;
        return true;
      }
    }
    return false;
  }

  lemma OneMore(fold: char -> char, alternatives: seq<Text>, term: Text, t: Text)
    ensures Represented(fold, alternatives, t) ==> Represented(fold, alternatives + [term], t)
    ensures Represented(fold, alternatives + [term], term)
  {
    if Represented(fold, alternatives, t) {
      var a :| a in alternatives && EqualFold(fold, t, a);
      assert a in alternatives + [term];
    }
    assert term in alternatives + [term] && EqualFold(fold, term, term);
  }

  lemma AppendTerm(fold: char -> char, alternatives: seq<Text>, ordered: seq<Text>, i: nat)
    requires i < |ordered| && Descending(ordered) && Descending(alternatives) && Unlike(fold, alternatives)
    requires (forall a :: a in alternatives ==> a in ordered[..i]) && !Represented(fold, alternatives, ordered[i])
    ensures Descending(alternatives + [ordered[i]]) && Unlike(fold, alternatives + [ordered[i]])
  {
    var term := ordered[i];
    forall k | 0 <= k < |alternatives| ensures |alternatives[k]| >= |term| && !EqualFold(fold, term, alternatives[k]) {
      assert alternatives[k] in alternatives && alternatives[k] in ordered[..i];
      var j :| 0 <= j < i && ordered[j] == alternatives[k];
    }
  }

  /** Longest first; a term that folds like an earlier one is dropped. */
  method CompileMatcher(fold: char -> char, terms: seq<Text>) returns (m: Matcher)
    ensures m.fold == fold && Covers(m, terms) && forall a :: a in m.alternatives ==> a in terms
    ensures Descending(m.alternatives) && Unlike(fold, m.alternatives)
  {
    var ordered := SortByLength(terms);
    var alternatives: seq<Text> := [];
    for i := 0 to |ordered|
      invariant forall j :: 0 <= j < i ==> Represented(fold, alternatives, ordered[j])
      invariant forall a :: a in alternatives ==> a in ordered[..i]
      invariant Descending(alternatives) && Unlike(fold, alternatives)
    {
      assert ordered[..i + 1] == ordered[..i] + [ordered[i]];
      var duplicate := HasAlike(fold, alternatives, ordered[i]);
      if !duplicate {
        AppendTerm(fold, alternatives, ordered, i);
        forall j | 0 <= j <= i ensures Represented(fold, alternatives + [ordered[i]], ordered[j]) {
          OneMore(fold, alternatives, ordered[i], ordered[j]);
        }
        alternatives := alternatives + [ordered[i]];
      }
    }
    assert ordered[..|ordered|] == ordered;
    m := Matcher(fold, alternatives);
    forall t | t in terms ensures Represented(fold, alternatives, t) {
      assert t in ordered;
    }
  }

  function Insert<T>(r: seq<T>, k: nat, t: T): seq<T>
    requires k <= |r|
  {
    r[..k] + ([t] + r[k..])
  }

  lemma InsertAt<T>(r: seq<T>, k: nat, t: T)
    requires k <= |r|
    ensures |Insert(r, k, t)| == |r| + 1
    ensures forall i :: 0 <= i <= |r| ==> Insert(r, k, t)[i] == if i < k then r[i] else if i == k then t else r[i - 1]
  {
  }

  lemma InsertMembers<T>(r: seq<T>, k: nat, t: T)
    requires k <= |r|
    ensures forall u :: u in Insert(r, k, t) <==> u in r || u == t
  {
    assert r == r[..k] + r[k..];
  }

  lemma InsertByLength(r: seq<Text>, k: nat, t: Text, q: seq<Text>)
    requires Descending(r) && k <= |r| == |q| - 1 && (k > 0 ==> |r[k - 1]| >= |t|) && forall j :: k <= j < |r| ==> |r[j]| < |t|
    requires forall i :: 0 <= i <= |r| ==> q[i] == if i < k then r[i] else if i == k then t else r[i - 1]
    ensures Descending(q)
  {
    forall i, j | 0 <= i < j < |q| ensures |q[i]| >= |q[j]| {
      assert q[i] == (if i < k then r[i] else if i == k then t else r[i - 1]);
      assert q[j] == (if j < k then r[j] else if j == k then t else r[j - 1]);
      assert i < k ==> |r[i]| >= |r[k - 1]|;
    }
  }

  /** The stable sort of the terms, longest first. */
  method SortByLength(terms: seq<Text>) returns (r: seq<Text>)
    ensures (forall t :: t in r <==> t in terms) && Descending(r)
  {
    r := [];
    for i := 0 to |terms|
      invariant (forall t :: t in r <==> t in terms[..i]) && Descending(r)
    {
      assert terms[..i + 1] == terms[..i] + [terms[i]];
      var k := |r|;
      while k > 0 && |r[k - 1]| < |terms[i]|
        invariant 0 <= k <= |r| && forall j :: k <= j < |r| ==> |r[j]| < |terms[i]|
      {
        k := k - 1;
      }
      InsertAt(r, k, terms[i]);
      InsertMembers(r, k, terms[i]);
      InsertByLength(r, k, terms[i], Insert(r, k, terms[i]));
      r := Insert(r, k, terms[i]);
    }
    assert terms[..|terms|] == terms;
  }

  // ------------------------------------------------------------ rune by rune

  /** The term stands at the position, up to case. */
  predicate StandsAt(fold: char -> char, s: Text, i: int, t: Text) {
    0 <= i && i + |t| <= |s| && forall k :: 0 <= k < |t| ==> fold(s[i + k]) == fold(t[k])
  }

  lemma StartsIsStands(fold: char -> char, s: Text, i: nat, t: Text)
    requires i <= |s|
    ensures StartsWith(fold, s[i..], t) <==> StandsAt(fold, s, i, t)
  {
    if |t| <= |s[i..]| {
      assert forall k :: 0 <= k < |t| ==> s[i..][..|t|][k] == s[i + k];
    }
  }

  /** A text contains a term if the term stands somewhere in it, up to case. */
  lemma ContainsOnRunes(fold: char -> char, s: Text, t: Text)
    ensures Contains(fold, s, t) <==> exists i :: StandsAt(fold, s, i, t)
  {
    forall i | 0 <= i <= |s| ensures StartsWith(fold, s[i..], t) <==> StandsAt(fold, s, i, t) {
      StartsIsStands(fold, s, i, t);
    }
  }

  /** Of alternatives that get no longer, the first that matches is the longest. */
  lemma {:induction false} MatchIsLongest(fold: char -> char, alternatives: seq<Text>, s: Text, t: Text)
    requires Descending(alternatives) && t in alternatives && StartsWith(fold, s, t)
    requires forall u :: u in alternatives && StartsWith(fold, s, u) ==> |u| <= |t|
    ensures Match(fold, alternatives, s) == Some(|t|)
  {
    if StartsWith(fold, s, alternatives[0]) {
      assert alternatives[0] in alternatives;
      var j :| 0 <= j < |alternatives| && alternatives[j] == t;
    } else {
      assert t in alternatives[1..];
      MatchIsLongest(fold, alternatives[1..], s, t);
    }
  }

  /** `t` stands at `i`, nothing stands before it, and nothing longer stands there. */
  ghost predicate FirstAndLongest(m: Matcher, s: Text, i: int, t: Text) {
    && t in m.alternatives && StandsAt(m.fold, s, i, t)
    && (forall j, u :: u in m.alternatives && StandsAt(m.fold, s, j, u) ==> i <= j && (i == j ==> |u| <= |t|))
  }

  lemma StandsBehind(fold: char -> char, s: Text, i: nat, t: Text)
    requires 0 < i <= |s|
    ensures StandsAt(fold, s[1..], i - 1, t) <==> StandsAt(fold, s, i, t)
  {
    assert s[1..][i - 1..] == s[i..];
    StartsIsStands(fold, s, i, t);
    StartsIsStands(fold, s[1..], i - 1, t);
  }

  lemma FirstAndLongestRest(m: Matcher, s: Text, i: int, t: Text)
    requires i > 0 && FirstAndLongest(m, s, i, t)
    ensures FirstAndLongest(m, s[1..], i - 1, t)
  {
    StandsBehind(m.fold, s, i, t);
    forall j, u | u in m.alternatives && StandsAt(m.fold, s[1..], j, u) ensures StandsAt(m.fold, s, j + 1, u) {
      StandsBehind(m.fold, s, j + 1, u);
    }
  }

  lemma MatchAtStart(m: Matcher, s: Text, t: Text)
    requires Descending(m.alternatives) && FirstAndLongest(m, s, 0, t)
    ensures Match(m.fold, m.alternatives, s) == Some(|t|)
  {
    assert s[0..] == s;
    StartsIsStands(m.fold, s, 0, t);
    forall u | u in m.alternatives && StartsWith(m.fold, s, u) ensures |u| <= |t| {
      StartsIsStands(m.fold, s, 0, u);
    }
    MatchIsLongest(m.fold, m.alternatives, s, t);
  }

  lemma NoMatchBefore(m: Matcher, s: Text, i: int, t: Text)
    requires i > 0 && FirstAndLongest(m, s, i, t)
    ensures Match(m.fold, m.alternatives, s).None?
  {
    assert s[0..] == s;
    forall u | u in m.alternatives ensures !StartsWith(m.fold, s, u) {
      StartsIsStands(m.fold, s, 0, u);
    }
  }

  lemma AlternativeIsTerm(m: Matcher, t: Text)
    requires Valid(m) && t in m.alternatives
    ensures IsTerm(t)
  {
    var at :| 0 <= at < |m.alternatives| && m.alternatives[at] == t;
  }

  /** One zero-width space behind the first rune of the term of length `n` at `i`, and what a pass
      makes of the rest. */
  function Parted(m: Matcher, s: Text, i: nat, n: nat): Text
    requires n > 0 && i + n <= |s|
  {
    s[..i + 1] + ([0x200b as char] + (s[i + 1..i + n] + Pass(m, s[i + n..])))
  }

  lemma StandsWithin(m: Matcher, s: Text, i: int, t: Text)
    requires Valid(m) && FirstAndLongest(m, s, i, t)
    ensures |t| > 0 && 0 <= i && i + |t| <= |s|
  {
    AlternativeIsTerm(m, t);
  }

  lemma PassAtStart(m: Matcher, s: Text, t: Text)
    requires Valid(m) && Descending(m.alternatives) && FirstAndLongest(m, s, 0, t) && 0 < |t| <= |s|
    ensures Pass(m, s) == Parted(m, s, 0, |t|)
  {
    MatchAtStart(m, s, t);
    assert s[..1] == [s[0]];
  }

  lemma PassBefore(m: Matcher, s: Text, i: int, t: Text)
    requires i > 0 && FirstAndLongest(m, s, i, t)
    ensures s != "" && Pass(m, s) == [s[0]] + Pass(m, s[1..])
  {
    NoMatchBefore(m, s, i, t);
  }

  lemma PartedBefore(m: Matcher, s: Text, i: nat, n: nat)
    requires 0 < i && n > 0 && i + n <= |s|
    ensures [s[0]] + Parted(m, s[1..], i - 1, n) == Parted(m, s, i, n)
  {
    assert s[1..][i - 1 + n..] == s[i + n..];
    assert [s[0]] + s[1..][..i] == s[..i + 1];
    assert s[1..][i..i - 1 + n] == s[i + 1..i + n];
    Associates([s[0]], s[1..][..i], [0x200b as char] + (s[i + 1..i + n] + Pass(m, s[i + n..])));
  }

  /** A pass leaves everything in front of the first and longest term, puts one zero-width space
      behind the first rune of it, and goes on behind it. */
  lemma {:induction false} PassOnTerm(m: Matcher, s: Text, i: nat, t: Text)
    requires Valid(m) && Descending(m.alternatives) && FirstAndLongest(m, s, i, t)
    ensures i + |t| <= |s| && |t| > 0 && Pass(m, s) == Parted(m, s, i, |t|)
    decreases i
  {
    StandsWithin(m, s, i, t);
    if i == 0 {
      PassAtStart(m, s, t);
    } else {
      PassBefore(m, s, i, t);
      FirstAndLongestRest(m, s, i, t);
      PassOnTerm(m, s[1..], i - 1, t);
      PartedBefore(m, s, i, |t|);
    }
  }

  /** From the configuration to the text: whatever is configured is gone, up to case. */
  method DesensitizeText(fold: char -> char, trim: Text -> Text, configured: seq<Text>, input: Text) returns (r: Option<Text>)
    requires forall c :: fold(c) == fold(ZERO_WIDTH) ==> c == ZERO_WIDTH
    ensures r.None? <==> exists i :: 0 <= i < |configured| && trim(configured[i]) != "" && !IsTerm(trim(configured[i]))
    ensures r.Some? ==>
              && Erase(r.value) == Erase(input) && Inserted(input, r.value)
              && forall i :: 0 <= i < |configured| && trim(configured[i]) != "" ==> !Contains(fold, r.value, trim(configured[i]))
  {
    var terms := NormalizeTerms(configured, trim);
    if terms.None? {
      return None;
    }
    var m := CompileMatcher(fold, terms.value);
    forall i | 0 <= i < |m.alternatives| ensures IsTerm(m.alternatives[i]) {
      assert m.alternatives[i] in terms.value;
    }
    var out := ReplaceTerms(m, input);
    ReplaceErases(m, input);
    ReplaceInserts(m, input);
    forall i | 0 <= i < |configured| && trim(configured[i]) != "" ensures !Contains(fold, out, trim(configured[i])) {
      assert trim(configured[i]) in terms.value;
      NoTermIsLeft(m, terms.value, input, trim(configured[i]));
    }
    return Some(out);
  }
}
