/** The consensus index over the models.dev document (internal/upstream/modelsdev.go). */
module ModelsDev {
  import opened Common

  const VALUE_MAX := 1_000_000_000

  datatype Entry = Entry(context: int, output: int)

  /** A provider and the models it lists, in the order in which the two maps are walked. */
  datatype Chapter = Chapter(provider: string, models: seq<(string, Option<Entry>)>)

  /** The two nested maps of the document: each provider comes once, with each of its full
      ids once. */
  ghost predicate IsWalk(w: seq<Chapter>) {
    && (forall i, j :: 0 <= i < j < |w| ==> w[i].provider != w[j].provider)
    && (forall i :: 0 <= i < |w| ==> IsChapter(w[i]))
  }

  ghost predicate IsChapter(c: Chapter) {
    forall i, j :: 0 <= i < j < |c.models| ==> c.models[i].0 != c.models[j].0
  }

  /** One model that one provider lists. */
  datatype Listing = Listing(provider: string, fullId: string, limit: Option<Entry>)

  function ListingAt(c: Chapter, i: nat): Listing
    requires i < |c.models|
  {
    Listing(c.provider, c.models[i].0, c.models[i].1)
  }

  function ListingsOf(c: Chapter): seq<Listing> {
    seq(|c.models|, i requires 0 <= i < |c.models| => ListingAt(c, i))
  }

  /** The listings in the order of a walk. */
  function Listings(w: seq<Chapter>): seq<Listing> {
    if w == [] then [] else Listings(w[..|w| - 1]) + ListingsOf(w[|w| - 1])
  }

  /** Two walks over the same document. */
  ghost predicate SameDocument(v: seq<Chapter>, w: seq<Chapter>) {
    IsWalk(v) && IsWalk(w) && multiset(Listings(v)) == multiset(Listings(w))
  }

  /** What follows the last '/'. */
  function Tail(s: string): string {
    if s == "" then "" else if s[|s| - 1] == '/' then "" else Tail(s[..|s| - 1]) + [s[|s| - 1]]
  }

  /** The id and the value of a listing, if it counts. */
  function Accept(l: Listing): Option<(string, Entry)> {
    if l.limit.None? || Tail(l.fullId) == "" then None
    else
      var e := l.limit.value;
      if e.context <= 0 || e.context > VALUE_MAX || e.output < 0 || e.output > VALUE_MAX then None
      else Some((Tail(l.fullId), e))
  }

  // ------------------------------------------------------------ the statistics of a value

  predicate Backs(l: Listing, id: string, e: Entry) {
    Accept(l) == Some((id, e))
  }

  function Votes(ls: seq<Listing>, id: string, e: Entry): nat {
    if ls == [] then 0 else Votes(ls[..|ls| - 1], id, e) + if Backs(ls[|ls| - 1], id, e) then 1 else 0
  }

  ghost predicate Official(ls: seq<Listing>, vendors: set<string>, id: string, e: Entry) {
    exists l :: l in ls && Backs(l, id, e) && l.provider in vendors
  }

  /** The least provider that backs the value. */
  ghost predicate IsLeast(ls: seq<Listing>, id: string, e: Entry, p: string) {
    && (exists l :: l in ls && Backs(l, id, e) && l.provider == p)
    && (forall l :: l in ls && Backs(l, id, e) ==> l.provider == p || Less(p, l.provider))
  }

  datatype Candidate = Candidate(entry: Entry, vendor: bool, votes: nat, minProvider: string)

  /** Official values first, then the more votes, then the least provider. */
  predicate Better(c: Candidate, d: Candidate) {
    || (c.vendor && !d.vendor)
    || (c.vendor == d.vendor && c.votes > d.votes)
    || (c.vendor == d.vendor && c.votes == d.votes && Less(c.minProvider, d.minProvider))
  }

  lemma BetterIsAsymmetric(a: Candidate, b: Candidate)
    ensures !(Better(a, b) && Better(b, a))
  {
    LessIsIrreflexive(a.minProvider);
    if Less(a.minProvider, b.minProvider) && Less(b.minProvider, a.minProvider) {
      LessIsTransitive(a.minProvider, b.minProvider, a.minProvider);
    }
  }

  /** What beats a candidate beats whatever does not beat it. */
  lemma BetterThanWorse(a: Candidate, b: Candidate, c: Candidate)
    requires Better(a, b) && !Better(c, b)
    ensures Better(a, c)
  {
    if b.minProvider != c.minProvider {
      LessIsTotal(b.minProvider, c.minProvider);
      if Less(a.minProvider, b.minProvider) && Less(b.minProvider, c.minProvider) {
        LessIsTransitive(a.minProvider, b.minProvider, c.minProvider);
      }
    }
  }

  /** Two candidates of which none is better share their least provider. */
  lemma TieSharesProvider(a: Candidate, b: Candidate)
    requires !Better(a, b) && !Better(b, a)
    ensures a.minProvider == b.minProvider
  {
    if a.minProvider != b.minProvider {
      LessIsTotal(a.minProvider, b.minProvider);
    }
  }

  ghost predicate Describes(ls: seq<Listing>, vendors: set<string>, id: string, c: Candidate) {
    && c.votes == Votes(ls, id, c.entry) && c.votes > 0
    && c.vendor == Official(ls, vendors, id, c.entry)
    && IsLeast(ls, id, c.entry, c.minProvider)
  }

  ghost predicate Unbeaten(ls: seq<Listing>, vendors: set<string>, id: string, c: Candidate) {
    Describes(ls, vendors, id, c) && forall d :: Describes(ls, vendors, id, d) ==> !Better(d, c)
  }

  /** The position of the first listing that backs the value, if one does. */
  function FirstAt(ls: seq<Listing>, id: string, e: Entry): nat {
    if ls == [] then 0
    else if Votes(ls[..|ls| - 1], id, e) > 0 then FirstAt(ls[..|ls| - 1], id, e)
    else |ls| - 1
  }

  /** The value that the index holds for an id: listed, not beaten, and of those the first. */
  ghost predicate IsChoice(ls: seq<Listing>, vendors: set<string>, id: string, e: Entry) {
    exists c: Candidate :: c.entry == e && Unbeaten(ls, vendors, id, c) &&
      forall d :: Unbeaten(ls, vendors, id, d) ==> FirstAt(ls, id, e) <= FirstAt(ls, id, d.entry)
  }

  predicate Names(l: Listing, id: string) {
    Accept(l).Some? && Accept(l).value.0 == id
  }

  ghost predicate IsIndex(ls: seq<Listing>, vendors: set<string>, index: map<string, Entry>) {
    && (forall id :: id in index <==> exists l :: l in ls && Names(l, id))
    && (forall id :: id in index ==> IsChoice(ls, vendors, id, index[id]))
  }

  // ------------------------------------------------------------ independence of the order

  lemma {:induction false} VotesSplit(a: seq<Listing>, b: seq<Listing>, id: string, e: Entry)
    ensures Votes(a + b, id, e) == Votes(a, id, e) + Votes(b, id, e)
    decreases |b|
  {
    if b == [] {
      assert a + b == a;
    } else {
      assert (a + b)[..|a + b| - 1] == a + b[..|b| - 1];
      VotesSplit(a, b[..|b| - 1], id, e);
    }
  }

  lemma OneVote(l: Listing, id: string, e: Entry)
    ensures Votes([l], id, e) == if Backs(l, id, e) then 1 else 0
  {
    assert [l][..0] == [];
  }

  function Without(ls: seq<Listing>, j: nat): seq<Listing>
    requires j < |ls|
  {
    ls[..j] + ls[j + 1..]
  }

  lemma VotesWithout(ls: seq<Listing>, j: nat, id: string, e: Entry)
    requires j < |ls|
    ensures Votes(ls, id, e) == Votes(Without(ls, j), id, e) + if Backs(ls[j], id, e) then 1 else 0
  {
    assert ls == ls[..j] + ([ls[j]] + ls[j + 1..]);
    VotesSplit(ls[..j], [ls[j]] + ls[j + 1..], id, e);
    VotesSplit([ls[j]], ls[j + 1..], id, e);
    VotesSplit(ls[..j], ls[j + 1..], id, e);
    OneVote(ls[j], id, e);
  }

  lemma WithoutOne(ls: seq<Listing>, j: nat)
    requires j < |ls|
    ensures multiset(Without(ls, j)) == multiset(ls) - multiset{ls[j]}
  {
    assert ls == ls[..j] + ([ls[j]] + ls[j + 1..]);
  }

  /** Votes do not depend on the order of the listings. */
  lemma {:induction false} VotesPermute(a: seq<Listing>, b: seq<Listing>, id: string, e: Entry)
    requires multiset(a) == multiset(b)
    ensures Votes(a, id, e) == Votes(b, id, e)
    decreases |a|
  {
    if a == [] {
      assert |b| == |multiset(b)| == 0;
    } else {
      assert a[0] in multiset(a);
      var j :| 0 <= j < |b| && b[j] == a[0];
      WithoutOne(a, 0);
      WithoutOne(b, j);
      VotesPermute(Without(a, 0), Without(b, j), id, e);
      VotesWithout(a, 0, id, e);
      VotesWithout(b, j, id, e);
    }
  }

  lemma DescribesPermutes(a: seq<Listing>, b: seq<Listing>, vendors: set<string>, id: string, c: Candidate)
    requires multiset(a) == multiset(b) && Describes(a, vendors, id, c)
    ensures Describes(b, vendors, id, c)
  {
    VotesPermute(a, b, id, c.entry);
    assert forall l :: l in a <==> l in multiset(a);
    assert forall l :: l in b <==> l in multiset(b);
  }

  lemma UnbeatenPermutes(a: seq<Listing>, b: seq<Listing>, vendors: set<string>, id: string, c: Candidate)
    requires multiset(a) == multiset(b) && Unbeaten(a, vendors, id, c)
    ensures Unbeaten(b, vendors, id, c)
  {
    DescribesPermutes(a, b, vendors, id, c);
    forall d | Describes(b, vendors, id, d) ensures !Better(d, c) {
      DescribesPermutes(b, a, vendors, id, d);
    }
  }

  /** Two different values of the id for which nothing decides but the order. */
  ghost predicate Tie(ls: seq<Listing>, vendors: set<string>, id: string, c: Candidate, d: Candidate) {
    Unbeaten(ls, vendors, id, c) && Unbeaten(ls, vendors, id, d) && c.entry != d.entry
  }

  ghost predicate NoTie(ls: seq<Listing>, vendors: set<string>, id: string) {
    forall c, d :: !Tie(ls, vendors, id, c, d)
  }

  lemma SameMembers(a: seq<Listing>, b: seq<Listing>)
    requires multiset(a) == multiset(b)
    ensures forall l :: l in a <==> l in b
  {
    assert forall l :: l in a <==> l in multiset(a);
    assert forall l :: l in b <==> l in multiset(b);
  }

  lemma SameChoice(a: seq<Listing>, b: seq<Listing>, vendors: set<string>, id: string, e: Entry, f: Entry)
    requires multiset(a) == multiset(b) && NoTie(a, vendors, id) && IsChoice(a, vendors, id, e) && IsChoice(b, vendors, id, f)
    ensures e == f
  {
    var c: Candidate :| c.entry == e && Unbeaten(a, vendors, id, c);
    var d: Candidate :| d.entry == f && Unbeaten(b, vendors, id, d);
    UnbeatenPermutes(b, a, vendors, id, d);
    assert !Tie(a, vendors, id, c, d);
  }

  /** Without a tie, the index does not depend on the order in which the document's maps are
      walked. */
  lemma OrderDoesNotMatter(a: seq<Listing>, b: seq<Listing>, vendors: set<string>, x: map<string, Entry>, y: map<string, Entry>)
    requires multiset(a) == multiset(b) && forall id :: NoTie(a, vendors, id)
    requires IsIndex(a, vendors, x) && IsIndex(b, vendors, y)
    ensures x == y
  {
    SameMembers(a, b);
    assert x.Keys == y.Keys;
    forall id | id in x ensures x[id] == y[id] {
      SameChoice(a, b, vendors, id, x[id], y[id]);
    }
  }

  /** No provider lists two full ids with the same tail. */
  predicate OneTailPerProvider(ls: seq<Listing>) {
    forall k, l :: k in ls && l in ls && k.provider == l.provider && Tail(k.fullId) == Tail(l.fullId) ==> k == l
  }

  /** Then there is no tie: a value's least provider backs no other value of the id. */
  lemma OneTailNoTie(ls: seq<Listing>, vendors: set<string>, id: string)
    requires OneTailPerProvider(ls)
    ensures NoTie(ls, vendors, id)
  {
    forall c, d ensures !Tie(ls, vendors, id, c, d) {
      if Unbeaten(ls, vendors, id, c) && Unbeaten(ls, vendors, id, d) {
        TieSharesProvider(c, d);
        var k :| k in ls && Backs(k, id, c.entry) && k.provider == c.minProvider;
        var l :| l in ls && Backs(l, id, d.entry) && l.provider == d.minProvider;
        assert k == l;
      }
    }
  }

  // ------------------------------------------------------------ a tie is decided by the order

  lemma FirstVotes(ls: seq<Listing>, id: string, e: Entry)
    requires ls != []
    ensures Backs(ls[0], id, e) ==> Votes(ls, id, e) > 0
  {
    VotesWithout(ls, 0, id, e);
  }

  lemma {:induction false} FirstAtZero(ls: seq<Listing>, id: string, e: Entry)
    requires Votes(ls, id, e) > 0
    ensures FirstAt(ls, id, e) == 0 <==> Backs(ls[0], id, e)
  {
    var n := |ls| - 1;
    if n > 0 {
      FirstVotes(ls[..n], id, e);
    }
    if Votes(ls[..n], id, e) > 0 {
      FirstAtZero(ls[..n], id, e);
    }
  }

  lemma {:induction false} ListingsJoin(v: seq<Chapter>, w: seq<Chapter>)
    ensures Listings(v + w) == Listings(v) + Listings(w)
    decreases |w|
  {
    if w == [] {
      assert v + w == v;
    } else {
      assert (v + w)[..|v + w| - 1] == v + w[..|w| - 1];
      ListingsJoin(v, w[..|w| - 1]);
    }
  }

  lemma OneChapter(c: Chapter)
    ensures Listings([c]) == ListingsOf(c)
  {
    assert [c][..0] == [];
  }

  lemma {:induction false} ChapterOf(w: seq<Chapter>, l: Listing)
    returns (pre: seq<Chapter>, c: Chapter, post: seq<Chapter>, j: nat)
    requires l in Listings(w)
    ensures w == pre + ([c] + post) && j < |c.models| && l == ListingAt(c, j)
  {
    var n := |w| - 1;
    if l in Listings(w[..n]) {
      pre, c, post, j := ChapterOf(w[..n], l);
      post := post + [w[n]];
    } else {
      pre, c, post := w[..n], w[n], [];
      var k :| 0 <= k < |ListingsOf(c)| && ListingsOf(c)[k] == l;
      j := k;
    }
  }

  /** The element at a position comes first, the others keep their order. */
  function ToFront<T>(s: seq<T>, j: nat): seq<T>
    requires j < |s|
  {
    [s[j]] + (s[..j] + s[j + 1..])
  }

  lemma ToFrontPermutes<T>(s: seq<T>, j: nat)
    requires j < |s|
    ensures multiset(ToFront(s, j)) == multiset(s)
  {
    assert s == s[..j] + ([s[j]] + s[j + 1..]);
  }

  lemma ChapterToFront(c: Chapter, j: nat)
    requires j < |c.models|
    ensures ListingsOf(c.(models := ToFront(c.models, j))) == ToFront(ListingsOf(c), j)
    ensures IsChapter(c) ==> IsChapter(c.(models := ToFront(c.models, j)))
  {
  }

  lemma StillWalk(pre: seq<Chapter>, was: Chapter, c: Chapter, post: seq<Chapter>)
    requires IsWalk(pre + ([was] + post)) && IsChapter(c) && c.provider == was.provider
    ensures IsWalk([c] + (pre + post))
  {
    var v, w := [c] + (pre + post), pre + ([was] + post);
    forall i | 0 <= i < |v| ensures v[i].provider == w[Before(i, |pre|)].provider && IsChapter(v[i]) {
    }
  }

  /** Where the chapter at a position was before the one at `n` came to the front. */
  function Before(i: nat, n: nat): nat {
    if i == 0 then n else if i <= n then i - 1 else i
  }

  lemma ListingsAround(pre: seq<Chapter>, c: Chapter, post: seq<Chapter>)
    ensures Listings(pre + ([c] + post)) == Listings(pre) + (ListingsOf(c) + Listings(post))
  {
    ListingsJoin(pre, [c] + post);
    ListingsJoin([c], post);
    OneChapter(c);
  }

  lemma ListingsFirst(pre: seq<Chapter>, c: Chapter, post: seq<Chapter>)
    ensures Listings([c] + (pre + post)) == ListingsOf(c) + (Listings(pre) + Listings(post))
  {
    ListingsJoin([c], pre + post);
    ListingsJoin(pre, post);
    OneChapter(c);
  }

  lemma StillListed(pre: seq<Chapter>, was: Chapter, c: Chapter, post: seq<Chapter>)
    requires multiset(ListingsOf(c)) == multiset(ListingsOf(was))
    ensures multiset(Listings([c] + (pre + post))) == multiset(Listings(pre + ([was] + post)))
  {
    ListingsAround(pre, was, post);
    ListingsFirst(pre, c, post);
  }

  /** The walk that starts with the given listing: its provider first, and it first there. */
  lemma WalkFrom(w: seq<Chapter>, l: Listing) returns (r: seq<Chapter>)
    requires IsWalk(w) && l in Listings(w)
    ensures SameDocument(w, r) && Listings(r) != [] && Listings(r)[0] == l
  {
    var pre, was, post, j := ChapterOf(w, l);
    var c := was.(models := ToFront(was.models, j));
    InChapter(pre, was, post);
    ChapterToFront(was, j);
    ToFrontPermutes(ListingsOf(was), j);
    StillWalk(pre, was, c, post);
    StillListed(pre, was, c, post);
    ListingsFirst(pre, c, post);
    r := [c] + (pre + post);
  }

  lemma InChapter(pre: seq<Chapter>, c: Chapter, post: seq<Chapter>)
    requires IsWalk(pre + ([c] + post))
    ensures IsChapter(c)
  {
    assert (pre + ([c] + post))[|pre|] == c;
  }

  /** The tied value whose listing comes first is chosen. */
  lemma FirstOfTieWins(a: seq<Chapter>, vendors: set<string>, id: string, c: Candidate, d: Candidate) returns (b: seq<Chapter>)
    requires IsWalk(a) && Tie(Listings(a), vendors, id, c, d)
    ensures SameDocument(a, b)
    ensures forall e :: IsChoice(Listings(b), vendors, id, e) <==> e == c.entry
  {
    var ls := Listings(a);
    var l :| l in ls && Backs(l, id, c.entry) && l.provider == c.minProvider;
    b := WalkFrom(a, l);
    FirstWins(ls, Listings(b), vendors, id, c);
  }

  lemma FirstWins(ls: seq<Listing>, ms: seq<Listing>, vendors: set<string>, id: string, c: Candidate)
    requires multiset(ls) == multiset(ms) && Unbeaten(ls, vendors, id, c) && ms != [] && Backs(ms[0], id, c.entry)
    ensures forall e :: IsChoice(ms, vendors, id, e) <==> e == c.entry
  {
    UnbeatenPermutes(ls, ms, vendors, id, c);
    FirstAtZero(ms, id, c.entry);
    forall e | IsChoice(ms, vendors, id, e) ensures e == c.entry {
      var k: Candidate :| k.entry == e && Unbeaten(ms, vendors, id, k)
        && forall j :: Unbeaten(ms, vendors, id, j) ==> FirstAt(ms, id, e) <= FirstAt(ms, id, j.entry);
      FirstAtZero(ms, id, e);
    }
  }

  /** With a tie, two walks over the same document give different indices. */
  lemma TieShows(a: seq<Chapter>, vendors: set<string>, id: string, c: Candidate, d: Candidate) returns (b1: seq<Chapter>, b2: seq<Chapter>)
    requires IsWalk(a) && Tie(Listings(a), vendors, id, c, d)
    ensures SameDocument(a, b1) && SameDocument(a, b2)
    ensures forall x :: IsIndex(Listings(b1), vendors, x) ==> id in x && x[id] == c.entry
    ensures forall y :: IsIndex(Listings(b2), vendors, y) ==> id in y && y[id] == d.entry
    ensures c.entry != d.entry
  {
    b1 := FirstOfTieWins(a, vendors, id, c, d);
    b2 := FirstOfTieWins(a, vendors, id, d, c);
    var l :| l in Listings(a) && Backs(l, id, c.entry);
    assert Names(l, id);
    SameMembers(Listings(a), Listings(b1));
    SameMembers(Listings(a), Listings(b2));
  }

  /** The walks over a document agree on the value of an id. */
  ghost predicate WalksAgree(a: seq<Chapter>, vendors: set<string>, id: string) {
    forall b1, b2, e, f ::
      SameDocument(a, b1) && SameDocument(a, b2) && IsChoice(Listings(b1), vendors, id, e) && IsChoice(Listings(b2), vendors, id, f)
      ==> e == f
  }

  /** The value of an id does not depend on the walk exactly when the id has no tie. */
  lemma WalksAgreeExactly(a: seq<Chapter>, vendors: set<string>, id: string)
    requires IsWalk(a)
    ensures WalksAgree(a, vendors, id) <==> NoTie(Listings(a), vendors, id)
  {
    if NoTie(Listings(a), vendors, id) {
      forall b1, b2, e, f |
        SameDocument(a, b1) && SameDocument(a, b2) && IsChoice(Listings(b1), vendors, id, e) && IsChoice(Listings(b2), vendors, id, f)
        ensures e == f
      {
        NoTiePermutes(Listings(a), Listings(b1), vendors, id);
        SameChoice(Listings(b1), Listings(b2), vendors, id, e, f);
      }
    } else {
      var c, d :| Tie(Listings(a), vendors, id, c, d);
      var b1 := FirstOfTieWins(a, vendors, id, c, d);
      var b2 := FirstOfTieWins(a, vendors, id, d, c);
      assert IsChoice(Listings(b1), vendors, id, c.entry) && IsChoice(Listings(b2), vendors, id, d.entry);
    }
  }

  lemma NoTiePermutes(a: seq<Listing>, b: seq<Listing>, vendors: set<string>, id: string)
    requires multiset(a) == multiset(b) && NoTie(a, vendors, id)
    ensures NoTie(b, vendors, id)
  {
    forall c, d ensures !Tie(b, vendors, id, c, d) {
      if Tie(b, vendors, id, c, d) {
        UnbeatenPermutes(b, a, vendors, id, c);
        UnbeatenPermutes(b, a, vendors, id, d);
        assert Tie(a, vendors, id, c, d);
      }
    }
  }

  /** One provider that lists an id under two full names with different values. */
  const TIED := [Chapter("a", [("x/m", Some(Entry(1, 0))), ("y/m", Some(Entry(2, 0)))])]

  /** Such a document has a tie. */
  lemma TieExists()
    ensures IsWalk(TIED)
    ensures Tie(Listings(TIED), {}, "m", Candidate(Entry(1, 0), false, 1, "a"), Candidate(Entry(2, 0), false, 1, "a"))
  {
    var k, l := Listing("a", "x/m", Some(Entry(1, 0))), Listing("a", "y/m", Some(Entry(2, 0)));
    OneChapter(TIED[0]);
    assert Listings(TIED) == [k, l];
    TailOfTwo('x', 'm');
    TailOfTwo('y', 'm');
    assert [k, l][..1] == [k];
    OneVote(k, "m", Entry(1, 0));
    OneVote(k, "m", Entry(2, 0));
    LessIsIrreflexive("a");
    assert k in [k, l] && l in [k, l];
  }

  lemma TailOfTwo(a: char, b: char)
    requires b != '/'
    ensures Tail([a, '/', b]) == [b]
  {
    assert [a, '/', b][..2] == [a, '/'];
  }

  // ------------------------------------------------------------ the loops

  predicate Mentions(cs: seq<Candidate>, e: Entry) {
    exists i :: 0 <= i < |cs| && cs[i].entry == e
  }

  /** The candidates of one id: one for each value, in the order of first mention. */
  ghost predicate Lists(ls: seq<Listing>, vendors: set<string>, id: string, cs: seq<Candidate>) {
    && (forall i :: 0 <= i < |cs| ==> Describes(ls, vendors, id, cs[i]))
    && (forall e :: Votes(ls, id, e) > 0 ==> Mentions(cs, e))
    && (forall i, j :: 0 <= i < j < |cs| ==> FirstAt(ls, id, cs[i].entry) < FirstAt(ls, id, cs[j].entry))
  }

  /** The first candidate that none beats. */
  method BestOf(cs: seq<Candidate>) returns (best: nat)
    requires cs != []
    ensures best < |cs| && forall j :: 0 <= j < |cs| ==> !Better(cs[j], cs[best])
    ensures forall j :: 0 <= j < best ==> Better(cs[best], cs[j])
  {
    best := 0;
    LessIsIrreflexive(cs[0].minProvider);
    for i := 1 to |cs|
      invariant best < i && forall j :: 0 <= j < i ==> !Better(cs[j], cs[best])
      invariant forall j :: 0 <= j < best ==> Better(cs[best], cs[j])
    {
      if Better(cs[i], cs[best]) {
        NewBest(cs, i, best);
        best := i;
      }
    }
  }

  lemma NewBest(cs: seq<Candidate>, i: nat, best: nat)
    requires best < i < |cs| && Better(cs[i], cs[best])
    requires forall j :: 0 <= j < i ==> !Better(cs[j], cs[best])
    requires forall j :: 0 <= j < best ==> Better(cs[best], cs[j])
    ensures forall j :: 0 <= j <= i ==> !Better(cs[j], cs[i])
    ensures forall j :: 0 <= j < i ==> Better(cs[i], cs[j])
  {
    BetterIsAsymmetric(cs[i], cs[i]);
    forall j | 0 <= j < i ensures Better(cs[i], cs[j]) && !Better(cs[j], cs[i]) {
      BetterThanWorse(cs[i], cs[best], cs[j]);
      BetterIsAsymmetric(cs[i], cs[j]);
    }
  }

  /** Nothing of another id or value changes. */
  lemma DescribesKeeps(ls: seq<Listing>, l: Listing, vendors: set<string>, id: string, c: Candidate)
    requires Describes(ls, vendors, id, c) && !Backs(l, id, c.entry)
    ensures Describes(ls + [l], vendors, id, c)
  {
    assert (ls + [l])[..|ls|] == ls;
    assert forall k :: k in ls + [l] <==> k in ls || k == l;
  }

  /** One more provider for a value that is listed already. */
  function Counted(c: Candidate, provider: string, vendor: bool): Candidate {
    Candidate(c.entry, c.vendor || vendor, c.votes + 1, if Less(provider, c.minProvider) then provider else c.minProvider)
  }

  lemma DescribesCounted(ls: seq<Listing>, l: Listing, vendors: set<string>, id: string, c: Candidate)
    requires Describes(ls, vendors, id, c) && Backs(l, id, c.entry)
    ensures Describes(ls + [l], vendors, id, Counted(c, l.provider, l.provider in vendors))
  {
    assert (ls + [l])[..|ls|] == ls;
    assert forall k :: k in ls + [l] <==> k in ls || k == l;
    var p := Counted(c, l.provider, l.provider in vendors).minProvider;
    var k :| k in ls && Backs(k, id, c.entry) && k.provider == c.minProvider;
    assert k in ls + [l] && l in ls + [l];
    forall j | j in ls + [l] && Backs(j, id, c.entry) ensures j.provider == p || Less(p, j.provider) {
      LeastStays(c.minProvider, l.provider, j.provider, j in ls);
    }
  }

  lemma LeastStays(least: string, provider: string, other: string, listed: bool)
    requires if listed then other == least || Less(least, other) else other == provider
    ensures var p := if Less(provider, least) then provider else least; other == p || Less(p, other)
  {
    if listed && Less(provider, least) && Less(least, other) {
      LessIsTransitive(provider, least, other);
    } else if !listed && provider != least {
      LessIsTotal(provider, least);
    }
  }

  lemma DescribesFirst(ls: seq<Listing>, l: Listing, vendors: set<string>, id: string, e: Entry)
    requires Votes(ls, id, e) == 0 && Backs(l, id, e)
    ensures Describes(ls + [l], vendors, id, Candidate(e, l.provider in vendors, 1, l.provider))
  {
    assert (ls + [l])[..|ls|] == ls;
    assert forall k :: k in ls + [l] <==> k in ls || k == l;
    forall k | k in ls ensures !Backs(k, id, e) {
      if Backs(k, id, e) {
        var j :| 0 <= j < |ls| && ls[j] == k;
        VotesWithout(ls, j, id, e);
      }
    }
    assert l in ls + [l];
  }

  lemma FirstAtStays(ls: seq<Listing>, l: Listing, id: string, e: Entry)
    ensures FirstAt(ls + [l], id, e) == if Votes(ls, id, e) > 0 then FirstAt(ls, id, e) else |ls|
    ensures Votes(ls + [l], id, e) == Votes(ls, id, e) + if Backs(l, id, e) then 1 else 0
  {
    assert (ls + [l])[..|ls|] == ls;
  }

  lemma {:induction false} FirstAtBound(ls: seq<Listing>, id: string, e: Entry)
    requires Votes(ls, id, e) > 0
    ensures FirstAt(ls, id, e) < |ls|
  {
    if Votes(ls[..|ls| - 1], id, e) > 0 {
      FirstAtBound(ls[..|ls| - 1], id, e);
    }
  }

  /** The order of first mention among values that are listed already. */
  lemma OrderStays(ls: seq<Listing>, l: Listing, vendors: set<string>, id: string, cs: seq<Candidate>)
    requires Lists(ls, vendors, id, cs)
    ensures forall i :: 0 <= i < |cs| ==> FirstAt(ls + [l], id, cs[i].entry) == FirstAt(ls, id, cs[i].entry) < |ls|
  {
    forall i | 0 <= i < |cs| ensures FirstAt(ls + [l], id, cs[i].entry) == FirstAt(ls, id, cs[i].entry) < |ls| {
      FirstAtStays(ls, l, id, cs[i].entry);
      FirstAtBound(ls, id, cs[i].entry);
    }
  }

  lemma ListsOther(ls: seq<Listing>, l: Listing, vendors: set<string>, id: string, cs: seq<Candidate>)
    requires Lists(ls, vendors, id, cs) && !Names(l, id)
    ensures Lists(ls + [l], vendors, id, cs)
  {
    OrderStays(ls, l, vendors, id, cs);
    forall i | 0 <= i < |cs| ensures Describes(ls + [l], vendors, id, cs[i]) {
      DescribesKeeps(ls, l, vendors, id, cs[i]);
    }
    forall e | Votes(ls + [l], id, e) > 0 ensures Votes(ls, id, e) > 0 {
      FirstAtStays(ls, l, id, e);
    }
  }

  lemma EntriesDiffer(ls: seq<Listing>, vendors: set<string>, id: string, cs: seq<Candidate>, i: nat, k: nat)
    requires Lists(ls, vendors, id, cs) && i < |cs| && k < |cs| && i != k
    ensures cs[i].entry != cs[k].entry
  {
    assert FirstAt(ls, id, cs[i].entry) != FirstAt(ls, id, cs[k].entry);
  }

  lemma ListsCounted(ls: seq<Listing>, l: Listing, vendors: set<string>, id: string, cs: seq<Candidate>, k: nat)
    requires Lists(ls, vendors, id, cs) && k < |cs| && Backs(l, id, cs[k].entry)
    ensures Lists(ls + [l], vendors, id, cs[k := Counted(cs[k], l.provider, l.provider in vendors)])
  {
    var r := cs[k := Counted(cs[k], l.provider, l.provider in vendors)];
    OrderStays(ls, l, vendors, id, cs);
    assert forall i :: 0 <= i < |cs| ==> r[i].entry == cs[i].entry;
    DescribesCounted(ls, l, vendors, id, cs[k]);
    forall i | 0 <= i < |r| ensures Describes(ls + [l], vendors, id, r[i]) {
      if i != k {
        EntriesDiffer(ls, vendors, id, cs, i, k);
        DescribesKeeps(ls, l, vendors, id, cs[i]);
      }
    }
    forall e | Votes(ls + [l], id, e) > 0 ensures Mentions(r, e) {
      FirstAtStays(ls, l, id, e);
      SameMentions(cs, r, k, e);
    }
  }

  lemma SameMentions(cs: seq<Candidate>, r: seq<Candidate>, k: nat, e: Entry)
    requires k < |cs| == |r| && forall i :: 0 <= i < |cs| ==> r[i].entry == cs[i].entry
    ensures Mentions(cs, e) || e == cs[k].entry ==> Mentions(r, e)
  {
    if Mentions(cs, e) {
      var i :| 0 <= i < |cs| && cs[i].entry == e;
      assert r[i].entry == e;
    } else {
      assert r[k].entry == cs[k].entry;
    }
  }

  lemma MoreMentions(cs: seq<Candidate>, c: Candidate, e: Entry)
    ensures Mentions(cs, e) || e == c.entry ==> Mentions(cs + [c], e)
  {
    if Mentions(cs, e) {
      var i :| 0 <= i < |cs| && cs[i].entry == e;
      assert (cs + [c])[i].entry == e;
    } else {
      assert (cs + [c])[|cs|] == c;
    }
  }

  lemma AllDescribed(ls: seq<Listing>, l: Listing, vendors: set<string>, id: string, cs: seq<Candidate>, e: Entry)
    requires Lists(ls, vendors, id, cs) && Backs(l, id, e) && Votes(ls, id, e) == 0
    ensures forall i :: 0 <= i < |cs| ==> Describes(ls + [l], vendors, id, cs[i])
  {
    forall i | 0 <= i < |cs| ensures Describes(ls + [l], vendors, id, cs[i]) {
      DescribesKeeps(ls, l, vendors, id, cs[i]);
    }
  }

  lemma AllMentioned(ls: seq<Listing>, l: Listing, vendors: set<string>, id: string, cs: seq<Candidate>, c: Candidate)
    requires Lists(ls, vendors, id, cs) && Backs(l, id, c.entry)
    ensures forall f :: Votes(ls + [l], id, f) > 0 ==> Mentions(cs + [c], f)
  {
    forall f | Votes(ls + [l], id, f) > 0 ensures Mentions(cs + [c], f) {
      FirstAtStays(ls, l, id, f);
      MoreMentions(cs, c, f);
    }
  }

  lemma OrderAdded(ls: seq<Listing>, l: Listing, vendors: set<string>, id: string, cs: seq<Candidate>, c: Candidate)
    requires Lists(ls, vendors, id, cs) && Votes(ls, id, c.entry) == 0
    ensures forall i, j :: 0 <= i < j < |cs + [c]| ==>
              FirstAt(ls + [l], id, (cs + [c])[i].entry) < FirstAt(ls + [l], id, (cs + [c])[j].entry)
  {
    OrderStays(ls, l, vendors, id, cs);
    FirstAtStays(ls, l, id, c.entry);
  }

  lemma ListsAdded(ls: seq<Listing>, l: Listing, vendors: set<string>, id: string, cs: seq<Candidate>, e: Entry)
    requires Lists(ls, vendors, id, cs) && Backs(l, id, e) && Votes(ls, id, e) == 0
    ensures Lists(ls + [l], vendors, id, cs + [Candidate(e, l.provider in vendors, 1, l.provider)])
  {
    var c := Candidate(e, l.provider in vendors, 1, l.provider);
    OrderAdded(ls, l, vendors, id, cs, c);
    DescribesFirst(ls, l, vendors, id, e);
    AllDescribed(ls, l, vendors, id, cs, e);
    AllMentioned(ls, l, vendors, id, cs, c);
  }

  /** The inner loop: the listing counts for a candidate, or becomes one. */
  method AddCandidate(ghost ls: seq<Listing>, l: Listing, vendors: set<string>, id: string, e: Entry, cs: seq<Candidate>) returns (r: seq<Candidate>)
    requires Lists(ls, vendors, id, cs) && Backs(l, id, e)
    ensures Lists(ls + [l], vendors, id, r) && r != []
  {
    for i := 0 to |cs|
      invariant forall j :: 0 <= j < i ==> cs[j].entry != e
    {
      if cs[i].entry == e {
        ListsCounted(ls, l, vendors, id, cs, i);
        return cs[i := Counted(cs[i], l.provider, l.provider in vendors)];
      }
    }
    assert !Mentions(cs, e);
    ListsAdded(ls, l, vendors, id, cs, e);
    return cs + [Candidate(e, l.provider in vendors, 1, l.provider)];
  }

  function CandidatesOf(byModel: map<string, seq<Candidate>>, id: string): seq<Candidate> {
    if id in byModel then byModel[id] else []
  }

  ghost predicate Collected(ls: seq<Listing>, vendors: set<string>, byModel: map<string, seq<Candidate>>) {
    && (forall id :: Lists(ls, vendors, id, CandidatesOf(byModel, id)))
    && (forall id :: id in byModel ==> byModel[id] != [])
  }

  /** One listing of the first pass. */
  method AddListing(ghost ls: seq<Listing>, l: Listing, vendors: set<string>, before: map<string, seq<Candidate>>)
    returns (byModel: map<string, seq<Candidate>>)
    requires Collected(ls, vendors, before)
    ensures Collected(ls + [l], vendors, byModel)
  {
    byModel := before;
    var a := Accept(l);
    if a.Some? {
      var (id, e) := a.value;
      var cs := AddCandidate(ls, l, vendors, id, e, CandidatesOf(before, id));
      byModel := before[id := cs];
    }
    forall id ensures Lists(ls + [l], vendors, id, CandidatesOf(byModel, id)) {
      if !Names(l, id) {
        ListsOther(ls, l, vendors, id, CandidatesOf(before, id));
      }
    }
  }

  /** The first pass: provider by provider, model by model. */
  method Collect(w: seq<Chapter>, vendors: set<string>) returns (byModel: map<string, seq<Candidate>>)
    ensures Collected(Listings(w), vendors, byModel)
  {
    byModel := map[];
    for n := 0 to |w|
      invariant Collected(Listings(w[..n]), vendors, byModel)
    {
      ghost var before, all := Listings(w[..n]), ListingsOf(w[n]);
      assert before + all[..0] == before;
      for k := 0 to |w[n].models|
        invariant Collected(before + all[..k], vendors, byModel)
      {
        assert before + all[..k + 1] == before + all[..k] + [ListingAt(w[n], k)];
        byModel := AddListing(before + all[..k], ListingAt(w[n], k), vendors, byModel);
      }
      assert all[..|all|] == all;
      assert w[..n + 1][..n] == w[..n];
    }
    assert w[..|w|] == w;
  }

  lemma BestIsChoice(ls: seq<Listing>, vendors: set<string>, id: string, cs: seq<Candidate>, best: nat)
    requires Lists(ls, vendors, id, cs) && best < |cs|
    requires forall j :: 0 <= j < |cs| ==> !Better(cs[j], cs[best])
    requires forall j :: 0 <= j < best ==> Better(cs[best], cs[j])
    ensures IsChoice(ls, vendors, id, cs[best].entry)
  {
    forall d | Describes(ls, vendors, id, d) ensures d in cs {
      SoleDescription(ls, vendors, id, cs, d);
    }
    forall d | Unbeaten(ls, vendors, id, d) ensures FirstAt(ls, id, cs[best].entry) <= FirstAt(ls, id, d.entry) {
      var j :| 0 <= j < |cs| && cs[j] == d;
    }
    assert Unbeaten(ls, vendors, id, cs[best]);
  }

  /** A value has only one description. */
  lemma SoleDescription(ls: seq<Listing>, vendors: set<string>, id: string, cs: seq<Candidate>, d: Candidate)
    requires Lists(ls, vendors, id, cs) && Describes(ls, vendors, id, d)
    ensures d in cs
  {
    assert Mentions(cs, d.entry);
    var i :| 0 <= i < |cs| && cs[i].entry == d.entry;
    assert Describes(ls, vendors, id, cs[i]);
    SoleLeast(ls, id, d.entry, cs[i].minProvider, d.minProvider);
    assert cs[i] == d;
  }

  lemma SoleLeast(ls: seq<Listing>, id: string, e: Entry, p: string, q: string)
    requires IsLeast(ls, id, e, p) && IsLeast(ls, id, e, q)
    ensures p == q
  {
    if p != q {
      LessIsTransitive(p, q, p);
      LessIsIrreflexive(p);
    }
  }

  lemma ListedIsNamed(ls: seq<Listing>, vendors: set<string>, id: string, cs: seq<Candidate>)
    requires Lists(ls, vendors, id, cs)
    ensures cs != [] <==> exists l :: l in ls && Names(l, id)
  {
    if cs != [] {
      assert Describes(ls, vendors, id, cs[0]);
      var l :| l in ls && Backs(l, id, cs[0].entry);
      assert Names(l, id);
    } else {
      forall l | l in ls ensures !Names(l, id) {
        if Names(l, id) {
          var j :| 0 <= j < |ls| && ls[j] == l;
          VotesWithout(ls, j, id, Accept(l).value.1);
        }
      }
    }
  }

  /** Both passes. */
  method ParseModelsDevDoc(w: seq<Chapter>, vendors: set<string>) returns (index: map<string, Entry>)
    ensures IsIndex(Listings(w), vendors, index)
  {
    ghost var ls := Listings(w);
    var byModel := Collect(w, vendors);
    index := map[];
    var todo := byModel.Keys;
    while todo != {}
      invariant todo <= byModel.Keys && index.Keys == byModel.Keys - todo
      invariant forall id :: id in index ==> IsChoice(ls, vendors, id, index[id])
      decreases |todo|
    {
      var id :| id in todo;
      var cs := byModel[id];
      assert Lists(ls, vendors, id, CandidatesOf(byModel, id));
      var best := BestOf(cs);
      BestIsChoice(ls, vendors, id, cs, best);
      index := index[id := cs[best].entry];
      todo := todo - {id};
    }
    forall id ensures id in index <==> exists l :: l in ls && Names(l, id) {
      ListedIsNamed(ls, vendors, id, CandidatesOf(byModel, id));
    }
  }
}
