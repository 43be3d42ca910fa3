/**
 Which value an id gets, told by the listings that back it (internal/upstream/modelsdev.go):
 official before unofficial, more listings before fewer, the lesser provider, the earlier one.
 */
module ModelsDevChoice {
  import opened Common
  import opened ModelsDev

  /** The id is what follows the last '/' of the full id. */
  ghost predicate IsTail(fullId: string, id: string) {
    '/' !in id && (fullId == id || exists front: string :: fullId == front + "/" + id)
  }

  /** The listing gives the id this value, and the value is in range. */
  ghost predicate Gives(l: Listing, id: string, e: Entry) {
    && IsTail(l.fullId, id) && id != "" && l.limit == Some(e)
    && 0 < e.context <= 1_000_000_000 && 0 <= e.output <= 1_000_000_000
  }

  /** Where the value is listed. */
  ghost function Backers(ls: seq<Listing>, id: string, e: Entry): set<int> {
    set i | 0 <= i < |ls| && Gives(ls[i], id, e)
  }

  /** Some backer is of an official vendor. */
  ghost predicate Vouched(ls: seq<Listing>, vendors: set<string>, id: string, e: Entry) {
    exists i :: i in Backers(ls, id, e) && ls[i].provider in vendors
  }

  /** Some backer of `e` is not behind any backer of `f` in the order of providers. */
  ghost predicate Leads(ls: seq<Listing>, id: string, e: Entry, f: Entry) {
    exists i :: i in Backers(ls, id, e) &&
      forall j :: j in Backers(ls, id, f) ==> ls[i].provider == ls[j].provider || Less(ls[i].provider, ls[j].provider)
  }

  /** Some backer of `e` comes before every backer of `f`, or is it. */
  ghost predicate Earlier(ls: seq<Listing>, id: string, e: Entry, f: Entry) {
    exists i :: i in Backers(ls, id, e) && forall j :: j in Backers(ls, id, f) ==> i <= j
  }

  /** The value `e` is preferred to `f`, or is the same. */
  ghost predicate Preferred(ls: seq<Listing>, vendors: set<string>, id: string, e: Entry, f: Entry) {
    if Vouched(ls, vendors, id, e) != Vouched(ls, vendors, id, f) then Vouched(ls, vendors, id, e)
    else if |Backers(ls, id, e)| != |Backers(ls, id, f)| then |Backers(ls, id, e)| > |Backers(ls, id, f)|
    else if Leads(ls, id, e, f) != Leads(ls, id, f, e) then Leads(ls, id, e, f)
    else Earlier(ls, id, e, f)
  }

  // ------------------------------------------------------------ one listing

  lemma {:induction false} TailIsTail(s: string)
    ensures '/' !in Tail(s) && (Tail(s) == s || exists front: string :: s == front + "/" + Tail(s))
  {
    if s != "" {
      var n := |s| - 1;
      TailIsTail(s[..n]);
      assert s == s[..n] + [s[n]];
      if s[n] == '/' {
        assert s == s[..n] + "/" + "";
      } else if Tail(s[..n]) != s[..n] {
        var front: string :| s[..n] == front + "/" + Tail(s[..n]);
        assert s == front + "/" + Tail(s);
      }
    }
  }

  lemma {:induction false} TailOfJoin(front: string, t: string)
    requires '/' !in t
    ensures Tail(front + "/" + t) == t
    decreases |t|
  {
    var s := front + "/" + t;
    if t == "" {
      assert s[|s| - 1] == '/';
    } else {
      var m := |t| - 1;
      assert s[..|s| - 1] == front + "/" + t[..m] && s[|s| - 1] == t[m];
      assert t == t[..m] + [t[m]] && t[m] in t;
      TailOfJoin(front, t[..m]);
    }
  }

  lemma {:induction false} TailOfPlain(t: string)
    requires '/' !in t
    ensures Tail(t) == t
  {
    if t != "" {
      assert t == t[..|t| - 1] + [t[|t| - 1]] && t[|t| - 1] in t;
      TailOfPlain(t[..|t| - 1]);
    }
  }

  lemma TailOnChars(s: string, id: string)
    ensures Tail(s) == id <==> IsTail(s, id)
  {
    TailIsTail(s);
    if IsTail(s, id) {
      if s == id {
        TailOfPlain(id);
      } else {
        var front: string :| s == front + "/" + id;
        TailOfJoin(front, id);
      }
    }
  }

  lemma BacksIsGives(l: Listing, id: string, e: Entry)
    ensures Backs(l, id, e) <==> Gives(l, id, e)
  {
    TailOnChars(l.fullId, id);
    TailOnChars(l.fullId, Tail(l.fullId));
  }

  // ------------------------------------------------------------ the statistics of a value

  lemma BackersGrow(ls: seq<Listing>, l: Listing, id: string, e: Entry)
    ensures Backers(ls + [l], id, e) == Backers(ls, id, e) + if Gives(l, id, e) then {|ls|} else {}
  {
    var a, b := Backers(ls + [l], id, e), Backers(ls, id, e) + if Gives(l, id, e) then {|ls|} else {};
    forall i ensures i in a <==> i in b {
      if 0 <= i < |ls| {
        assert (ls + [l])[i] == ls[i];
      }
    }
  }

  /** Votes are backers. */
  lemma {:induction false} VotesAreBackers(ls: seq<Listing>, id: string, e: Entry)
    ensures Votes(ls, id, e) == |Backers(ls, id, e)|
  {
    if ls != [] {
      var front, l := ls[..|ls| - 1], ls[|ls| - 1];
      assert ls == front + [l];
      VotesAreBackers(front, id, e);
      BackersGrow(front, l, id, e);
      BacksIsGives(l, id, e);
    }
  }

  /** The first backer. */
  lemma {:induction false} FirstIsBacker(ls: seq<Listing>, id: string, e: Entry)
    requires Backers(ls, id, e) != {}
    ensures FirstAt(ls, id, e) in Backers(ls, id, e)
    ensures forall j :: j in Backers(ls, id, e) ==> FirstAt(ls, id, e) <= j
  {
    var front, l := ls[..|ls| - 1], ls[|ls| - 1];
    assert ls == front + [l];
    BackersGrow(front, l, id, e);
    VotesAreBackers(front, id, e);
    if Backers(front, id, e) != {} {
      FirstIsBacker(front, id, e);
    }
  }

  lemma EarlierIsFirst(ls: seq<Listing>, id: string, e: Entry, f: Entry)
    requires Backers(ls, id, e) != {} && Backers(ls, id, f) != {}
    ensures Earlier(ls, id, e, f) <==> FirstAt(ls, id, e) <= FirstAt(ls, id, f)
  {
    FirstIsBacker(ls, id, e);
    FirstIsBacker(ls, id, f);
  }

  lemma VouchedIsOfficial(ls: seq<Listing>, vendors: set<string>, id: string, e: Entry)
    ensures Vouched(ls, vendors, id, e) <==> Official(ls, vendors, id, e)
  {
    forall i | 0 <= i < |ls| ensures Backs(ls[i], id, e) <==> i in Backers(ls, id, e) {
      BacksIsGives(ls[i], id, e);
    }
    if Official(ls, vendors, id, e) {
      var l :| l in ls && Backs(l, id, e) && l.provider in vendors;
      var i :| 0 <= i < |ls| && ls[i] == l;
      assert i in Backers(ls, id, e);
    }
  }

  /** A backer that no other is ahead of. */
  ghost predicate LeastBacker(ls: seq<Listing>, id: string, e: Entry, i: int) {
    && i in Backers(ls, id, e)
    && forall j :: j in Backers(ls, id, e) ==> ls[i].provider == ls[j].provider || Less(ls[i].provider, ls[j].provider)
  }

  lemma {:induction false} LeastExists(ls: seq<Listing>, id: string, e: Entry) returns (i: nat)
    requires Backers(ls, id, e) != {}
    ensures LeastBacker(ls, id, e, i)
  {
    var front, l := ls[..|ls| - 1], ls[|ls| - 1];
    assert ls == front + [l];
    BackersGrow(front, l, id, e);
    if Backers(front, id, e) == {} {
      i := |ls| - 1;
    } else {
      i := LeastExists(front, id, e);
      if Gives(l, id, e) && l.provider != front[i].provider {
        LessIsTotal(l.provider, front[i].provider);
        if Less(l.provider, front[i].provider) {
          forall j | j in Backers(front, id, e) ensures Less(l.provider, ls[j].provider) {
            AtMostThen(l.provider, front[i].provider, front[j].provider);
          }
          i := |ls| - 1;
        }
      }
    }
  }

  lemma AtMostThen(a: string, b: string, c: string)
    requires Less(a, b) && (b == c || Less(b, c))
    ensures Less(a, c)
  {
    if b != c {
      LessIsTransitive(a, b, c);
    }
  }

  lemma LeastIsLeast(ls: seq<Listing>, id: string, e: Entry, i: nat)
    requires LeastBacker(ls, id, e, i)
    ensures IsLeast(ls, id, e, ls[i].provider)
  {
    BacksIsGives(ls[i], id, e);
    forall l | l in ls && Backs(l, id, e) ensures l.provider == ls[i].provider || Less(ls[i].provider, l.provider) {
      var j :| 0 <= j < |ls| && ls[j] == l;
      BacksIsGives(l, id, e);
      assert j in Backers(ls, id, e);
    }
  }

  /** The description of a value with backers. */
  lemma Described(ls: seq<Listing>, vendors: set<string>, id: string, e: Entry) returns (c: Candidate, i: nat)
    requires Backers(ls, id, e) != {}
    ensures Describes(ls, vendors, id, c) && c.entry == e && LeastBacker(ls, id, e, i) && c.minProvider == ls[i].provider
    ensures c.vendor == Vouched(ls, vendors, id, e) && c.votes == |Backers(ls, id, e)|
  {
    i := LeastExists(ls, id, e);
    LeastIsLeast(ls, id, e, i);
    VotesAreBackers(ls, id, e);
    VouchedIsOfficial(ls, vendors, id, e);
    c := Candidate(e, Official(ls, vendors, id, e), Votes(ls, id, e), ls[i].provider);
  }

  lemma LeadsByLeast(ls: seq<Listing>, id: string, e: Entry, f: Entry, i: nat, j: nat)
    requires LeastBacker(ls, id, e, i) && LeastBacker(ls, id, f, j)
    ensures Leads(ls, id, e, f) <==> ls[i].provider == ls[j].provider || Less(ls[i].provider, ls[j].provider)
  {
    if ls[i].provider == ls[j].provider || Less(ls[i].provider, ls[j].provider) {
      forall k | k in Backers(ls, id, f) ensures ls[i].provider == ls[k].provider || Less(ls[i].provider, ls[k].provider) {
        AtMostTwice(ls[i].provider, ls[j].provider, ls[k].provider);
      }
    }
    if Leads(ls, id, e, f) {
      var k :| k in Backers(ls, id, e) &&
        forall j :: j in Backers(ls, id, f) ==> ls[k].provider == ls[j].provider || Less(ls[k].provider, ls[j].provider);
      AtMostTwice(ls[i].provider, ls[k].provider, ls[j].provider);
    }
  }

  lemma AtMostTwice(a: string, b: string, c: string)
    requires (a == b || Less(a, b)) && (b == c || Less(b, c))
    ensures a == c || Less(a, c)
  {
    if a != b && b != c {
      LessIsTransitive(a, b, c);
    }
  }

  // ------------------------------------------------------------ the choice

  /** A description says what the listings say. */
  lemma DescriptionOnListings(ls: seq<Listing>, vendors: set<string>, id: string, c: Candidate) returns (i: nat)
    requires Describes(ls, vendors, id, c) && Backers(ls, id, c.entry) != {}
    ensures c.vendor == Vouched(ls, vendors, id, c.entry) && c.votes == |Backers(ls, id, c.entry)|
    ensures LeastBacker(ls, id, c.entry, i) && c.minProvider == ls[i].provider
  {
    var d;
    d, i := Described(ls, vendors, id, c.entry);
    SoleLeast(ls, id, c.entry, c.minProvider, d.minProvider);
  }

  lemma LeadsByProvider(ls: seq<Listing>, vendors: set<string>, id: string, c: Candidate, d: Candidate)
    requires Describes(ls, vendors, id, c) && Describes(ls, vendors, id, d)
    requires Backers(ls, id, c.entry) != {} && Backers(ls, id, d.entry) != {}
    ensures Leads(ls, id, c.entry, d.entry) <==> c.minProvider == d.minProvider || Less(c.minProvider, d.minProvider)
  {
    var i := DescriptionOnListings(ls, vendors, id, c);
    var j := DescriptionOnListings(ls, vendors, id, d);
    LeadsByLeast(ls, id, c.entry, d.entry, i, j);
  }

  /** What the comparison of two candidates comes to. */
  lemma Compared(ls: seq<Listing>, vendors: set<string>, id: string, c: Candidate, d: Candidate)
    requires c.vendor == Vouched(ls, vendors, id, c.entry) && d.vendor == Vouched(ls, vendors, id, d.entry)
    requires c.votes == |Backers(ls, id, c.entry)| && d.votes == |Backers(ls, id, d.entry)|
    requires Leads(ls, id, c.entry, d.entry) <==> c.minProvider == d.minProvider || Less(c.minProvider, d.minProvider)
    requires Leads(ls, id, d.entry, c.entry) <==> c.minProvider == d.minProvider || Less(d.minProvider, c.minProvider)
    ensures Preferred(ls, vendors, id, c.entry, d.entry) <==>
            !Better(d, c) && (Better(c, d) || Earlier(ls, id, c.entry, d.entry))
  {
    ByProvider(c, d);
  }

  /** Being better, and being preferred. */
  lemma PreferredIsBetter(ls: seq<Listing>, vendors: set<string>, id: string, c: Candidate, d: Candidate)
    requires Describes(ls, vendors, id, c) && Describes(ls, vendors, id, d)
    requires Backers(ls, id, c.entry) != {} && Backers(ls, id, d.entry) != {}
    ensures Preferred(ls, vendors, id, c.entry, d.entry) <==>
            !Better(d, c) && (Better(c, d) || FirstAt(ls, id, c.entry) <= FirstAt(ls, id, d.entry))
  {
    var _ := DescriptionOnListings(ls, vendors, id, c);
    var _ := DescriptionOnListings(ls, vendors, id, d);
    LeadsByProvider(ls, vendors, id, c, d);
    LeadsByProvider(ls, vendors, id, d, c);
    Compared(ls, vendors, id, c, d);
    EarlierIsFirst(ls, id, c.entry, d.entry);
  }

  lemma ByProvider(c: Candidate, d: Candidate)
    ensures !(Less(c.minProvider, d.minProvider) && Less(d.minProvider, c.minProvider))
    ensures c.minProvider == d.minProvider ==> !Less(c.minProvider, d.minProvider)
    ensures c.minProvider != d.minProvider ==> Less(c.minProvider, d.minProvider) || Less(d.minProvider, c.minProvider)
  {
    LessIsIrreflexive(c.minProvider);
    if c.minProvider != d.minProvider {
      LessIsTotal(c.minProvider, d.minProvider);
    }
    if Less(c.minProvider, d.minProvider) && Less(d.minProvider, c.minProvider) {
      LessIsTransitive(c.minProvider, d.minProvider, c.minProvider);
    }
  }

  lemma DescribedIsBacked(ls: seq<Listing>, vendors: set<string>, id: string, c: Candidate)
    requires Describes(ls, vendors, id, c)
    ensures Backers(ls, id, c.entry) != {}
  {
    VotesAreBackers(ls, id, c.entry);
  }

  /** What does not beat an unbeaten candidate, and is not beaten by it, is unbeaten too. */
  lemma EqualIsUnbeaten(ls: seq<Listing>, vendors: set<string>, id: string, c: Candidate, d: Candidate)
    requires Unbeaten(ls, vendors, id, c) && Describes(ls, vendors, id, d) && !Better(c, d)
    ensures Unbeaten(ls, vendors, id, d)
  {
    forall k | Describes(ls, vendors, id, k) ensures !Better(k, d) {
      if Better(k, d) {
        BetterThanWorse(k, d, c);
      }
    }
  }

  lemma ChoiceIsPreferred(ls: seq<Listing>, vendors: set<string>, id: string, e: Entry, f: Entry)
    requires IsChoice(ls, vendors, id, e) && Backers(ls, id, f) != {}
    ensures Backers(ls, id, e) != {} && Preferred(ls, vendors, id, e, f)
  {
    var c: Candidate :| c.entry == e && Unbeaten(ls, vendors, id, c)
      && forall d :: Unbeaten(ls, vendors, id, d) ==> FirstAt(ls, id, e) <= FirstAt(ls, id, d.entry);
    DescribedIsBacked(ls, vendors, id, c);
    var d, _ := Described(ls, vendors, id, f);
    PreferredIsBetter(ls, vendors, id, c, d);
    if !Better(c, d) {
      EqualIsUnbeaten(ls, vendors, id, c, d);
    }
  }

  lemma PreferredIsChoice(ls: seq<Listing>, vendors: set<string>, id: string, e: Entry)
    requires Backers(ls, id, e) != {} && forall f :: Backers(ls, id, f) != {} ==> Preferred(ls, vendors, id, e, f)
    ensures IsChoice(ls, vendors, id, e)
  {
    var c, _ := Described(ls, vendors, id, e);
    forall d | Describes(ls, vendors, id, d)
      ensures !Better(d, c) && (Better(c, d) || FirstAt(ls, id, e) <= FirstAt(ls, id, d.entry))
    {
      DescribedIsBacked(ls, vendors, id, d);
      PreferredIsBetter(ls, vendors, id, c, d);
    }
    assert Unbeaten(ls, vendors, id, c);
    assert forall d :: Unbeaten(ls, vendors, id, d) ==> !Better(c, d);
  }

  /** The index holds exactly the value that is preferred to every other listed one. */
  lemma ChoiceOnListings(ls: seq<Listing>, vendors: set<string>, id: string, e: Entry)
    ensures IsChoice(ls, vendors, id, e) <==>
            Backers(ls, id, e) != {} && forall f :: Backers(ls, id, f) != {} ==> Preferred(ls, vendors, id, e, f)
  {
    if IsChoice(ls, vendors, id, e) {
      var c: Candidate :| c.entry == e && Unbeaten(ls, vendors, id, c);
      DescribedIsBacked(ls, vendors, id, c);
      forall f | Backers(ls, id, f) != {} ensures Preferred(ls, vendors, id, e, f) {
        ChoiceIsPreferred(ls, vendors, id, e, f);
      }
    } else if Backers(ls, id, e) != {} && forall f :: Backers(ls, id, f) != {} ==> Preferred(ls, vendors, id, e, f) {
      PreferredIsChoice(ls, vendors, id, e);
    }
  }

  /** An id is in the index exactly when some listing gives it a value in range. */
  lemma IndexedIsListed(ls: seq<Listing>, vendors: set<string>, index: map<string, Entry>, id: string)
    requires IsIndex(ls, vendors, index)
    ensures id in index <==> exists e: Entry :: Backers(ls, id, e) != {}
  {
    if id in index {
      assert IsChoice(ls, vendors, id, index[id]);
      ChoiceOnListings(ls, vendors, id, index[id]);
    }
    forall e: Entry | Backers(ls, id, e) != {} ensures id in index {
      var i :| i in Backers(ls, id, e);
      BacksIsGives(ls[i], id, e);
      assert Names(ls[i], id);
    }
  }
}
