/** How pick chooses among the accounts of one cost tier (internal/pool/pick.go). */
module PoolPick {
  import opened Common
  import opened PoolEntry

  const SHORTLIST := 5

  /** A candidate with its weight, its price and when it was used last, read once. */
  datatype Weighted = Weighted(uid: UID, w: real, cost: real, use: Use)

  // ------------------------------------------------------------ ranking

  /** Cheaper first, then heavier, then by name. */
  predicate Ahead(a: Weighted, b: Weighted) {
    a.cost < b.cost || (a.cost == b.cost && (a.w > b.w || (a.w == b.w && Less(a.uid, b.uid))))
  }

  lemma AheadIsTotal(a: Weighted, b: Weighted)
    requires a.uid != b.uid
    ensures Ahead(a, b) || Ahead(b, a)
  {
    LessIsTotal(a.uid, b.uid);
  }

  lemma AheadIsTransitive(a: Weighted, b: Weighted, c: Weighted)
    requires Ahead(a, b) && Ahead(b, c)
    ensures Ahead(a, c)
  {
    if a.cost == b.cost == c.cost && a.w == b.w == c.w {
      LessIsTransitive(a.uid, b.uid, c.uid);
    }
  }

  lemma AheadIsIrreflexive(a: Weighted)
    ensures !Ahead(a, a)
  {
    LessIsIrreflexive(a.uid);
  }

  predicate Ranked(ws: seq<Weighted>) {
    forall i, j :: 0 <= i < j < |ws| ==> Ahead(ws[i], ws[j])
  }

  predicate Distinct(ws: seq<Weighted>) {
    forall i, j :: 0 <= i < j < |ws| ==> ws[i].uid != ws[j].uid
  }

  function Members(ws: seq<Weighted>): set<Weighted> {
    set w | w in ws
  }

  /** Where a newcomer belongs. */
  method Position(ws: seq<Weighted>, w: Weighted) returns (k: nat)
    ensures k <= |ws|
    ensures forall i :: 0 <= i < k ==> !Ahead(w, ws[i])
    ensures k < |ws| ==> Ahead(w, ws[k])
  {
    k := 0;
    while k < |ws| && !Ahead(w, ws[k])
      invariant k <= |ws| && forall i :: 0 <= i < k ==> !Ahead(w, ws[i])
    {
      k := k + 1;
    }
  }

  lemma InsertRanked(ws: seq<Weighted>, w: Weighted, k: nat)
    requires Ranked(ws) && k <= |ws| && forall i :: 0 <= i < |ws| ==> ws[i].uid != w.uid
    requires forall i :: 0 <= i < k ==> !Ahead(w, ws[i])
    requires k < |ws| ==> Ahead(w, ws[k])
    ensures Ranked(ws[..k] + [w] + ws[k..])
  {
    var r := ws[..k] + [w] + ws[k..];
    forall i, j | 0 <= i < j < |r| ensures Ahead(r[i], r[j]) {
      if j == k {
        AheadIsTotal(w, ws[i]);
      } else if i == k && k < j - 1 {
        AheadIsTransitive(w, ws[k], ws[j - 1]);
      }
    }
  }

  /** The sort of the candidates. */
  method Rank(cands: seq<Weighted>) returns (ws: seq<Weighted>)
    requires Distinct(cands)
    ensures Ranked(ws) && Members(ws) == Members(cands) && Distinct(ws) && |ws| == |cands|
  {
    ws := [];
    for n := 0 to |cands|
      invariant Ranked(ws) && |ws| == n
      invariant forall w :: w in ws <==> w in cands[..n]
    {
      var w := cands[n];
      forall i | 0 <= i < |ws| ensures ws[i].uid != w.uid {
        assert ws[i] in ws;
        var j :| 0 <= j < n && cands[j] == ws[i];
      }
      var k := Position(ws, w);
      InsertRanked(ws, w, k);
      assert ws == ws[..k] + ws[k..] && cands[..n + 1] == cands[..n] + [w];
      ws := ws[..k] + [w] + ws[k..];
    }
    assert cands[..|cands|] == cands;
    RankedIsDistinct(ws, cands);
  }

  lemma RankedIsDistinct(ws: seq<Weighted>, cands: seq<Weighted>)
    requires Ranked(ws) && Distinct(cands) && forall w :: w in ws ==> w in cands
    ensures Distinct(ws)
  {
    forall i, j | 0 <= i < j < |ws| ensures ws[i].uid != ws[j].uid {
      if ws[i].uid == ws[j].uid {
        assert ws[i] in cands && ws[j] in cands;
        var a :| 0 <= a < |cands| && cands[a] == ws[i];
        var b :| 0 <= b < |cands| && cands[b] == ws[j];
        AheadIsIrreflexive(ws[i]);
      }
    }
  }

  /** Two rankings of the same candidates are the same list: the shuffle that pick does
      before it sorts has no effect on what it chooses. */
  lemma {:induction false} RankingIsUnique(a: seq<Weighted>, b: seq<Weighted>)
    requires Ranked(a) && Ranked(b) && Members(a) == Members(b)
    ensures a == b
  {
    if a == [] {
      EmptyMembers(b);
    } else {
      assert a[0] in Members(a);
      assert a[0] in b && b != [] && b[0] in Members(b) && b[0] in a;
      SameFirst(a, b);
      TailMembers(a);
      TailMembers(b);
      RankingIsUnique(a[1..], b[1..]);
      assert a == [a[0]] + a[1..] && b == [b[0]] + b[1..];
    }
  }

  lemma EmptyMembers(b: seq<Weighted>)
    ensures Members(b) == {} <==> b == []
  {
    if b != [] {
      assert b[0] in Members(b);
    }
  }

  lemma SameFirst(a: seq<Weighted>, b: seq<Weighted>)
    requires Ranked(a) && Ranked(b) && a != [] && b != [] && a[0] in b && b[0] in a
    ensures a[0] == b[0]
  {
    var i :| 0 <= i < |b| && b[i] == a[0];
    var j :| 0 <= j < |a| && a[j] == b[0];
    if i != 0 && j != 0 {
      AheadIsTransitive(a[0], b[0], a[0]);
      AheadIsIrreflexive(a[0]);
    }
  }

  lemma TailMembers(a: seq<Weighted>)
    requires Ranked(a) && a != []
    ensures Members(a[1..]) == Members(a) - {a[0]} && Ranked(a[1..])
  {
    AheadIsIrreflexive(a[0]);
    forall w | w in a && w != a[0] ensures w in a[1..] {
      var i :| 0 <= i < |a| && a[i] == w;
      assert a[1..][i - 1] == w;
    }
  }

  // ------------------------------------------------------------ the draw

  const SCALE := 1_000_000

  /** A weight in fixed point, rounded, never below one. */
  function Share(w: Weighted): (r: nat)
    ensures r >= 1
  {
    var x := w.w * SCALE as real + 0.5;
    if x < 1.0 then 1 else x.Floor
  }

  /** The share is the weight in millionths, to the nearest one, unless that is none at all. */
  lemma ShareRounds(w: Weighted)
    requires w.w * 1_000_000.0 >= 0.5
    ensures -0.5 < Share(w) as real - w.w * 1_000_000.0 <= 0.5
  {
  }

  function Shares(ws: seq<Weighted>): nat {
    if ws == [] then 0 else Shares(ws[..|ws| - 1]) + Share(ws[|ws| - 1])
  }

  lemma {:induction false} SharesGrow(ws: seq<Weighted>, i: nat)
    requires i <= |ws|
    ensures Shares(ws[..i]) + (|ws| - i) <= Shares(ws)
  {
    if i == |ws| {
      assert ws[..i] == ws;
    } else {
      SharesGrow(ws[..|ws| - 1], i);
      assert ws[..|ws| - 1][..i] == ws[..i];
    }
  }

  /** The candidate whose share of the interval [0, total) holds the drawn number: each is
      drawn for exactly as many numbers as its share. */
  method PickWeighted(ws: seq<Weighted>, draw: nat) returns (k: nat)
    requires ws != [] && draw < Shares(ws)
    ensures k < |ws| && Shares(ws[..k]) <= draw < Shares(ws[..k]) + Share(ws[k])
  {
    k := 0;
    var acc := Share(ws[0]);
    assert ws[..1][..0] == [] && ws[..0] == [];
    while acc <= draw
      invariant k < |ws| && Shares(ws[..k]) <= draw && acc == Shares(ws[..k]) + Share(ws[k])
      decreases |ws| - k
    {
      assert ws[..k + 1][..k] == ws[..k];
      assert ws[..|ws|] == ws;
      k := k + 1;
      acc := acc + Share(ws[k]);
    }
  }

  // ------------------------------------------------------------ the choice

  predicate Rested(w: Weighted, now: Time, gap: int) {
    now - w.use.lastUsed >= gap
  }

  predicate Shortlisted(ws: seq<Weighted>, k: nat) {
    k < |ws| && k < SHORTLIST
  }

  /** The rule: a rested account of the shortlist while there is one, else the account of the
      whole tier that was chosen longest ago. */
  ghost predicate Chosen(ws: seq<Weighted>, now: Time, gap: int, k: nat) {
    && k < |ws|
    && ((Shortlisted(ws, k) && Rested(ws[k], now, gap)) ||
        (&& (forall j: nat :: Shortlisted(ws, j) ==> !Rested(ws[j], now, gap))
         && (forall j :: 0 <= j < |ws| ==> ws[k].use.sequence <= ws[j].use.sequence)
         && (forall j :: 0 <= j < k ==> ws[k].use.sequence < ws[j].use.sequence)))
  }

  method LeastUsed(ws: seq<Weighted>) returns (k: nat)
    requires ws != []
    ensures k < |ws| && forall j :: 0 <= j < |ws| ==> ws[k].use.sequence <= ws[j].use.sequence
    ensures forall j :: 0 <= j < k ==> ws[k].use.sequence < ws[j].use.sequence
  {
    k := 0;
    for i := 1 to |ws|
      invariant k < i && forall j :: 0 <= j < i ==> ws[k].use.sequence <= ws[j].use.sequence
      invariant forall j :: 0 <= j < k ==> ws[k].use.sequence < ws[j].use.sequence
    {
      if ws[i].use.sequence < ws[k].use.sequence {
        k := i;
      }
    }
  }

  /** The rested among the first `n`, in order. */
  function RestedOf(ws: seq<Weighted>, n: nat, now: Time, gap: int): seq<Weighted>
    requires n <= |ws|
  {
    if n == 0 then []
    else RestedOf(ws, n - 1, now, gap) + if Rested(ws[n - 1], now, gap) then [ws[n - 1]] else []
  }

  /** The account whose share of the rested shortlist holds the drawn number. */
  ghost predicate Drawn(ws: seq<Weighted>, now: Time, gap: int, draw: nat, k: nat) {
    var el := RestedOf(ws, if |ws| < SHORTLIST then |ws| else SHORTLIST, now, gap);
    el != [] ==>
      && Shares(el) > 0 && k < |ws|
      && exists i: nat :: i < |el| && el[i] == ws[k] && Shares(el[..i]) <= draw % Shares(el) < Shares(el[..i]) + Share(el[i])
  }

  /** The positions of the rested accounts of the shortlist, in order. */
  method Eligible(ws: seq<Weighted>, now: Time, gap: int) returns (es: seq<nat>)
    ensures forall i :: 0 <= i < |es| ==> Shortlisted(ws, es[i]) && Rested(ws[es[i]], now, gap)
    ensures forall j: nat :: Shortlisted(ws, j) && Rested(ws[j], now, gap) ==> j in es
    ensures forall i :: 0 <= i < |es| ==> es[i] < |ws|
    ensures At(ws, es) == RestedOf(ws, if |ws| < SHORTLIST then |ws| else SHORTLIST, now, gap)
  {
    es := [];
    var n := if |ws| < SHORTLIST then |ws| else SHORTLIST;
    for i := 0 to n
      invariant forall k :: 0 <= k < |es| ==> Shortlisted(ws, es[k]) && Rested(ws[es[k]], now, gap)
      invariant forall j: nat :: j < i && Rested(ws[j], now, gap) ==> j in es
      invariant At(ws, es) == RestedOf(ws, i, now, gap)
    {
      if Rested(ws[i], now, gap) {
        assert At(ws, es + [i]) == At(ws, es) + [ws[i]];
        es := es + [i];
      }
    }
  }

  function At(ws: seq<Weighted>, es: seq<nat>): (r: seq<Weighted>)
    requires forall i :: 0 <= i < |es| ==> es[i] < |ws|
    ensures |r| == |es| && forall i :: 0 <= i < |es| ==> r[i] == ws[es[i]]
  {
    seq(|es|, i requires 0 <= i < |es| => ws[es[i]])
  }

  method Choose(ws: seq<Weighted>, now: Time, gap: int, draw: nat) returns (k: nat)
    requires ws != []
    ensures Chosen(ws, now, gap, k) && Drawn(ws, now, gap, draw, k)
  {
    var es := Eligible(ws, now, gap);
    if es == [] {
      k := LeastUsed(ws);
      assert forall j: nat :: Shortlisted(ws, j) ==> !Rested(ws[j], now, gap);
    } else {
      var eligible := At(ws, es);
      SharesGrow(eligible, 0);
      var i := PickWeighted(eligible, draw % Shares(eligible));
      k := es[i];
    }
  }
}
