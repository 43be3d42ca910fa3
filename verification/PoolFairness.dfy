/** What runs of selections guarantee (internal/pool/pick.go, internal/pool/state.go). */
module PoolFairness {
  import opened Common
  import opened PoolEntry
  import opened PoolTransition
  import opened PoolPick
  import opened AccountPool
  import PoolBackoff

  // ------------------------------------------------------------ anything that happens to a pool

  /** The step from one pool to the next selects the account, on whichever path. */
  predicate Selects(p: Pool, p': Pool, at: Time, uid: UID) {
    uid in p'.byUID && p.pickSeq < p'.byUID[uid].use.sequence <= p'.pickSeq && p'.byUID[uid].use.lastUsed == at
  }

  /** Accounts may be selected, join, leave and change in every other way; the use of those
      that stay without being selected is kept. */
  predicate Advances(p: Pool, p': Pool, at: Time) {
    && p.pickSeq <= p'.pickSeq
    && forall uid :: uid in p'.byUID ==>
         || Selects(p, p', at, uid)
         || p'.byUID[uid].use == if uid in p.byUID then p.byUID[uid].use else Use(NO_TIME, 0)
  }

  /** Picks of any model and realm, whether they choose in the normal way, fall back or fail. */
  lemma PickAdvances(s: Settings, p: Pool, q: Request, now: Time, r: Option<UID>, p': Pool)
    requires PickOK(s, p, q, now, r, p')
    ensures Advances(p, p', now) && (r.Some? ==> Selects(p, p', now, r.value))
  {
  }

  /** Sticky selections. */
  lemma MarkAdvances(p: Pool, now: Time, uid: UID)
    requires uid in p.byUID
    ensures Advances(p, Mark(p, now, uid), now) && Selects(p, Mark(p, now, uid), now, uid)
  {
  }

  /** Events of an account: errors, limits, successes, costs and switches. */
  lemma EventAdvances(c: Config, p: Pool, uid: UID, ev: Event, now: Time)
    requires uid in p.byUID && !ev.Picked?
    ensures Advances(p, p.(byUID := p.byUID[uid := Step(c, p.byUID[uid], ev, now)]), now)
  {
  }

  predicate AdvanceAt(states: seq<Pool>, times: seq<Time>, k: nat)
    requires |states| == |times| + 1 && k < |times|
  {
    Advances(states[k], states[k + 1], times[k])
  }

  predicate SelectAt(states: seq<Pool>, times: seq<Time>, k: nat, uid: UID)
    requires |states| == |times| + 1 && k < |times|
  {
    Selects(states[k], states[k + 1], times[k], uid)
  }

  /** Whatever happens to a pool, at times that do not go back. */
  predicate IsCourse(states: seq<Pool>, times: seq<Time>) {
    && |states| == |times| + 1
    && (forall k: nat :: k < |times| ==> AdvanceAt(states, times, k))
    && (forall i, j :: 0 <= i <= j < |times| ==> times[i] <= times[j])
  }

  /** No account is numbered above the last selection. */
  predicate Numbered(p: Pool) {
    forall uid :: uid in p.byUID ==> p.byUID[uid].use.sequence <= p.pickSeq
  }

  lemma {:induction false} CourseNumbered(states: seq<Pool>, times: seq<Time>, k: nat)
    requires IsCourse(states, times) && Numbered(states[0]) && k <= |times|
    ensures Numbered(states[k])
  {
    if k > 0 {
      CourseNumbered(states, times, k - 1);
      assert AdvanceAt(states, times, k - 1);
    }
  }

  lemma {:induction false} CountsUp(states: seq<Pool>, times: seq<Time>, i: nat, j: nat)
    requires IsCourse(states, times) && i <= j <= |times|
    ensures states[i].pickSeq <= states[j].pickSeq
    decreases j
  {
    if i < j {
      CountsUp(states, times, i, j - 1);
      assert AdvanceAt(states, times, j - 1);
    }
  }

  /** A number above those of the time `i` was given since. */
  lemma {:induction false} NumberedSince(states: seq<Pool>, times: seq<Time>, i: nat, j: nat, uid: UID)
    requires IsCourse(states, times) && Numbered(states[0]) && i <= j <= |times|
    requires uid in states[j].byUID && states[j].byUID[uid].use.sequence > states[i].pickSeq
    ensures exists k :: i <= k < j && SelectAt(states, times, k, uid)
    decreases j
  {
    CourseNumbered(states, times, i);
    assert i < j;
    assert AdvanceAt(states, times, j - 1);
    if !SelectAt(states, times, j - 1, uid) {
      NumberedSince(states, times, i, j - 1, uid);
    }
  }

  /** A selected account that stays keeps that selection's number and time, or gets later ones. */
  lemma {:induction false} UsedSince(states: seq<Pool>, times: seq<Time>, i: nat, j: nat, uid: UID)
    requires IsCourse(states, times) && i < j <= |times| && SelectAt(states, times, i, uid)
    requires forall k :: i < k <= j ==> uid in states[k].byUID
    ensures states[j].byUID[uid].use.sequence > states[i].pickSeq && states[j].byUID[uid].use.lastUsed >= times[i]
    decreases j
  {
    if i < j - 1 {
      UsedSince(states, times, i, j - 1, uid);
      CountsUp(states, times, i, j - 1);
      assert AdvanceAt(states, times, j - 1) && times[i] <= times[j - 1];
    }
  }

  // ------------------------------------------------------------ the fair choice

  /** The chosen account is rested, or the one chosen longest ago among the competitors. */
  predicate FairChoice(s: Settings, p: Pool, cs: set<UID>, now: Time, uid: UID)
    requires cs <= p.byUID.Keys && uid in cs
  {
    now - p.byUID[uid].use.lastUsed >= s.gap ||
    forall c :: c in cs ==> p.byUID[uid].use.sequence <= p.byUID[c].use.sequence
  }

  lemma WinnerIsFair(s: Settings, p: Pool, q: Request, now: Time, uid: UID)
    requires Wins(s, p, q, now, uid)
    ensures var cs := Competitors(s, p, q, now); uid in cs && FairChoice(s, p, cs, now, uid)
  {
    var ws: seq<Weighted>, k: nat :| IsRanking(s, p, q, now, ws) && Chosen(ws, now, s.gap, k) && ws[k].uid == uid;
    RankedUse(s, p, q, now, ws);
    var cs := Competitors(s, p, q, now);
    if !(now - p.byUID[uid].use.lastUsed >= s.gap) {
      forall c | c in cs ensures p.byUID[uid].use.sequence <= p.byUID[c].use.sequence {
        assert Has(ws, c);
        var i :| 0 <= i < |ws| && ws[i].uid == c;
      }
    }
  }

  lemma RankedUse(s: Settings, p: Pool, q: Request, now: Time, ws: seq<Weighted>)
    requires IsRanking(s, p, q, now, ws)
    ensures forall i :: 0 <= i < |ws| ==> ws[i].uid in p.byUID && ws[i].use == p.byUID[ws[i].uid].use
  {
  }

  /** Whatever else happens to the pool: an account that was selected on any path less than
      the gap ago, and has stayed, wins again only when every competitor has been selected in
      between. */
  lemma EveryoneInBetween(s: Settings, states: seq<Pool>, times: seq<Time>, i: nat, j: nat, q: Request, uid: UID, c: UID)
    requires IsCourse(states, times) && Numbered(states[0]) && i < j < |times| && times[j] < times[i] + s.gap
    requires SelectAt(states, times, i, uid) && forall k :: i < k <= j ==> uid in states[k].byUID
    requires Wins(s, states[j], q, times[j], uid) && c in Competitors(s, states[j], q, times[j])
    ensures exists k :: i <= k < j && SelectAt(states, times, k, c)
  {
    UsedSince(states, times, i, j, uid);
    WinnerIsFair(s, states[j], q, times[j], uid);
    NumberedSince(states, times, i, j, c);
  }

  // ------------------------------------------------------------ bursts of selections

  /** One selection of a run. */
  datatype Turn = Turn(request: Request, at: Time, uid: UID)

  /** The turn chose its account in the normal way. */
  ghost predicate IsTurn(s: Settings, p: Pool, t: Turn, p': Pool) {
    Candidates(s, p, t.request, t.at) != {} && PickOK(s, p, t.request, t.at, Some(t.uid), p')
  }

  ghost predicate TurnAt(s: Settings, states: seq<Pool>, turns: seq<Turn>, i: nat)
    requires |states| == |turns| + 1 && i < |turns|
  {
    IsTurn(s, states[i], turns[i], states[i + 1])
  }

  predicate CompeteAt(s: Settings, cs: set<UID>, states: seq<Pool>, turns: seq<Turn>, i: nat)
    requires |states| == |turns| + 1 && i < |turns|
  {
    Competitors(s, states[i], turns[i].request, turns[i].at) == cs
  }

  /** Selections one after the other, with the same competitors each time, within less than
      the gap. */
  ghost predicate IsBurst(s: Settings, cs: set<UID>, states: seq<Pool>, turns: seq<Turn>) {
    && |states| == |turns| + 1
    && (forall i: nat :: i < |turns| ==> TurnAt(s, states, turns, i))
    && (forall i: nat :: i < |turns| ==> CompeteAt(s, cs, states, turns, i))
    && (forall i, j :: 0 <= i <= j < |turns| ==> turns[i].at <= turns[j].at < turns[i].at + s.gap)
  }

  function Times(turns: seq<Turn>): seq<Time> {
    seq(|turns|, i requires 0 <= i < |turns| => turns[i].at)
  }

  lemma BurstIsCourse(s: Settings, cs: set<UID>, states: seq<Pool>, turns: seq<Turn>)
    requires IsBurst(s, cs, states, turns)
    ensures IsCourse(states, Times(turns))
  {
    forall k: nat | k < |turns| ensures AdvanceAt(states, Times(turns), k) {
      assert TurnAt(s, states, turns, k);
      PickAdvances(s, states[k], turns[k].request, turns[k].at, Some(turns[k].uid), states[k + 1]);
    }
  }

  /** A turn selects its own account and no other. */
  lemma TurnSelects(s: Settings, p: Pool, t: Turn, p': Pool, uid: UID)
    requires IsTurn(s, p, t, p') && Numbered(p)
    ensures Selects(p, p', t.at, uid) <==> uid == t.uid
  {
  }

  lemma TurnKeeps(s: Settings, p: Pool, t: Turn, p': Pool)
    requires IsTurn(s, p, t, p')
    ensures p'.byUID.Keys == p.byUID.Keys
  {
  }

  lemma {:induction false} BurstKeeps(s: Settings, cs: set<UID>, states: seq<Pool>, turns: seq<Turn>, i: nat, j: nat)
    requires IsBurst(s, cs, states, turns) && i <= j <= |turns|
    ensures states[i].byUID.Keys == states[j].byUID.Keys
    decreases j
  {
    if i < j {
      BurstKeeps(s, cs, states, turns, i, j - 1);
      assert TurnAt(s, states, turns, j - 1);
      TurnKeeps(s, states[j - 1], turns[j - 1], states[j]);
    }
  }

  /** In a burst, between two turns of one account every competitor has had a turn. */
  lemma TurnsInBetween(s: Settings, cs: set<UID>, states: seq<Pool>, turns: seq<Turn>, i: nat, j: nat, c: UID)
    requires IsBurst(s, cs, states, turns) && Numbered(states[0]) && i < j < |turns|
    requires turns[i].uid == turns[j].uid && c in cs
    ensures exists k :: i <= k < j && turns[k].uid == c
  {
    var u, times := turns[j].uid, Times(turns);
    BurstIsCourse(s, cs, states, turns);
    CourseNumbered(states, times, i);
    assert TurnAt(s, states, turns, i) && TurnAt(s, states, turns, j) && CompeteAt(s, cs, states, turns, j);
    TurnSelects(s, states[i], turns[i], states[i + 1], u);
    forall k | i < k <= j ensures u in states[k].byUID {
      BurstKeeps(s, cs, states, turns, k, j);
    }
    EveryoneInBetween(s, states, times, i, j, turns[j].request, u, c);
    var k :| i <= k < j && SelectAt(states, times, k, c);
    CourseNumbered(states, times, k);
    assert TurnAt(s, states, turns, k);
    TurnSelects(s, states[k], turns[k], states[k + 1], c);
  }

  function Uids(turns: seq<Turn>, i: nat, j: nat): set<UID>
    requires i <= j <= |turns|
  {
    set k | i <= k < j :: turns[k].uid
  }

  lemma {:induction false} UidsSize(turns: seq<Turn>, i: nat, j: nat)
    requires i <= j <= |turns|
    ensures |Uids(turns, i, j)| <= j - i
    ensures (forall a, b :: i <= a < b < j ==> turns[a].uid != turns[b].uid) ==> |Uids(turns, i, j)| == j - i
    decreases j
  {
    if i < j {
      UidsSize(turns, i, j - 1);
      assert Uids(turns, i, j) == Uids(turns, i, j - 1) + {turns[j - 1].uid};
    }
  }

  lemma SubsetSize<T>(a: set<T>, b: set<T>)
    requires a <= b
    ensures |a| <= |b| && (|a| == |b| ==> a == b)
  {
    assert b == a + (b - a);
  }

  /** Within as many turns as there are competitors, no account has two. */
  lemma NoRepeat(s: Settings, cs: set<UID>, states: seq<Pool>, turns: seq<Turn>, i: nat, j: nat)
    requires IsBurst(s, cs, states, turns) && Numbered(states[0]) && i < j < |turns| && j - i < |cs|
    ensures turns[i].uid != turns[j].uid
  {
    if turns[i].uid == turns[j].uid {
      forall c | c in cs ensures c in Uids(turns, i, j) {
        TurnsInBetween(s, cs, states, turns, i, j, c);
      }
      UidsSize(turns, i, j);
      SubsetSize(cs, Uids(turns, i, j));
      assert false;
    }
  }

  lemma OneLeft(cs: set<UID>, used: set<UID>, a: UID, b: UID)
    requires used <= cs && |used| == |cs| - 1 && a in cs - used && b in cs - used
    ensures a == b
  {
    var left := cs - used;
    assert cs == used + left;
    assert |left| == 1 && left == {a} + (left - {a});
  }

  /** Turns among `cs` that do not repeat within |cs| steps go round. */
  lemma Rotation(cs: set<UID>, turns: seq<Turn>, i: nat)
    requires cs != {} && i + |cs| < |turns|
    requires forall k :: 0 <= k < |turns| ==> turns[k].uid in cs
    requires forall a, b :: 0 <= a < b < |turns| && b - a < |cs| ==> turns[a].uid != turns[b].uid
    ensures turns[i + |cs|].uid == turns[i].uid
  {
    UidsSize(turns, i + 1, i + |cs|);
    OneLeft(cs, Uids(turns, i + 1, i + |cs|), turns[i].uid, turns[i + |cs|].uid);
  }

  /** The burst is an exact round robin: the turns repeat with the number of competitors. */
  lemma RoundRobin(s: Settings, cs: set<UID>, states: seq<Pool>, turns: seq<Turn>, i: nat)
    requires IsBurst(s, cs, states, turns) && Numbered(states[0]) && i + |cs| < |turns|
    ensures turns[i + |cs|].uid == turns[i].uid
  {
    TurnsCompete(s, cs, states, turns);
    assert turns[i].uid in cs;
    forall a, b | 0 <= a < b < |turns| && b - a < |cs| ensures turns[a].uid != turns[b].uid {
      NoRepeat(s, cs, states, turns, a, b);
    }
    Rotation(cs, turns, i);
  }

  lemma TurnsCompete(s: Settings, cs: set<UID>, states: seq<Pool>, turns: seq<Turn>)
    requires IsBurst(s, cs, states, turns)
    ensures forall k :: 0 <= k < |turns| ==> turns[k].uid in cs
  {
    forall k | 0 <= k < |turns| ensures turns[k].uid in cs {
      assert TurnAt(s, states, turns, k) && CompeteAt(s, cs, states, turns, k);
      WinnerIsFair(s, states[k], turns[k].request, turns[k].at, turns[k].uid);
    }
  }

  // ------------------------------------------------------------ exploration

  /** A pick with any outcome, or anything else that happens to the pool. */
  datatype Ask = Ask(request: Request, at: Time, result: Option<UID>) | Other(at: Time)

  /** Sticky selections and account events leave the exploration times alone. */
  ghost predicate AskAt(s: Settings, states: seq<Pool>, asks: seq<Ask>, i: nat)
    requires |states| == |asks| + 1 && i < |asks|
  {
    match asks[i]
    case Ask(q, at, r) => PickOK(s, states[i], q, at, r, states[i + 1])
    case Other(_) => states[i + 1].explored == states[i].explored
  }

  /** Steps at times that do not go back. */
  ghost predicate IsHistory(s: Settings, states: seq<Pool>, asks: seq<Ask>) {
    && |states| == |asks| + 1
    && (forall i: nat :: i < |asks| ==> AskAt(s, states, asks, i))
    && (forall i, j :: 0 <= i <= j < |asks| ==> asks[i].at <= asks[j].at)
  }

  predicate ExploresKey(s: Settings, p: Pool, a: Ask, key: Key) {
    a.Ask? && (a.request.realm, a.request.model) == key && Explores(s, p, a.request, a.at)
  }

  /** How many of the asks from `i` to `j` explore for the key. */
  function Explorations(s: Settings, states: seq<Pool>, asks: seq<Ask>, key: Key, i: nat, j: nat): nat
    requires |states| == |asks| + 1 && i <= j <= |asks|
    decreases j
  {
    if i == j then 0
    else Explorations(s, states, asks, key, i, j - 1) + if ExploresKey(s, states[j - 1], asks[j - 1], key) then 1 else 0
  }

  lemma ExploredAfter(s: Settings, p: Pool, a: Ask, p': Pool, key: Key)
    requires a.Ask? && PickOK(s, p, a.request, a.at, a.result, p')
    ensures LastExplored(p', key) == if ExploresKey(s, p, a, key) then a.at else LastExplored(p, key)
  {
    if ExploresKey(s, p, a, key) {
      assert InTier(p, Candidates(s, p, a.request, a.at), a.request.model, a.at, 0) != {};
    }
  }

  lemma ExploredAt(s: Settings, states: seq<Pool>, asks: seq<Ask>, key: Key, k: nat)
    requires IsHistory(s, states, asks) && k < |asks|
    ensures if ExploresKey(s, states[k], asks[k], key)
            then LastExplored(states[k], key) + s.exploreInterval <= LastExplored(states[k + 1], key) == asks[k].at
            else LastExplored(states[k + 1], key) == LastExplored(states[k], key)
  {
    assert AskAt(s, states, asks, k);
    if asks[k].Ask? {
      ExploredAfter(s, states[k], asks[k], states[k + 1], key);
    }
  }

  /** At least `n` intervals lie between the two times. */
  predicate Apart(start: Time, n: int, d: int, end: Time) {
    start + n * d <= end
  }

  lemma {:induction false} ExplorationsApart(s: Settings, states: seq<Pool>, asks: seq<Ask>, key: Key, i: nat, j: nat)
    requires IsHistory(s, states, asks) && i < j <= |asks|
    ensures var n := Explorations(s, states, asks, key, i, j);
            n > 0 ==> Apart(asks[i].at, n - 1, s.exploreInterval, LastExplored(states[j], key)) && LastExplored(states[j], key) <= asks[j - 1].at
    decreases j
  {
    ExploredAt(s, states, asks, key, j - 1);
    var before := Explorations(s, states, asks, key, i, j - 1);
    if i < j - 1 {
      ExplorationsApart(s, states, asks, key, i, j - 1);
    }
    if before > 0 {
      Further(asks[i].at, before - 1, s.exploreInterval, LastExplored(states[j - 1], key), LastExplored(states[j], key));
    }
    assert asks[i].at <= asks[j - 1].at;
  }

  lemma Further(start: Time, n: int, d: int, end: Time, later: Time)
    requires Apart(start, n, d, end)
    ensures end + d <= later ==> Apart(start, n + 1, d, later)
  {
    assert (n + 1) * d == n * d + d;
  }

  /** One (realm, model) key explores at most T / interval + 1 times in a time T. */
  lemma ExplorationsAreRare(s: Settings, states: seq<Pool>, asks: seq<Ask>, key: Key, i: nat, j: nat)
    requires IsHistory(s, states, asks) && i < j <= |asks| && s.exploreInterval > 0
    ensures Explorations(s, states, asks, key, i, j) <= (asks[j - 1].at - asks[i].at) / s.exploreInterval + 1
  {
    ExplorationsApart(s, states, asks, key, i, j);
    var n, span := Explorations(s, states, asks, key, i, j), asks[j - 1].at - asks[i].at;
    if n > 0 {
      AtMostQuotient(n - 1, s.exploreInterval, span);
    }
  }

  lemma AtMostQuotient(n: nat, d: int, span: int)
    requires d > 0 && n * d <= span
    ensures n <= span / d
  {
    var q := span / d;
    assert span == q * d + span % d;
    assert d * (n - q) == n * d - q * d;
    if n > q {
      PoolBackoff.Times(d, n - q);
    }
  }
}
