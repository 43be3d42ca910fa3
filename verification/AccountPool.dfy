/** The account pool: selection, its fallback and the state it keeps (internal/pool). */
module AccountPool {
  import opened Common
  import opened PoolEntry
  import opened PoolTransition
  import opened PoolPick

  datatype Settings = Settings(
    config: Config, gap: int, exploreInterval: int, idlePerHour: real, idleMax: real,
    maxInFlight: int, maxInFlightGlobal: int)

  datatype Request = Request(tried: set<UID>, model: Model, realm: string)

  type Key = (string, Model)

  /** The pool's value: accounts, the last selection number, and when each key last explored. */
  datatype Pool = Pool(byUID: map<UID, Entry>, pickSeq: nat, explored: map<Key, Time>)

  // ------------------------------------------------------------ who may be chosen

  predicate Full(s: Settings, e: Entry) {
    var limit := if s.maxInFlightGlobal > 0 && e.realm == "global" then s.maxInFlightGlobal else s.maxInFlight;
    limit > 0 && e.inFlight >= limit
  }

  predicate Admitted(s: Settings, q: Request, uid: UID, e: Entry) {
    uid !in q.tried && (q.realm == "" || e.realm == q.realm) && !Full(s, e)
  }

  predicate Candidate(s: Settings, q: Request, now: Time, uid: UID, e: Entry) {
    Admitted(s, q, uid, e) && HealthyForModel(e, now, q.model)
  }

  /** May be tried although it is cooling: everything but a disabled, paused or out-of-credit
      account. */
  predicate LastResort(s: Settings, q: Request, now: Time, uid: UID, e: Entry) {
    && Admitted(s, q, uid, e) && !e.disabled && !e.manualDisabled && !LiveHard(e, now)
    && Expiry(e, now) != NO_TIME
  }

  function Candidates(s: Settings, p: Pool, q: Request, now: Time): set<UID> {
    set uid | uid in p.byUID && Candidate(s, q, now, uid, p.byUID[uid])
  }

  function LastResorts(s: Settings, p: Pool, q: Request, now: Time): set<UID> {
    set uid | uid in p.byUID && LastResort(s, q, now, uid, p.byUID[uid])
  }

  // ------------------------------------------------------------ cost tiers

  /** 0: seen to be free, 1: not known, 2: seen to be charged. */
  function Tier(e: Entry, m: Model, now: Time): int {
    var c := CostOf(e.costs, m, now);
    if c.None? then 1 else if c.value.per1k <= 0.0 then 0 else 2
  }

  function Price(e: Entry, m: Model, now: Time): real {
    if Tier(e, m, now) == 2 then CostOf(e.costs, m, now).value.per1k else 0.0
  }

  function InTier(p: Pool, cs: set<UID>, m: Model, now: Time, tier: int): set<UID>
    requires cs <= p.byUID.Keys
  {
    set uid | uid in cs && Tier(p.byUID[uid], m, now) == tier
  }

  function LastExplored(p: Pool, key: Key): Time {
    if key in p.explored then p.explored[key] else NO_TIME
  }

  /** A free tier has held the requests long enough for one of them to try an account whose
      price is not known. */
  predicate Explores(s: Settings, p: Pool, q: Request, now: Time) {
    var cs := Candidates(s, p, q, now);
    && s.exploreInterval > 0 && q.model != NO_MODEL
    && InTier(p, cs, q.model, now, 0) != {} && InTier(p, cs, q.model, now, 1) != {}
    && now - LastExplored(p, (q.realm, q.model)) >= s.exploreInterval
  }

  /** The tier that is chosen from: the best one, or the unknown one when exploring. */
  function EffectiveTier(s: Settings, p: Pool, q: Request, now: Time): int {
    var cs := Candidates(s, p, q, now);
    if InTier(p, cs, q.model, now, 0) != {} then (if Explores(s, p, q, now) then 1 else 0)
    else if InTier(p, cs, q.model, now, 1) != {} then 1
    else 2
  }

  /** The accounts that compete for the request. */
  function Competitors(s: Settings, p: Pool, q: Request, now: Time): set<UID> {
    InTier(p, Candidates(s, p, q, now), q.model, now, EffectiveTier(s, p, q, now))
  }

  /** Whenever there is a candidate, there is one in the effective tier. That is the best tier
      of all, except that an exploration passes over the free tier for the unknown one. */
  lemma CompetitorsExist(s: Settings, p: Pool, q: Request, now: Time)
    requires Candidates(s, p, q, now) != {}
    ensures Competitors(s, p, q, now) != {}
    ensures forall uid :: uid in Candidates(s, p, q, now) ==>
              EffectiveTier(s, p, q, now) <= Tier(p.byUID[uid], q.model, now) || (Explores(s, p, q, now) && Tier(p.byUID[uid], q.model, now) == 0)
    ensures Explores(s, p, q, now) ==> EffectiveTier(s, p, q, now) == 1
  {
    var cs := Candidates(s, p, q, now);
    forall uid | uid in cs ensures uid in InTier(p, cs, q.model, now, Tier(p.byUID[uid], q.model, now)) {
    }
  }

  // ------------------------------------------------------------ weights

  /** Balance, expiring balance and idle time. */
  function WeightOf(s: Settings, b: Balance, lastUsed: Time, maxCredits: int, now: Time): real {
    1.0 + CreditWeight(b, maxCredits) + IdleWeight(s, lastUsed, now)
  }

  function CreditWeight(b: Balance, maxCredits: int): real {
    (if maxCredits > 0 then b.credits as real / maxCredits as real * 10.0 else 0.0)
    + (if b.credits > 0 && b.expiring > 0 then b.expiring as real / b.credits as real * 8.0 else 0.0)
  }

  function IdleWeight(s: Settings, lastUsed: Time, now: Time): real {
    if lastUsed == NO_TIME then s.idleMax else Idle(s, now - lastUsed)
  }

  function Idle(s: Settings, nanos: int): real {
    Clamp(Times(Hours(nanos), s.idlePerHour), s.idleMax)
  }

  function Hours(nanos: int): real {
    nanos as real / NANOS_PER_HOUR as real
  }

  function Times(x: real, k: real): real {
    x * k
  }

  function Clamp(w: real, max: real): real {
    var capped := if w > max then max else w;
    if capped < 0.0 then 0.0 else capped
  }

  lemma Ratio(a: int, b: int)
    requires 0 <= a <= b && 0 < b
    ensures 0.0 <= a as real / b as real <= 1.0
    ensures a == b ==> a as real / b as real == 1.0
  {
  }

  /** The weight lies between 1 and 19 plus the idle bonus; an account with the largest
      balance, all of it about to expire, that was never used has exactly the most. */
  lemma WeightRange(s: Settings, b: Balance, lastUsed: Time, maxCredits: int, now: Time)
    requires 0 <= b.expiring <= b.credits <= maxCredits && s.idleMax >= 0.0
    ensures 1.0 <= WeightOf(s, b, lastUsed, maxCredits, now) <= 19.0 + s.idleMax
    ensures lastUsed == NO_TIME && 0 < b.expiring == b.credits == maxCredits ==>
              WeightOf(s, b, lastUsed, maxCredits, now) == 19.0 + s.idleMax
  {
    if maxCredits > 0 {
      Ratio(b.credits, maxCredits);
    }
    if b.credits > 0 {
      Ratio(b.expiring, b.credits);
    }
  }

  lemma Quotient(a: int, b: int)
    requires 0 < b
    ensures a as real / b as real * b as real == a as real
  {
  }

  /** Credit counts in proportion to the largest balance, ten points for all of it; credit that is
      about to expire in proportion to the balance, eight points for all of it. */
  lemma CreditIsProportional(b: Balance, maxCredits: int)
    requires 0 < b.credits && 0 < maxCredits && 0 <= b.expiring
    ensures CreditWeight(b.(expiring := 0), maxCredits) * maxCredits as real == 10.0 * b.credits as real
    ensures (CreditWeight(b, maxCredits) - CreditWeight(b.(expiring := 0), maxCredits)) * b.credits as real == 8.0 * b.expiring as real
  {
    Quotient(b.credits, maxCredits);
    Quotient(b.expiring, b.credits);
    var x, m := b.credits as real / maxCredits as real, maxCredits as real;
    assert (x * 10.0) * m == 10.0 * (x * m);
    var y, c := b.expiring as real / b.credits as real, b.credits as real;
    assert (y * 8.0) * c == 8.0 * (y * c);
  }

  /** An account that was used some whole hours ago has the bonus for these hours, up to the limit,
      over one that has just been used. */
  lemma IdleHours(s: Settings, b: Balance, hours: nat, maxCredits: int, now: Time)
    requires now != NO_TIME && now - hours * NANOS_PER_HOUR != NO_TIME && s.idlePerHour >= 0.0 && s.idleMax >= 0.0
    ensures var bonus := hours as real * s.idlePerHour;
            WeightOf(s, b, now - hours * NANOS_PER_HOUR, maxCredits, now) - WeightOf(s, b, now, maxCredits, now)
              == if bonus > s.idleMax then s.idleMax else bonus
  {
    Scaled(0.0, hours as real, s.idlePerHour);
    assert Hours(hours * NANOS_PER_HOUR) == hours as real;
    assert Hours(0) == 0.0;
  }

  /** Among accounts with the same balance the one idle for longer weighs no less. */
  lemma IdleWeighsMore(s: Settings, b: Balance, earlier: Time, later: Time, maxCredits: int, now: Time)
    requires earlier <= later && later != NO_TIME && s.idlePerHour >= 0.0 && s.idleMax >= 0.0
    ensures WeightOf(s, b, later, maxCredits, now) <= WeightOf(s, b, earlier, maxCredits, now)
  {
    IdleGrows(s, now - later, now - earlier);
  }

  lemma IdleGrows(s: Settings, a: int, b: int)
    requires a <= b && s.idlePerHour >= 0.0 && s.idleMax >= 0.0
    ensures Idle(s, a) <= Idle(s, b) <= s.idleMax
  {
    HoursGrow(a, b);
    Scaled(Hours(a), Hours(b), s.idlePerHour);
    ClampGrows(Times(Hours(a), s.idlePerHour), Times(Hours(b), s.idlePerHour), s.idleMax);
  }

  lemma HoursGrow(a: int, b: int)
    requires a <= b
    ensures Hours(a) <= Hours(b)
  {
  }

  lemma ClampGrows(x: real, y: real, max: real)
    requires x <= y && max >= 0.0
    ensures Clamp(x, max) <= Clamp(y, max) <= max
  {
  }

  lemma Scaled(x: real, y: real, k: real)
    requires x <= y && k >= 0.0
    ensures Times(x, k) <= Times(y, k)
  {
    assert (y - x) * k >= 0.0;
    assert (y - x) * k == y * k - x * k;
  }

  function Weigh(s: Settings, p: Pool, q: Request, now: Time, maxCredits: int, uid: UID): Weighted
    requires uid in p.byUID
  {
    var e := p.byUID[uid];
    Weighted(uid, WeightOf(s, e.balance, e.use.lastUsed, maxCredits, now), Price(e, q.model, now), e.use)
  }

  /** The largest balance among all candidates, of every tier. */
  ghost predicate IsMaxCredits(p: Pool, cs: set<UID>, n: int)
    requires cs <= p.byUID.Keys
  {
    && n >= 0 && (forall uid :: uid in cs ==> p.byUID[uid].balance.credits <= n)
    && (n == 0 || exists uid :: uid in cs && p.byUID[uid].balance.credits == n)
  }

  predicate Has(ws: seq<Weighted>, uid: UID) {
    exists i :: 0 <= i < |ws| && ws[i].uid == uid
  }

  /** The accounts of `cs`, each once, in the order of preference. */
  ghost predicate Orders(ws: seq<Weighted>, cs: set<UID>) {
    && Ranked(ws) && Distinct(ws)
    && (forall i :: 0 <= i < |ws| ==> ws[i].uid in cs)
    && (forall uid :: uid in cs ==> Has(ws, uid))
  }

  ghost predicate Weighs(s: Settings, p: Pool, q: Request, now: Time, n: int, ws: seq<Weighted>) {
    forall i :: 0 <= i < |ws| ==> ws[i].uid in p.byUID && ws[i] == Weigh(s, p, q, now, n, ws[i].uid)
  }

  /** The weights are relative to the largest balance among the candidates `cs`. */
  ghost predicate Weighed(s: Settings, p: Pool, q: Request, now: Time, cs: set<UID>, ws: seq<Weighted>)
    requires cs <= p.byUID.Keys
  {
    exists n :: IsMaxCredits(p, cs, n) && Weighs(s, p, q, now, n, ws)
  }

  /** The competitors in the order of preference. */
  ghost predicate IsRanking(s: Settings, p: Pool, q: Request, now: Time, ws: seq<Weighted>) {
    Orders(ws, Competitors(s, p, q, now)) && Weighed(s, p, q, now, Candidates(s, p, q, now), ws)
  }

  // ------------------------------------------------------------ what a pick does

  function PruneAll(p: Pool, now: Time): Pool {
    p.(byUID := map uid | uid in p.byUID :: Prune(p.byUID[uid], now))
  }

  function Mark(p: Pool, now: Time, uid: UID): Pool
    requires uid in p.byUID
  {
    p.(byUID := p.byUID[uid := p.byUID[uid].(use := Use(now, p.pickSeq + 1))], pickSeq := p.pickSeq + 1)
  }

  function Note(s: Settings, p: Pool, q: Request, now: Time): map<Key, Time> {
    if Explores(s, p, q, now) then p.explored[(q.realm, q.model) := now] else p.explored
  }

  ghost predicate Wins(s: Settings, p: Pool, q: Request, now: Time, uid: UID) {
    exists ws: seq<Weighted>, k: nat :: IsRanking(s, p, q, now, ws) && Chosen(ws, now, s.gap, k) && ws[k].uid == uid
  }

  /** The account's deadline is the nearest among those of last resort. */
  ghost predicate Nearest(p: Pool, ls: set<UID>, now: Time, uid: UID)
    requires ls <= p.byUID.Keys
  {
    uid in ls && forall v :: v in ls ==> Expiry(p.byUID[uid], now) <= Expiry(p.byUID[v], now)
  }

  /** Who is chosen: by rank and rest among the competitors, else by the nearest deadline
      among those of last resort, else no one. */
  ghost predicate ChoiceOK(s: Settings, p: Pool, q: Request, now: Time, r: Option<UID>) {
    var cs, ls := Candidates(s, p, q, now), LastResorts(s, p, q, now);
    if cs != {} then
      r.Some? && Wins(s, p, q, now, r.value)
    else if ls != {} then
      r.Some? && Nearest(p, ls, now, r.value)
    else r.None?
  }

  /** The outcome of a pick: who is chosen, and what the pool becomes. */
  ghost predicate PickOK(s: Settings, p: Pool, q: Request, now: Time, r: Option<UID>, p': Pool) {
    && ChoiceOK(s, p, q, now, r)
    && if r.Some? then r.value in p.byUID && p' == Mark(PruneAll(p, now), now, r.value).(explored := Note(s, p, q, now))
       else p' == PruneAll(p, now)
  }

  // ------------------------------------------------------------ consequences

  /** Not tried yet, of the realm that is asked for, and below the limit on requests in flight
      that applies to it, when that is positive. */
  predicate Open(s: Settings, q: Request, uid: UID, e: Entry) {
    && uid !in q.tried
    && (q.realm == "" || e.realm == q.realm)
    && (e.realm == "global" && s.maxInFlightGlobal > 0 ==> e.inFlight < s.maxInFlightGlobal)
    && ((e.realm != "global" || s.maxInFlightGlobal <= 0) && s.maxInFlight > 0 ==> e.inFlight < s.maxInFlight)
  }

  /** Switched on, some deadline of the account in force, but not that of a hard cooldown. */
  predicate Waiting(e: Entry, now: Time) {
    && SwitchedOn(e)
    && (e.cooling.kind == CoolHard ==> Over(e.cooling.until, now))
    && !(Over(e.cooling.until, now) && Over(e.breaker.until, now) && Over(e.degraded.until, now))
  }

  /** What the model costs on the account has been seen within the last six hours. */
  predicate Seen(e: Entry, m: Model, now: Time) {
    && m != "" && m in e.costs && e.costs[m].lastSeen != 0
    && now - e.costs[m].lastSeen <= 6 * 3_600_000_000_000
  }

  predicate SeenFree(e: Entry, m: Model, now: Time) {
    Seen(e, m, now) && e.costs[m].per1k <= 0.0
  }

  ghost predicate AnyOpen(s: Settings, p: Pool, q: Request, test: Entry -> bool) {
    exists uid :: uid in p.byUID && Open(s, q, uid, p.byUID[uid]) && test(p.byUID[uid])
  }

  ghost predicate AnyFit(s: Settings, p: Pool, q: Request, now: Time) {
    AnyOpen(s, p, q, e => Fit(e, now, q.model))
  }

  ghost predicate AnyFree(s: Settings, p: Pool, q: Request, now: Time) {
    AnyOpen(s, p, q, e => Fit(e, now, q.model) && SeenFree(e, q.model, now))
  }

  ghost predicate AnyUnseen(s: Settings, p: Pool, q: Request, now: Time) {
    AnyOpen(s, p, q, e => Fit(e, now, q.model) && !Seen(e, q.model, now))
  }

  ghost predicate AnyWaiting(s: Settings, p: Pool, q: Request, now: Time) {
    AnyOpen(s, p, q, e => Waiting(e, now))
  }

  /** The key has not explored within the interval. */
  predicate Due(s: Settings, p: Pool, q: Request, now: Time) {
    && s.exploreInterval > 0 && q.model != ""
    && now - (if (q.realm, q.model) in p.explored then p.explored[(q.realm, q.model)] else 0) >= s.exploreInterval
  }

  /** One of the account's deadlines that is in force. */
  predicate InForce(e: Entry, d: Time, now: Time) {
    (d == e.cooling.until || d == e.breaker.until || d == e.degraded.until) && !Over(d, now)
  }

  /** Of the account's deadlines one is in force that is not later than any in force of the other. */
  ghost predicate NoLater(e: Entry, f: Entry, now: Time) {
    exists c :: InForce(e, c, now) && forall d :: InForce(f, d, now) ==> c <= d
  }

  /** What the rules make of an account depends on its fields as they are written above. */
  lemma OnFields(s: Settings, q: Request, now: Time, uid: UID, e: Entry)
    ensures Candidate(s, q, now, uid, e) <==> Open(s, q, uid, e) && Fit(e, now, q.model)
    ensures LastResort(s, q, now, uid, e) <==> Open(s, q, uid, e) && Waiting(e, now)
    ensures Tier(e, q.model, now) == if !Seen(e, q.model, now) then 1 else if SeenFree(e, q.model, now) then 0 else 2
  {
  }

  lemma CandidatesOnFields(s: Settings, p: Pool, q: Request, now: Time)
    ensures Candidates(s, p, q, now) != {} <==> AnyFit(s, p, q, now)
    ensures LastResorts(s, p, q, now) != {} <==> AnyWaiting(s, p, q, now)
    ensures InTier(p, Candidates(s, p, q, now), q.model, now, 0) != {} <==> AnyFree(s, p, q, now)
    ensures InTier(p, Candidates(s, p, q, now), q.model, now, 1) != {} <==> AnyUnseen(s, p, q, now)
  {
    forall uid | uid in p.byUID
      ensures uid in Candidates(s, p, q, now) <==> Open(s, q, uid, p.byUID[uid]) && Fit(p.byUID[uid], now, q.model)
      ensures uid in LastResorts(s, p, q, now) <==> Open(s, q, uid, p.byUID[uid]) && Waiting(p.byUID[uid], now)
      ensures Tier(p.byUID[uid], q.model, now) ==
                if !Seen(p.byUID[uid], q.model, now) then 1 else if SeenFree(p.byUID[uid], q.model, now) then 0 else 2
    {
      OnFields(s, q, now, uid, p.byUID[uid]);
    }
    AnyIs(s, p, q, Candidates(s, p, q, now), e => Fit(e, now, q.model));
    AnyIs(s, p, q, LastResorts(s, p, q, now), e => Waiting(e, now));
    AnyIs(s, p, q, InTier(p, Candidates(s, p, q, now), q.model, now, 0), e => Fit(e, now, q.model) && SeenFree(e, q.model, now));
    AnyIs(s, p, q, InTier(p, Candidates(s, p, q, now), q.model, now, 1), e => Fit(e, now, q.model) && !Seen(e, q.model, now));
  }

  lemma AnyIs(s: Settings, p: Pool, q: Request, us: set<UID>, test: Entry -> bool)
    requires forall uid :: uid in us <==> uid in p.byUID && Open(s, q, uid, p.byUID[uid]) && test(p.byUID[uid])
    ensures us != {} <==> AnyOpen(s, p, q, test)
  {
    if us != {} {
      var uid :| uid in us;
    }
  }

  lemma NearestOnFields(e: Entry, f: Entry, now: Time)
    requires Waiting(e, now) && Waiting(f, now) && Expiry(e, now) <= Expiry(f, now)
    ensures NoLater(e, f, now)
  {
    assert InForce(e, Expiry(e, now), now);
    forall d | InForce(f, d, now) ensures Expiry(f, now) <= d {
      ExpiryIsNearest(f, now);
    }
  }

  /** A pick never returns a tried, disabled, paused, full or wrong-realm account, nor one in a
      hard cooldown. While some account that is open to the request is fit for the model, it
      returns such a one: one not seen to cost anything or not, if exploring is due and passes
      over a free one; else a free one if there is one, else one not seen yet if there is one.
      Otherwise it returns one that waits for a deadline, none of which is nearer to its end. */
  lemma PickIsSound(s: Settings, p: Pool, q: Request, now: Time, r: Option<UID>, p': Pool)
    requires PickOK(s, p, q, now, r, p')
    ensures r.Some? <==> AnyFit(s, p, q, now) || AnyWaiting(s, p, q, now)
    ensures r.Some? ==>
              && r.value in p.byUID && Open(s, q, r.value, p.byUID[r.value]) && SwitchedOn(p.byUID[r.value])
              && (p.byUID[r.value].cooling.kind == CoolHard ==> Over(p.byUID[r.value].cooling.until, now))
    ensures AnyFit(s, p, q, now) ==>
              var e := p.byUID[r.value];
              && Fit(e, now, q.model)
              && if AnyFree(s, p, q, now) then
                   (if AnyUnseen(s, p, q, now) && Due(s, p, q, now) then !Seen(e, q.model, now) else SeenFree(e, q.model, now))
                 else AnyUnseen(s, p, q, now) ==> !Seen(e, q.model, now)
    ensures r.Some? && !AnyFit(s, p, q, now) ==>
              && Waiting(p.byUID[r.value], now)
              && forall uid :: uid in p.byUID && Open(s, q, uid, p.byUID[uid]) && Waiting(p.byUID[uid], now) ==>
                   NoLater(p.byUID[r.value], p.byUID[uid], now)
  {
    CandidatesOnFields(s, p, q, now);
    if r.Some? {
      OnFields(s, q, now, r.value, p.byUID[r.value]);
    }
    if AnyFit(s, p, q, now) {
      WinnerCompetes(s, p, q, now, r.value);
    } else if r.Some? {
      forall uid | uid in p.byUID && Open(s, q, uid, p.byUID[uid]) && Waiting(p.byUID[uid], now)
        ensures NoLater(p.byUID[r.value], p.byUID[uid], now)
      {
        OnFields(s, q, now, uid, p.byUID[uid]);
        NearestOnFields(p.byUID[r.value], p.byUID[uid], now);
      }
    }
  }

  lemma WinnerCompetes(s: Settings, p: Pool, q: Request, now: Time, uid: UID)
    requires Wins(s, p, q, now, uid)
    ensures uid in Competitors(s, p, q, now)
  {
  }

  /** What the account has been seen to charge per thousand tokens. */
  function SeenPrice(e: Entry, m: Model, now: Time): real {
    if Seen(e, m, now) && e.costs[m].per1k > 0.0 then e.costs[m].per1k else 0.0
  }

  /** Cheaper, or as cheap and heavier, or both the same and with the lesser name. */
  ghost predicate GoesBefore(s: Settings, p: Pool, q: Request, now: Time, n: int, v: UID, w: UID)
    requires v in p.byUID && w in p.byUID
  {
    var e, f := p.byUID[v], p.byUID[w];
    var x, y := WeightOf(s, e.balance, e.use.lastUsed, n, now), WeightOf(s, f.balance, f.use.lastUsed, n, now);
    var a, b := SeenPrice(e, q.model, now), SeenPrice(f, q.model, now);
    a < b || (a == b && (x > y || (x == y && Less(v, w))))
  }

  /** The competitors that go before the account. */
  ghost function Betters(s: Settings, p: Pool, q: Request, now: Time, n: int, w: UID): set<UID>
    requires w in p.byUID
  {
    set v | v in Competitors(s, p, q, now) && GoesBefore(s, p, q, now, n, v, w)
  }

  predicate HasRested(s: Settings, e: Entry, now: Time) {
    now - e.use.lastUsed >= s.gap
  }

  lemma AheadOnFields(s: Settings, p: Pool, q: Request, now: Time, n: int, v: UID, w: UID)
    requires v in p.byUID && w in p.byUID
    ensures Ahead(Weigh(s, p, q, now, n, v), Weigh(s, p, q, now, n, w)) <==> GoesBefore(s, p, q, now, n, v, w)
  {
    OnFields(s, q, now, v, p.byUID[v]);
    OnFields(s, q, now, w, p.byUID[w]);
  }

  function Names(ws: seq<Weighted>): set<UID> {
    set i | 0 <= i < |ws| :: ws[i].uid
  }

  lemma {:induction false} NamesCount(ws: seq<Weighted>)
    requires Distinct(ws)
    ensures |Names(ws)| == |ws|
  {
    if ws != [] {
      var n := |ws| - 1;
      NamesCount(ws[..n]);
      forall uid ensures uid in Names(ws) <==> uid in Names(ws[..n]) || uid == ws[n].uid {
        if uid in Names(ws) {
          var i :| 0 <= i < |ws| && ws[i].uid == uid;
          assert i < n ==> ws[..n][i].uid == uid;
        }
        if uid in Names(ws[..n]) {
          var i :| 0 <= i < n && ws[..n][i].uid == uid;
          assert ws[i].uid == uid;
        }
      }
      assert Names(ws) == Names(ws[..n]) + {ws[n].uid};
    }
  }

  lemma BetterIsAhead(s: Settings, p: Pool, q: Request, now: Time, n: int, ws: seq<Weighted>, k: nat, i: nat)
    requires Ranked(ws) && Weighs(s, p, q, now, n, ws) && k < |ws| && i < |ws|
    ensures GoesBefore(s, p, q, now, n, ws[i].uid, ws[k].uid) <==> i < k
  {
    AheadOnFields(s, p, q, now, n, ws[i].uid, ws[k].uid);
    assert ws[i] == Weigh(s, p, q, now, n, ws[i].uid) && ws[k] == Weigh(s, p, q, now, n, ws[k].uid);
    if Ahead(ws[i], ws[k]) {
      NotBehind(ws, i, k);
    }
  }

  /** The position in the ranking is the number of competitors that go before. */
  lemma RankIsCount(s: Settings, p: Pool, q: Request, now: Time, n: int, ws: seq<Weighted>, k: nat)
    requires Orders(ws, Competitors(s, p, q, now)) && Weighs(s, p, q, now, n, ws) && k < |ws|
    ensures |Betters(s, p, q, now, n, ws[k].uid)| == k
  {
    forall v ensures v in Betters(s, p, q, now, n, ws[k].uid) <==> v in Names(ws[..k]) {
      if v in Names(ws[..k]) {
        var i :| 0 <= i < k && ws[..k][i].uid == v;
        BetterIsAhead(s, p, q, now, n, ws, k, i);
      }
      if v in Betters(s, p, q, now, n, ws[k].uid) {
        assert Has(ws, v);
        var i :| 0 <= i < |ws| && ws[i].uid == v;
        BetterIsAhead(s, p, q, now, n, ws, k, i);
        assert ws[..k][i].uid == v;
      }
    }
    assert Betters(s, p, q, now, n, ws[k].uid) == Names(ws[..k]);
    NamesCount(ws[..k]);
  }

  lemma NotBehind(ws: seq<Weighted>, i: nat, k: nat)
    requires Ranked(ws) && i < |ws| && k < |ws| && Ahead(ws[i], ws[k])
    ensures i < k
  {
    if i == k {
      AheadIsIrreflexive(ws[i]);
    } else if k < i {
      AheadIsTransitive(ws[i], ws[k], ws[i]);
      AheadIsIrreflexive(ws[i]);
    }
  }

  /** Of all competitors the account was chosen longest ago, and none of the best five has rested. */
  ghost predicate LongestAgo(s: Settings, p: Pool, q: Request, now: Time, n: int, w: UID)
    requires w in p.byUID
  {
    forall v :: v in Competitors(s, p, q, now) ==>
      && (|Betters(s, p, q, now, n, v)| < 5 ==> !HasRested(s, p.byUID[v], now))
      && p.byUID[w].use.sequence <= p.byUID[v].use.sequence
  }

  lemma ChosenLongestAgo(s: Settings, p: Pool, q: Request, now: Time, n: int, ws: seq<Weighted>, k: nat)
    requires Orders(ws, Competitors(s, p, q, now)) && Weighs(s, p, q, now, n, ws) && Chosen(ws, now, s.gap, k)
    requires !(Shortlisted(ws, k) && Rested(ws[k], now, s.gap))
    ensures LongestAgo(s, p, q, now, n, ws[k].uid)
  {
    forall v | v in Competitors(s, p, q, now)
      ensures |Betters(s, p, q, now, n, v)| < 5 ==> !HasRested(s, p.byUID[v], now)
      ensures p.byUID[ws[k].uid].use.sequence <= p.byUID[v].use.sequence
    {
      assert Has(ws, v);
      var i :| 0 <= i < |ws| && ws[i].uid == v;
      RankIsCount(s, p, q, now, n, ws, i);
      assert ws[i] == Weigh(s, p, q, now, n, v) && ws[k] == Weigh(s, p, q, now, n, ws[k].uid);
    }
  }

  lemma ChosenRested(s: Settings, p: Pool, q: Request, now: Time, n: int, ws: seq<Weighted>, k: nat)
    requires Orders(ws, Competitors(s, p, q, now)) && Weighs(s, p, q, now, n, ws)
    requires Shortlisted(ws, k) && Rested(ws[k], now, s.gap)
    ensures HasRested(s, p.byUID[ws[k].uid], now) && |Betters(s, p, q, now, n, ws[k].uid)| < 5
  {
    RankIsCount(s, p, q, now, n, ws, k);
  }

  /** The largest balance of all accounts that are open and fit, of every tier, if it is positive. */
  ghost predicate LargestBalance(s: Settings, p: Pool, q: Request, now: Time, n: int) {
    && (forall uid :: uid in p.byUID && Open(s, q, uid, p.byUID[uid]) && Fit(p.byUID[uid], now, q.model) ==> p.byUID[uid].balance.credits <= n)
    && n >= 0
    && (n > 0 ==> exists uid :: uid in p.byUID && Open(s, q, uid, p.byUID[uid]) && Fit(p.byUID[uid], now, q.model) && p.byUID[uid].balance.credits == n)
  }

  lemma MaxIsLargest(s: Settings, p: Pool, q: Request, now: Time, n: int)
    requires IsMaxCredits(p, Candidates(s, p, q, now), n)
    ensures LargestBalance(s, p, q, now, n)
  {
    forall uid | uid in p.byUID
      ensures uid in Candidates(s, p, q, now) <==> Open(s, q, uid, p.byUID[uid]) && Fit(p.byUID[uid], now, q.model)
    {
      OnFields(s, q, now, uid, p.byUID[uid]);
    }
  }

  /** The winner has rested and fewer than five competitors go before it; or all that do so have
      not rested, and of all competitors it was chosen longest ago. */
  lemma WinnerOnFields(s: Settings, p: Pool, q: Request, now: Time, w: UID) returns (n: int)
    requires Wins(s, p, q, now, w)
    ensures w in Competitors(s, p, q, now) && LargestBalance(s, p, q, now, n)
    ensures (HasRested(s, p.byUID[w], now) && |Betters(s, p, q, now, n, w)| < 5) || LongestAgo(s, p, q, now, n, w)
  {
    var ws: seq<Weighted>, k: nat :| IsRanking(s, p, q, now, ws) && Chosen(ws, now, s.gap, k) && ws[k].uid == w;
    n :| IsMaxCredits(p, Candidates(s, p, q, now), n) && Weighs(s, p, q, now, n, ws);
    MaxIsLargest(s, p, q, now, n);
    if Shortlisted(ws, k) && Rested(ws[k], now, s.gap) {
      ChosenRested(s, p, q, now, n, ws, k);
    } else {
      ChosenLongestAgo(s, p, q, now, n, ws, k);
    }
  }

  // ------------------------------------------------------------ numbering

  /** Selection numbers are not above the last one given, and no two accounts share one. */
  predicate Sequenced(p: Pool) {
    && (forall uid :: uid in p.byUID ==> p.byUID[uid].use.sequence <= p.pickSeq)
    && (forall a, b :: a in p.byUID && b in p.byUID && a != b && p.byUID[a].use.sequence == p.byUID[b].use.sequence
          ==> p.byUID[a].use.sequence == 0)
  }

  lemma MarkSequenced(p: Pool, now: Time, uid: UID)
    requires Sequenced(p) && uid in p.byUID
    ensures Sequenced(Mark(p, now, uid))
  {
  }

  lemma PickSequenced(s: Settings, p: Pool, q: Request, now: Time, r: Option<UID>, p': Pool)
    requires PickOK(s, p, q, now, r, p') && Sequenced(p)
    ensures Sequenced(p')
  {
    assert Sequenced(PruneAll(p, now));
    if r.Some? {
      MarkSequenced(PruneAll(p, now), now, r.value);
    }
  }

  // ------------------------------------------------------------ pruning does not change the choice

  lemma PrunedEntry(s: Settings, q: Request, now: Time, uid: UID, e: Entry)
    ensures Candidate(s, q, now, uid, Prune(e, now)) == Candidate(s, q, now, uid, e)
    ensures LastResort(s, q, now, uid, Prune(e, now)) == LastResort(s, q, now, uid, e)
    ensures Tier(Prune(e, now), q.model, now) == Tier(e, q.model, now)
    ensures Price(Prune(e, now), q.model, now) == Price(e, q.model, now)
    ensures Expiry(Prune(e, now), now) == Expiry(e, now)
  {
    PruneIsInvisible(e, now, now, q.model);
  }

  lemma PrunedSets(s: Settings, p: Pool, q: Request, now: Time)
    ensures Candidates(s, PruneAll(p, now), q, now) == Candidates(s, p, q, now)
    ensures LastResorts(s, PruneAll(p, now), q, now) == LastResorts(s, p, q, now)
  {
    forall uid | uid in p.byUID
      ensures Candidate(s, q, now, uid, Prune(p.byUID[uid], now)) == Candidate(s, q, now, uid, p.byUID[uid])
      ensures LastResort(s, q, now, uid, Prune(p.byUID[uid], now)) == LastResort(s, q, now, uid, p.byUID[uid])
    {
      PrunedEntry(s, q, now, uid, p.byUID[uid]);
    }
  }

  lemma PrunedTier(s: Settings, p: Pool, q: Request, cs: set<UID>, now: Time, tier: int)
    requires cs <= p.byUID.Keys
    ensures InTier(PruneAll(p, now), cs, q.model, now, tier) == InTier(p, cs, q.model, now, tier)
  {
    forall uid | uid in cs ensures Tier(PruneAll(p, now).byUID[uid], q.model, now) == Tier(p.byUID[uid], q.model, now) {
      PrunedEntry(s, q, now, uid, p.byUID[uid]);
    }
  }

  lemma PrunedCompetitors(s: Settings, p: Pool, q: Request, now: Time)
    ensures Explores(s, PruneAll(p, now), q, now) == Explores(s, p, q, now)
    ensures Competitors(s, PruneAll(p, now), q, now) == Competitors(s, p, q, now)
  {
    PrunedSets(s, p, q, now);
    var cs := Candidates(s, p, q, now);
    PrunedTier(s, p, q, cs, now, 0);
    PrunedTier(s, p, q, cs, now, 1);
    PrunedTier(s, p, q, cs, now, 2);
  }

  lemma PrunedWeights(s: Settings, p: Pool, q: Request, now: Time, cs: set<UID>, ws: seq<Weighted>)
    requires cs <= p.byUID.Keys && Weighed(s, PruneAll(p, now), q, now, cs, ws)
    ensures Weighed(s, p, q, now, cs, ws)
  {
    var pp := PruneAll(p, now);
    var n :| IsMaxCredits(pp, cs, n) && Weighs(s, pp, q, now, n, ws);
    assert forall uid :: uid in cs ==> pp.byUID[uid].balance == p.byUID[uid].balance;
    assert IsMaxCredits(p, cs, n);
    forall i | 0 <= i < |ws| ensures ws[i].uid in p.byUID && ws[i] == Weigh(s, p, q, now, n, ws[i].uid) {
      PrunedWeigh(s, p, q, now, n, ws[i].uid);
    }
  }

  lemma PrunedWeigh(s: Settings, p: Pool, q: Request, now: Time, n: int, uid: UID)
    requires uid in p.byUID
    ensures Weigh(s, PruneAll(p, now), q, now, n, uid) == Weigh(s, p, q, now, n, uid)
  {
    PrunedEntry(s, q, now, uid, p.byUID[uid]);
  }

  /** Choosing after the pruning is choosing before it. */
  lemma PrunedChoice(s: Settings, p: Pool, q: Request, now: Time, r: Option<UID>)
    requires ChoiceOK(s, PruneAll(p, now), q, now, r)
    ensures ChoiceOK(s, p, q, now, r) && Note(s, PruneAll(p, now), q, now) == Note(s, p, q, now)
  {
    PrunedSets(s, p, q, now);
    PrunedCompetitors(s, p, q, now);
    if Candidates(s, p, q, now) != {} {
      PrunedWinner(s, p, q, now, r.value);
    } else if r.Some? {
      PrunedFallback(s, p, q, now, r.value);
    }
  }

  lemma PrunedWinner(s: Settings, p: Pool, q: Request, now: Time, uid: UID)
    requires Wins(s, PruneAll(p, now), q, now, uid)
    ensures Wins(s, p, q, now, uid)
  {
    PrunedSets(s, p, q, now);
    PrunedCompetitors(s, p, q, now);
    var ws: seq<Weighted>, k: nat :|
      IsRanking(s, PruneAll(p, now), q, now, ws) && Chosen(ws, now, s.gap, k) && ws[k].uid == uid;
    PrunedWeights(s, p, q, now, Candidates(s, p, q, now), ws);
    assert IsRanking(s, p, q, now, ws);
  }

  lemma PrunedFallback(s: Settings, p: Pool, q: Request, now: Time, uid: UID)
    requires Nearest(PruneAll(p, now), LastResorts(s, p, q, now), now, uid)
    ensures Nearest(p, LastResorts(s, p, q, now), now, uid)
  {
    forall v | v in LastResorts(s, p, q, now) ensures Expiry(PruneAll(p, now).byUID[v], now) == Expiry(p.byUID[v], now) {
      PrunedEntry(s, q, now, v, p.byUID[v]);
    }
  }
}
