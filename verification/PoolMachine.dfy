/** The mutable pool of internal/pool, and the candidate loop of plugin/wb_pool.go. */
module PoolMachine {
  import opened Common
  import opened PoolEntry
  import opened PoolTransition
  import opened PoolPick
  import opened AccountPool

  // ------------------------------------------------------------ the loops of pick

  /** The accounts that may be chosen, in the order of iteration. */
  method Collect(s: Settings, p: Pool, q: Request, now: Time) returns (uids: seq<UID>)
    ensures NoDuplicates(uids) && forall uid :: uid in uids <==> uid in Candidates(s, p, q, now)
  {
    uids := [];
    var todo := p.byUID.Keys;
    while todo != {}
      invariant todo <= p.byUID.Keys && NoDuplicates(uids)
      invariant forall uid :: uid in uids <==> uid in p.byUID && uid !in todo && Candidate(s, q, now, uid, p.byUID[uid])
      decreases |todo|
    {
      var uid :| uid in todo;
      if Candidate(s, q, now, uid, p.byUID[uid]) {
        uids := uids + [uid];
      }
      todo := todo - {uid};
    }
  }

  method MaxCredits(p: Pool, uids: seq<UID>, ghost cs: set<UID>) returns (n: int)
    requires cs <= p.byUID.Keys && forall uid :: uid in uids <==> uid in cs
    ensures IsMaxCredits(p, cs, n)
  {
    n := 0;
    for i := 0 to |uids|
      invariant n >= 0 && forall j :: 0 <= j < i ==> uids[j] in p.byUID && p.byUID[uids[j]].balance.credits <= n
      invariant n == 0 || exists j :: 0 <= j < i && uids[j] in p.byUID && p.byUID[uids[j]].balance.credits == n
    {
      assert uids[i] in cs;
      if p.byUID[uids[i]].balance.credits > n {
        n := p.byUID[uids[i]].balance.credits;
      }
    }
    if n != 0 {
      var j :| 0 <= j < |uids| && uids[j] in p.byUID && p.byUID[uids[j]].balance.credits == n;
      assert uids[j] in cs;
    }
  }

  /** Whether some of the accounts are in the tier. */
  method AnyInTier(p: Pool, uids: seq<UID>, ghost cs: set<UID>, m: Model, now: Time, tier: int) returns (found: bool)
    requires cs <= p.byUID.Keys && forall uid :: uid in uids <==> uid in cs
    ensures found <==> InTier(p, cs, m, now, tier) != {}
  {
    found := false;
    for i := 0 to |uids|
      invariant !found && forall j :: 0 <= j < i ==> uids[j] in cs && Tier(p.byUID[uids[j]], m, now) != tier
    {
      assert uids[i] in cs;
      if Tier(p.byUID[uids[i]], m, now) == tier {
        assert uids[i] in InTier(p, cs, m, now, tier);
        return true;
      }
    }
    forall uid | uid in cs ensures Tier(p.byUID[uid], m, now) != tier {
      assert uid in uids;
    }
  }

  /** The tier to choose from, and whether that is an exploration. */
  method ChooseTier(s: Settings, p: Pool, uids: seq<UID>, q: Request, now: Time) returns (tier: int, explores: bool)
    requires forall uid :: uid in uids <==> uid in Candidates(s, p, q, now)
    ensures tier == EffectiveTier(s, p, q, now) && explores == Explores(s, p, q, now)
  {
    ghost var cs := Candidates(s, p, q, now);
    var free := AnyInTier(p, uids, cs, q.model, now, 0);
    var unknown := AnyInTier(p, uids, cs, q.model, now, 1);
    explores := false;
    if free {
      explores := s.exploreInterval > 0 && q.model != NO_MODEL && unknown
        && now - LastExplored(p, (q.realm, q.model)) >= s.exploreInterval;
      tier := if explores then 1 else 0;
    } else {
      tier := if unknown then 1 else 2;
    }
  }

  lemma HasAdded(ws: seq<Weighted>, w: Weighted, uid: UID)
    ensures Has(ws + [w], uid) <==> Has(ws, uid) || w.uid == uid
  {
    if Has(ws, uid) {
      var i :| 0 <= i < |ws| && ws[i].uid == uid;
      assert (ws + [w])[i].uid == uid;
    } else if w.uid == uid {
      assert (ws + [w])[|ws|].uid == uid;
    }
  }

  /** The accounts of one tier with their weights. */
  method WeighTier(s: Settings, p: Pool, uids: seq<UID>, q: Request, now: Time, n: int, tier: int) returns (ws: seq<Weighted>)
    requires NoDuplicates(uids) && forall uid :: uid in uids <==> uid in Candidates(s, p, q, now)
    ensures Distinct(ws) && Weighs(s, p, q, now, n, ws)
    ensures forall uid :: Has(ws, uid) <==> uid in InTier(p, Candidates(s, p, q, now), q.model, now, tier)
  {
    ghost var cs := Candidates(s, p, q, now);
    ws := [];
    for k := 0 to |uids|
      invariant Distinct(ws) && Weighs(s, p, q, now, n, ws)
      invariant forall uid :: Has(ws, uid) <==> uid in uids[..k] && uid in InTier(p, cs, q.model, now, tier)
    {
      var uid := uids[k];
      assert uids[..k + 1] == uids[..k] + [uid] && uid in cs && uid !in uids[..k];
      if Tier(p.byUID[uid], q.model, now) == tier {
        var w := Weigh(s, p, q, now, n, uid);
        forall v ensures Has(ws + [w], v) <==> Has(ws, v) || v == uid {
          HasAdded(ws, w, v);
        }
        assert !Has(ws, uid);
        ws := ws + [w];
      }
    }
    assert uids[..|uids|] == uids;
  }

  lemma MembersHave(a: seq<Weighted>, b: seq<Weighted>, uid: UID)
    requires Members(a) == Members(b)
    ensures Has(a, uid) ==> Has(b, uid)
  {
    if Has(a, uid) {
      var i :| 0 <= i < |a| && a[i].uid == uid;
      assert a[i] in Members(b);
    }
  }

  /** The competitors, ranked. */
  method RankTier(s: Settings, p: Pool, uids: seq<UID>, q: Request, now: Time, tier: int) returns (ws: seq<Weighted>)
    requires NoDuplicates(uids) && uids != [] && forall uid :: uid in uids <==> uid in Candidates(s, p, q, now)
    requires tier == EffectiveTier(s, p, q, now)
    ensures IsRanking(s, p, q, now, ws) && ws != []
  {
    ghost var cs := Candidates(s, p, q, now);
    var n := MaxCredits(p, uids, cs);
    var raw := WeighTier(s, p, uids, q, now, n, tier);
    ws := Rank(raw);
    forall uid ensures Has(ws, uid) <==> Has(raw, uid) {
      MembersHave(ws, raw, uid);
      MembersHave(raw, ws, uid);
    }
    forall i | 0 <= i < |ws| ensures ws[i].uid in Competitors(s, p, q, now) && ws[i] in raw {
      assert ws[i] in Members(ws) && Has(ws, ws[i].uid);
    }
    assert uids[0] in cs;
    CompetitorsExist(s, p, q, now);
    var first :| first in Competitors(s, p, q, now);
    assert Has(ws, first);
  }

  /** The account of last resort whose deadline is nearest. */
  method NearestExpiry(s: Settings, p: Pool, q: Request, now: Time) returns (best: Option<UID>)
    ensures best.None? <==> LastResorts(s, p, q, now) == {}
    ensures best.Some? ==> Nearest(p, LastResorts(s, p, q, now), now, best.value)
  {
    best := None;
    var todo := p.byUID.Keys;
    ghost var ls := LastResorts(s, p, q, now);
    while todo != {}
      invariant todo <= p.byUID.Keys
      invariant best.None? ==> ls <= todo
      invariant best.Some? ==> best.value in ls && forall v :: v in ls && v !in todo ==> Expiry(p.byUID[best.value], now) <= Expiry(p.byUID[v], now)
      decreases |todo|
    {
      var uid :| uid in todo;
      if LastResort(s, q, now, uid, p.byUID[uid])
        && (best.None? || Expiry(p.byUID[uid], now) < Expiry(p.byUID[best.value], now)) {
        best := Some(uid);
      }
      todo := todo - {uid};
    }
  }

  // ------------------------------------------------------------ the pool

  class Accounts {
    const s: Settings
    var byUID: map<UID, Entry>
    var pickSeq: nat
    var explored: map<Key, Time>

    function Value(): Pool
      reads this
    {
      Pool(byUID, pickSeq, explored)
    }

    /** Selection numbers are distinct and below the next one. */
    ghost predicate Valid()
      reads this
    {
      Sequenced(Value())
    }

    constructor (s: Settings)
      ensures this.s == s && Value() == Pool(map[], 0, map[]) && Valid()
    {
      this.s, byUID, pickSeq, explored := s, map[], 0, map[];
    }

    method Pick(q: Request, now: Time, draw: nat) returns (r: Option<UID>)
      requires Valid()
      modifies this
      ensures Valid() && PickOK(s, old(Value()), q, now, r, Value())
    {
      ghost var before := Value();
      byUID := Rebuild(byUID, e => Prune(e, now));
      assert Value() == PruneAll(before, now);
      r := ChooseFrom(q, now, draw);
      PrunedChoice(s, before, q, now, r);
      PickSequenced(s, before, q, now, r, Value());
    }

    /** The pick proper, on the pruned pool. */
    method ChooseFrom(q: Request, now: Time, draw: nat) returns (r: Option<UID>)
      modifies this
      ensures ChoiceOK(s, old(Value()), q, now, r)
      ensures if r.Some? then r.value in old(byUID) && Value() == Mark(old(Value()), now, r.value).(explored := Note(s, old(Value()), q, now))
              else Value() == old(Value())
    {
      var p := Value();
      var uids := Collect(s, p, q, now);
      if uids == [] {
        r := NearestExpiry(s, p, q, now);
        if r.Some? {
          MarkUsed(r.value, now);
        }
        return;
      }
      assert uids[0] in Candidates(s, p, q, now);
      var tier, explores := ChooseTier(s, p, uids, q, now);
      var uid := Winner(p, uids, q, now, draw, tier);
      if explores {
        explored := explored[(q.realm, q.model) := now];
      }
      MarkUsed(uid, now);
      r := Some(uid);
    }

    /** The account of the tier that the ranking, the rest and the draw decide on. */
    method Winner(p: Pool, uids: seq<UID>, q: Request, now: Time, draw: nat, tier: int) returns (uid: UID)
      requires NoDuplicates(uids) && uids != [] && forall uid :: uid in uids <==> uid in Candidates(s, p, q, now)
      requires tier == EffectiveTier(s, p, q, now)
      ensures uid in p.byUID && Wins(s, p, q, now, uid)
    {
      var ws := RankTier(s, p, uids, q, now, tier);
      var k := Choose(ws, now, s.gap, draw);
      uid := ws[k].uid;
    }

    method MarkUsed(uid: UID, now: Time)
      requires uid in byUID
      modifies this`byUID, this`pickSeq
      ensures Value() == Mark(old(Value()), now, uid)
    {
      pickSeq := pickSeq + 1;
      byUID := byUID[uid := byUID[uid].(use := Use(now, pickSeq))];
    }

    /** The sticky path: one account, if it is healthy for the model and has room. */
    method PickByUIDForModel(uid: UID, model: Model, now: Time) returns (ok: bool)
      requires Valid()
      modifies this`byUID, this`pickSeq
      ensures Valid()
      ensures ok <==> uid in old(byUID) && Fit(old(byUID)[uid], now, model) && Open(s, Request({}, model, ""), uid, old(byUID)[uid])
      ensures Value() == if ok then Mark(old(Value()), now, uid) else old(Value())
    {
      if uid !in byUID || !HealthyForModel(byUID[uid], now, model) || Full(s, byUID[uid]) {
        return false;
      }
      OnFields(s, Request({}, model, ""), now, uid, byUID[uid]);
      MarkSequenced(Value(), now, uid);
      MarkUsed(uid, now);
      return true;
    }

    // ---------------------------------------------------------- transitions

    /** The pool in which the account, if there is one, has gone through the event. */
    function After(p: Pool, uid: UID, ev: Event, now: Time): Pool {
      if uid in p.byUID then p.(byUID := p.byUID[uid := Step(s.config, p.byUID[uid], ev, now)]) else p
    }

    lemma AfterSequenced(p: Pool, uid: UID, ev: Event, now: Time)
      requires Sequenced(p) && !ev.Picked?
      ensures Sequenced(After(p, uid, ev, now))
    {
    }

    /** An error of the upstream: the breaker counts it, and trips at the threshold. */
    method NoteError(uid: UID, now: Time)
      requires Valid()
      modifies this`byUID
      ensures Valid() && Value() == After(old(Value()), uid, Event.NoteError, now)
    {
      AfterSequenced(Value(), uid, Event.NoteError, now);
      if uid in byUID {
        var e := byUID[uid];
        var b := RecordBreakerFailure(e.breaker, now);
        byUID := byUID[uid := e.(breaker := b)];
      }
    }

    method RecordBreakerFailure(b: Breaker, now: Time) returns (r: Breaker)
      ensures r == Fail(s.config, b, now)
    {
      r := b.(fails := b.fails + 1);
      if r.fails >= s.config.breakerThreshold {
        var d := BreakerDuration(b.retries);
        r := Breaker(now + d, 0, b.retries + 1);
      }
    }

    method BreakerDuration(retries: nat) returns (d: int)
      ensures d == Doubled(s.config.breakerCooldown, s.config.breakerCooldownMax, retries)
    {
      d := s.config.breakerCooldown;
      var i := 0;
      while i < retries
        invariant i <= retries
        invariant Doubled(d, s.config.breakerCooldownMax, retries - i)
               == Doubled(s.config.breakerCooldown, s.config.breakerCooldownMax, retries)
      {
        d := Wrap(d * 2);
        if d >= s.config.breakerCooldownMax {
          return s.config.breakerCooldownMax;
        }
        i := i + 1;
      }
    }

    /** A rate limit of the whole account. */
    method CooldownSoftRate(uid: UID, base: int, resetAt: Time, now: Time)
      requires Valid()
      modifies this`byUID
      ensures Valid() && Value() == After(old(Value()), uid, SoftRate(base, resetAt), now)
    {
      AfterSequenced(Value(), uid, SoftRate(base, resetAt), now);
      if uid in byUID {
        var e := byUID[uid];
        var k := e.cooling;
        if resetAt != NO_TIME {
          k := k.(until := CappedSoftUntil(s.config, now, resetAt));
        } else if k.kind != CoolSoft || !Live(k.until, now) {
          k := k.(until := now + SoftDuration(s.config, base, k.streak + 1), streak := k.streak + 1);
        }
        byUID := byUID[uid := e.(cooling := k.(kind := CoolSoft, models := map[]))];
      }
    }

    /** A rate limit of one model, or of the account if upstream gave no reset time. */
    method CooldownSoftForModel(uid: UID, base: int, resetAt: Time, model: Model, now: Time)
      requires Valid()
      modifies this`byUID
      ensures Valid() && Value() == After(old(Value()), uid, SoftForModel(base, resetAt, model), now)
    {
      AfterSequenced(Value(), uid, SoftForModel(base, resetAt, model), now);
      if uid in byUID {
        var e := byUID[uid];
        var k := e.cooling;
        if resetAt != NO_TIME {
          k := k.(models := k.models[model := ModelCooldown(CappedSoftUntil(s.config, now, resetAt), resetAt, false, 0)]);
        } else {
          if k.kind != CoolSoft || !Live(k.until, now) {
            k := k.(until := now + SoftDuration(s.config, base, k.streak + 1), streak := k.streak + 1);
          }
          k := k.(kind := CoolSoft, models := map[]);
        }
        byUID := byUID[uid := e.(cooling := k)];
      }
    }

    /** The upstream does not have the model: avoid it on this account, for longer each time. */
    method BlockModelBackoff(uid: UID, model: Model, now: Time)
      requires Valid()
      modifies this`byUID
      ensures Valid() && Value() == After(old(Value()), uid, BlockModel(model), now)
    {
      AfterSequenced(Value(), uid, BlockModel(model), now);
      if model != NO_MODEL && uid in byUID {
        var e := byUID[uid];
        var models := AddHit(e.cooling.models, model, now);
        byUID := byUID[uid := e.(cooling := e.cooling.(models := models))];
      }
    }

    method AddHit(models: map<Model, ModelCooldown>, model: Model, now: Time) returns (r: map<Model, ModelCooldown>)
      ensures r == Block(models, model, now)
    {
      var hits := 0;
      if model in models {
        hits := models[model].hits;
      }
      hits := hits + 1;
      var ttl := BLOCK_TTL * Pow2(Min(hits - 1, BLOCK_SHIFT_MAX));
      if ttl >= BLOCK_TTL_MAX {
        ttl := BLOCK_TTL_MAX;
      }
      r := models[model := ModelCooldown(now + ttl, NO_TIME, true, hits)];
    }

    /** The upstream has the model after all. */
    method BlockModelClear(uid: UID, model: Model, now: Time)
      requires Valid()
      modifies this`byUID
      ensures Valid() && Value() == After(old(Value()), uid, ClearBlock(model), now)
    {
      AfterSequenced(Value(), uid, ClearBlock(model), now);
      if model != NO_MODEL && uid in byUID {
        var e := byUID[uid];
        var models := e.cooling.models;
        if model in models && models[model].blocked {
          models := models - {model};
        }
        assert models == Unblock(e.cooling.models, model);
        byUID := byUID[uid := e.(cooling := e.cooling.(models := models))];
      }
    }

    /** A failure whose cause is not known. */
    method NoteFailures(uid: UID, now: Time)
      requires Valid()
      modifies this`byUID
      ensures Valid() && Value() == After(old(Value()), uid, Event.NoteFailures, now)
    {
      AfterSequenced(Value(), uid, Event.NoteFailures, now);
      if uid in byUID {
        var e := byUID[uid];
        var d := e.degraded.(fails := e.degraded.fails + 1);
        if d.fails >= s.config.degradeThreshold {
          d := d.(fails := 0);
          if !Live(d.until, now) {
            d := d.(until := now + DegradeDuration(s.config));
          }
        }
        byUID := byUID[uid := e.(degraded := d)];
      }
    }

    /** The upstream says the session is dead; the third time in a row the account is disabled. */
    method NoteSessionDead(uid: UID, now: Time) returns (disabled: bool)
      requires Valid()
      modifies this`byUID
      ensures Valid() && Value() == After(old(Value()), uid, SessionDead, now)
      ensures disabled <==> uid in old(byUID) && old(byUID)[uid].sessionDeadFails + 1 >= SESSION_DEAD_THRESHOLD
    {
      AfterSequenced(Value(), uid, SessionDead, now);
      disabled := false;
      if uid in byUID {
        var e := byUID[uid];
        if e.sessionDeadFails + 1 < SESSION_DEAD_THRESHOLD {
          byUID := byUID[uid := e.(sessionDeadFails := e.sessionDeadFails + 1)];
        } else {
          byUID := byUID[uid := e.(sessionDeadFails := 0, cooling := NOT_COOLING, disabled := true)];
          disabled := true;
        }
      }
    }

    /** A finished request: what it cost. */
    method NoteModelCost(uid: UID, model: Model, credit: real, tokens: int, now: Time)
      requires Valid()
      modifies this`byUID
      ensures Valid() && Value() == After(old(Value()), uid, NoteCost(model, credit, tokens), now)
    {
      AfterSequenced(Value(), uid, NoteCost(model, credit, tokens), now);
      if model != NO_MODEL && tokens > 0 && uid in byUID {
        var e := byUID[uid];
        var balance := TakeCredit(e.balance, credit);
        var cost := ObservePrice(e.costs, model, credit, tokens, now);
        byUID := byUID[uid := e.(balance := balance, costs := e.costs[model := cost])];
      }
    }

    /** The charge is rounded and stops at zero, and so does the expiring part. */
    method TakeCredit(b: Balance, credit: real) returns (r: Balance)
      ensures r == Charge(b, credit)
    {
      r := b;
      if credit > 0.0 {
        var d := (credit + 0.5).Floor;
        if d > r.credits {
          d := r.credits;
        }
        r := r.(credits := r.credits - d);
        if r.expiring > 0 {
          if d > r.expiring {
            d := r.expiring;
          }
          r := r.(expiring := r.expiring - d);
        }
      }
    }

    method ObservePrice(costs: Ledger, model: Model, credit: real, tokens: int, now: Time) returns (cost: ModelCost)
      requires tokens > 0
      ensures costs[model := cost] == Observe(costs, model, PricePer1k(credit, tokens), now)
    {
      var per1k := credit / tokens as real * 1000.0;
      if per1k < 0.0 {
        per1k := 0.0;
      }
      cost := ModelCost(per1k, now, 1);
      if model in costs {
        var prev := costs[model];
        cost := ModelCost(prev.per1k * (1.0 - 0.3) + per1k * 0.3, now, prev.samples + 1);
      }
    }

    /** A finished request: the account has recovered. */
    method NoteSuccess(uid: UID, now: Time)
      requires Valid()
      modifies this`byUID
      ensures Valid() && Value() == After(old(Value()), uid, Event.NoteSuccess, now)
    {
      AfterSequenced(Value(), uid, Event.NoteSuccess, now);
      if uid in byUID {
        var e := byUID[uid];
        byUID := byUID[uid := e.(breaker := Breaker(NO_TIME, 0, 0), cooling := e.cooling.(streak := 0),
                                 degraded := Degraded(NO_TIME, 0), sessionDeadFails := 0)];
      }
    }
  }

  // ------------------------------------------------------------ choosing among the host's candidates

  /** The account can be chosen by some sequence of picks. */
  predicate Selectable(s: Settings, p: Pool, model: Model, now: Time, uid: UID) {
    && uid in p.byUID && Open(s, Request({}, model, ""), uid, p.byUID[uid])
    && (Fit(p.byUID[uid], now, model) || Waiting(p.byUID[uid], now))
  }

  /** A pick leaves every account as it prunes it, except for its use. */
  lemma PickPrunes(s: Settings, p: Pool, q: Request, now: Time, r: Option<UID>, p': Pool, uid: UID)
    requires PickOK(s, p, q, now, r, p')
    ensures uid in p'.byUID <==> uid in p.byUID
    ensures uid in p.byUID ==> p'.byUID[uid] == Prune(p.byUID[uid], now).(use := p'.byUID[uid].use)
  {
  }

  lemma PruneKeepsFit(e: Entry, now: Time, t: Time, model: Model, use: Use)
    requires now <= t
    ensures var r := Prune(e, now).(use := use);
            Fit(r, t, model) == Fit(e, t, model) && Waiting(r, t) == Waiting(e, t) && r.realm == e.realm && r.inFlight == e.inFlight
  {
  }

  /** Picks leave every account as selectable as it was, from then on. */
  lemma PickKeepsSelectable(s: Settings, p: Pool, q: Request, now: Time, r: Option<UID>, p': Pool, t: Time, uid: UID)
    requires PickOK(s, p, q, now, r, p') && now <= t
    ensures Selectable(s, p', q.model, t, uid) == Selectable(s, p, q.model, t, uid)
  {
    PickPrunes(s, p, q, now, r, p', uid);
    if uid in p.byUID {
      PruneKeepsFit(p.byUID[uid], now, t, q.model, p'.byUID[uid].use);
    }
  }

  lemma PickTakes(s: Settings, p: Pool, q: Request, now: Time, r: Option<UID>, p': Pool)
    requires PickOK(s, p, q, now, r, p') && q.realm == ""
    ensures r.Some? ==> r.value !in q.tried && Selectable(s, p, q.model, now, r.value)
    ensures r.None? ==> forall uid :: Selectable(s, p, q.model, now, uid) ==> uid in q.tried
  {
    PickIsSound(s, p, q, now, r, p');
  }

  lemma FitsIn(a: set<UID>, b: set<UID>)
    requires a <= b
    ensures |a| <= |b|
  {
    assert b == a + (b - a);
  }

  /** The accounts that can be chosen for the model. */
  function Offer(s: Settings, p: Pool, model: Model, now: Time): set<UID> {
    set uid | uid in p.byUID && Selectable(s, p, model, now, uid)
  }

  /** From the given time on the two pools offer the same accounts. */
  ghost predicate SameOffers(s: Settings, p: Pool, p': Pool, model: Model, from: Time) {
    forall t :: from <= t ==> Offer(s, p', model, t) == Offer(s, p, model, t)
  }

  lemma PickKeepsOffers(s: Settings, p: Pool, q: Request, now: Time, r: Option<UID>, p': Pool)
    requires PickOK(s, p, q, now, r, p')
    ensures SameOffers(s, p, p', q.model, now)
  {
    forall t | now <= t ensures Offer(s, p', q.model, t) == Offer(s, p, q.model, t) {
      forall uid ensures uid in Offer(s, p', q.model, t) <==> uid in Offer(s, p, q.model, t) {
        PickKeepsSelectable(s, p, q, now, r, p', t, uid);
      }
    }
  }

  lemma PickOffers(s: Settings, p: Pool, q: Request, now: Time, r: Option<UID>, p': Pool)
    requires PickOK(s, p, q, now, r, p') && q.realm == ""
    ensures if r.Some? then r.value in Offer(s, p, q.model, now) - q.tried else Offer(s, p, q.model, now) <= q.tried
  {
    PickTakes(s, p, q, now, r, p');
  }

  lemma OffersStay(s: Settings, p: Pool, p': Pool, p'': Pool, model: Model, from: Time, later: Time)
    requires SameOffers(s, p, p', model, from) && SameOffers(s, p', p'', model, later) && from <= later
    ensures SameOffers(s, p, p'', model, later)
  {
    forall t | later <= t ensures Offer(s, p'', model, t) == Offer(s, p, model, t) {
      assert Offer(s, p'', model, t) == Offer(s, p', model, t);
    }
  }

  /** One draw among the accounts not tried yet, from a pool that offers what `before` did. */
  method Draw(pool: Accounts, tried: set<UID>, model: Model, now: Time, draw: nat, ghost before: Pool) returns (r: Option<UID>)
    requires pool.Valid() && SameOffers(pool.s, before, pool.Value(), model, now)
    modifies pool
    ensures pool.Valid() && SameOffers(pool.s, before, pool.Value(), model, now)
    ensures var offer := Offer(pool.s, before, model, now);
            if r.Some? then r.value in offer - tried else offer <= tried
  {
    ghost var p := pool.Value();
    var q := Request(tried, model, "");
    r := pool.Pick(q, now, draw);
    PickKeepsOffers(pool.s, p, q, now, r, pool.Value());
    PickOffers(pool.s, p, q, now, r, pool.Value());
    OffersStay(pool.s, before, p, pool.Value(), model, now, now);
  }

  ghost predicate Monotone(clock: nat -> Time) {
    forall i: nat, j: nat :: i <= j ==> clock(i) <= clock(j)
  }

  /** Draws until an allowed account comes up; a budget above the pool's size never runs out.
      `clock` and `draws` give the time and the random number of each draw, and `k` is the last
      one: its account could be chosen then, or no allowed one could. */
  method DrawAllowed(pool: Accounts, allowed: set<UID>, budget: nat, model: Model, clock: nat -> Time, draws: nat -> nat)
    returns (r: Option<UID>, k: nat)
    requires pool.Valid() && budget > |pool.byUID.Keys| && Monotone(clock)
    modifies pool
    ensures pool.Valid() && k < budget
    ensures var offer := Offer(pool.s, old(pool.Value()), model, clock(k));
            if r.Some? then r.value in allowed * offer else allowed !! offer
  {
    ghost var before := pool.Value();
    var tried: set<UID> := {};
    for i := 0 to budget
      invariant pool.Valid() && SameOffers(pool.s, before, pool.Value(), model, clock(i))
      invariant i <= |tried| && tried <= before.byUID.Keys && tried !! allowed
    {
      r := Draw(pool, tried, model, clock(i), draws(i), before);
      if r.None? || r.value in allowed {
        return r, i;
      }
      LaterToo(pool.s, before, pool.Value(), model, clock(i), clock(i + 1));
      tried := tried + {r.value};
    }
    FitsIn(tried, before.byUID.Keys);
    assert false;
  }

  lemma LaterToo(s: Settings, p: Pool, p': Pool, model: Model, from: Time, later: Time)
    requires SameOffers(s, p, p', model, from) && from <= later
    ensures SameOffers(s, p, p', model, later)
  {
  }

  /** The result is an offered account that is not exhausted and could be chosen when it was
      drawn; there is none only if at some draw no such account could be. */
  method PickFromPool(pool: Accounts, candidates: seq<UID>, exhausted: set<UID>, model: Model, clock: nat -> Time, draws: nat -> nat)
    returns (r: Option<UID>, k: nat)
    requires pool.Valid() && Monotone(clock)
    modifies pool
    ensures pool.Valid()
    ensures r.Some? ==> r.value in candidates && r.value !in exhausted && Selectable(pool.s, old(pool.Value()), model, clock(k), r.value)
    ensures r.None? ==> forall uid :: uid in candidates && uid !in exhausted ==> !Selectable(pool.s, old(pool.Value()), model, clock(k), uid)
  {
    var allowed := set uid | uid in candidates && uid !in exhausted;
    assert forall uid :: uid in candidates && uid !in exhausted ==> uid in allowed;
    if allowed == {} {
      return None, 0;
    }
    ghost var p := pool.Value();
    r, k := DrawAllowed(pool, allowed, |pool.byUID.Keys| + |candidates|, model, clock, draws);
    assert forall uid :: uid in Offer(pool.s, p, model, clock(k)) <==> Selectable(pool.s, p, model, clock(k), uid);
  }
}
