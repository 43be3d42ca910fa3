/** Saving and restoring the pool (internal/pool/persist.go). */
module PoolPersist {
  import opened Common
  import opened PoolEntry
  import opened PoolTransition

  /** The hit count of a block is not written. */
  datatype StateModelCooldown = StateModelCooldown(until: Time, resetAt: Time, blocked: bool)

  datatype StateAccount = StateAccount(
    balance: Balance, disabled: bool, manualDisabled: bool, sessionDeadFails: nat,
    coolKind: CoolKind, until: Time, softStreak: nat, modelCooldowns: map<Model, StateModelCooldown>,
    breakerUntil: Option<Time>, retryCount: nat,
    degradeUntil: Option<Time>, consecutiveFails: nat, modelCosts: Ledger)

  function Kept(deadline: Time, now: Time): Option<Time> {
    if Live(deadline, now) then Some(deadline) else None
  }

  /** What is written for an account: deadlines and observations that have expired are not,
      nor is the kind of a cooldown that is over. The zero kind is CoolHard. */
  function Save(e: Entry, now: Time): StateAccount {
    StateAccount(
      e.balance, e.disabled, e.manualDisabled, e.sessionDeadFails,
      if e.disabled || Live(e.cooling.until, now) then e.cooling.kind else CoolHard, e.cooling.until, e.cooling.streak,
      map m | m in e.cooling.models && Live(e.cooling.models[m].until, now) ::
        StateModelCooldown(e.cooling.models[m].until, e.cooling.models[m].resetAt, e.cooling.models[m].blocked),
      Kept(e.breaker.until, now), if Live(e.breaker.until, now) then e.breaker.retries else 0,
      Kept(e.degraded.until, now), e.degraded.fails, FreshCosts(e.costs, now))
  }

  /** The expiring part is cut to what the credits can hold. */
  function Clamp(b: Balance): Balance {
    b.(expiring := Min(if b.expiring < 0 then 0 else b.expiring, b.credits))
  }

  function Restored(deadline: Option<Time>, now: Time): Time {
    if deadline.Some? && Live(deadline.value, now) then deadline.value else NO_TIME
  }

  /** The account rebuilt from its saved state; expired parts are dropped once more, and so
      are cost observations that no run can have written. */
  function Load(s: StateAccount, realm: string, now: Time): Entry {
    Entry(
      realm, Clamp(s.balance), s.disabled, s.manualDisabled, s.sessionDeadFails,
      Cooling(s.coolKind, s.until, s.softStreak,
              map m | m in s.modelCooldowns && Live(s.modelCooldowns[m].until, now) ::
                ModelCooldown(s.modelCooldowns[m].until, s.modelCooldowns[m].resetAt, s.modelCooldowns[m].blocked, 0)),
      Breaker(Restored(s.breakerUntil, now), 0, if Restored(s.breakerUntil, now) != NO_TIME then s.retryCount else 0),
      Degraded(Restored(s.degradeUntil, now), s.consecutiveFails),
      map m | m in s.modelCosts && FreshCost(s.modelCosts[m], now) && s.modelCosts[m].per1k >= 0.0 :: s.modelCosts[m],
      Use(NO_TIME, 0), 0)
  }

  /** Saved at `saved`, restored at `loaded`. */
  function Restart(e: Entry, saved: Time, loaded: Time): Entry {
    Load(Save(e, saved), e.realm, loaded)
  }

  // ------------------------------------------------------------ indistinguishable accounts

  /** Two deadlines that no one can tell apart from `now` on. */
  predicate SameDeadline(a: Time, b: Time, now: Time) {
    a == b || (!Live(a, now) && !Live(b, now))
  }

  function LimitOf(models: map<Model, ModelCooldown>, m: Model): ModelCooldown {
    if m in models then models[m] else ModelCooldown(NO_TIME, NO_TIME, false, 0)
  }

  /** The limits of a model end at the same time and are lifted by the same event. */
  predicate SameModel(a: map<Model, ModelCooldown>, b: map<Model, ModelCooldown>, m: Model, now: Time) {
    var x, y := LimitOf(a, m), LimitOf(b, m);
    SameDeadline(x.until, y.until, now) && (Live(x.until, now) ==> x.blocked == y.blocked)
  }

  ghost predicate SameCooling(a: Cooling, b: Cooling, now: Time) {
    && a.streak == b.streak && SameDeadline(a.until, b.until, now)
    && (a.kind == b.kind || (!Live(a.until, now) && !Live(b.until, now)))
    && forall m :: SameModel(a.models, b.models, m, now)
  }

  predicate SameCost(a: Ledger, b: Ledger, m: Model, now: Time) {
    CostOf(a, m, now) == CostOf(b, m, now)
  }

  ghost predicate SameCosts(a: Ledger, b: Ledger, now: Time) {
    forall m :: SameCost(a, b, m, now)
  }

  predicate SameDegraded(a: Degraded, b: Degraded, now: Time) {
    a.fails == b.fails && SameDeadline(a.until, b.until, now)
  }

  /** From `now` on the two accounts agree on everything but their use, the breaker's counters,
      the hit counts of blocked models and prices that have expired. */
  ghost predicate Alike(e: Entry, r: Entry, now: Time) {
    && e.realm == r.realm && e.balance == r.balance && e.disabled == r.disabled
    && e.manualDisabled == r.manualDisabled && e.sessionDeadFails == r.sessionDeadFails
    && SameCooling(e.cooling, r.cooling, now) && SameDeadline(e.breaker.until, r.breaker.until, now)
    && SameDegraded(e.degraded, r.degraded, now) && SameCosts(e.costs, r.costs, now)
  }

  /** Accounts that are alike have the same health, nearest deadline, hard cooldown and price,
      at any later time and for any model. */
  lemma AlikeReadsAlike(e: Entry, r: Entry, now: Time, t: Time, m: Model)
    requires Alike(e, r, now) && now <= t
    ensures HealthyForModel(r, t, m) == HealthyForModel(e, t, m) && Expiry(r, t) == Expiry(e, t)
    ensures LiveHard(r, t) == LiveHard(e, t) && CostOf(r.costs, m, t) == CostOf(e.costs, m, t)
  {
    assert SameModel(e.cooling.models, r.cooling.models, m, now) && SameCost(e.costs, r.costs, m, now);
  }

  predicate WholeBalance(b: Balance) {
    0 <= b.expiring <= b.credits || b.expiring == b.credits < 0
  }

  predicate NoNegative(costs: Ledger, now: Time) {
    forall m :: m in costs ==> NotNegative(costs, m, now)
  }

  /** No run writes a negative price; a restart drops one. */
  predicate NotNegative(costs: Ledger, m: Model, now: Time) {
    CostOf(costs, m, now).Some? ==> CostOf(costs, m, now).value.per1k >= 0.0
  }

  lemma CostsSurvive(e: Entry, saved: Time, loaded: Time, m: Model)
    requires saved <= loaded
    ensures SameCost(e.costs, Restart(e, saved, loaded).costs, m, loaded) <==> NotNegative(e.costs, m, loaded)
  {
  }

  /** A restored account is indistinguishable from the original exactly when the expiring
      credit is part of the credit and no observed price in force is negative. */
  lemma RestartIsAlike(e: Entry, saved: Time, loaded: Time)
    requires saved <= loaded
    ensures Alike(e, Restart(e, saved, loaded), loaded) <==> WholeBalance(e.balance) && NoNegative(e.costs, loaded)
  {
    var r := Restart(e, saved, loaded);
    forall m ensures SameModel(e.cooling.models, r.cooling.models, m, loaded) {
    }
    forall m ensures SameCost(e.costs, r.costs, m, loaded) <==> NotNegative(e.costs, m, loaded) {
      CostsSurvive(e, saved, loaded, m);
    }
  }

  // ------------------------------------------------------------ the file

  /** No price that would be written is negative. */
  predicate NoNegativeWritten(costs: Ledger, now: Time) {
    forall m :: m in costs && FreshCost(costs[m], now) ==> costs[m].per1k >= 0.0
  }

  lemma CostsWrittenAlike(e: Entry, saved: Time, loaded: Time)
    requires saved <= loaded
    ensures FreshCosts(Restart(e, saved, loaded).costs, loaded) == FreshCosts(e.costs, loaded) <==> NoNegativeWritten(e.costs, loaded)
  {
    var a, b := FreshCosts(Restart(e, saved, loaded).costs, loaded), FreshCosts(e.costs, loaded);
    assert forall m :: m in a ==> m in b && a[m] == b[m];
    if NoNegativeWritten(e.costs, loaded) {
      assert a.Keys == b.Keys;
    } else {
      var m :| m in e.costs && FreshCost(e.costs[m], loaded) && e.costs[m].per1k < 0.0;
      assert m in b && m !in a;
    }
  }

  lemma LimitsWrittenAlike(e: Entry, saved: Time, loaded: Time)
    requires saved <= loaded
    ensures Save(Restart(e, saved, loaded), loaded).modelCooldowns == Save(e, loaded).modelCooldowns
  {
  }

  /** A restart does not show in the file: the restored account is written as the original would
      be, exactly when the balance is whole and no price in force is negative. */
  lemma RestoredIsWrittenAlike(e: Entry, saved: Time, loaded: Time)
    requires saved <= loaded
    ensures Save(Restart(e, saved, loaded), loaded) == Save(e, loaded) <==>
              WholeBalance(e.balance) && NoNegativeWritten(e.costs, loaded)
  {
    CostsWrittenAlike(e, saved, loaded);
    LimitsWrittenAlike(e, saved, loaded);
  }

  /** The kind of a cooldown is written while it lasts, and always for a disabled account. */
  lemma KindIsWritten(e: Entry, now: Time)
    ensures e.disabled || !Over(e.cooling.until, now) ==> Save(e, now).coolKind == e.cooling.kind
    ensures !e.disabled && Over(e.cooling.until, now) ==> Save(e, now).coolKind == CoolHard
  {
  }

  // ------------------------------------------------------------ whole runs after a restart

  lemma AlikeLater(e: Entry, r: Entry, now: Time, t: Time)
    requires Alike(e, r, now) && now <= t
    ensures Alike(e, r, t)
  {
    forall m ensures SameModel(e.cooling.models, r.cooling.models, m, t) && SameCost(e.costs, r.costs, m, t) {
      assert SameModel(e.cooling.models, r.cooling.models, m, now) && SameCost(e.costs, r.costs, m, now);
    }
  }

  /** The next block of the model is as long in both. */
  predicate SameHit(a: map<Model, ModelCooldown>, b: map<Model, ModelCooldown>, m: Model) {
    var x, y := LimitOf(a, m), LimitOf(b, m);
    x.hits == y.hits && (x.hits > 0 ==> x.blocked == y.blocked)
  }

  ghost predicate SameHits(a: Cooling, b: Cooling) {
    forall m :: m != NO_MODEL ==> SameHit(a.models, b.models, m)
  }

  /** The limit of the model is the same as before the event, or both limits are over. */
  lemma LimitAlike(c: Config, a: Cooling, b: Cooling, disabled: bool, strikes: nat, ev: Event, now: Time, m: Model)
    requires a.kind == b.kind || (!Live(a.until, now) && !Live(b.until, now))
    requires a.streak == b.streak && SameDeadline(a.until, b.until, now) && SameModel(a.models, b.models, m, now)
    requires ev.BlockModel? && m != NO_MODEL ==> SameHit(a.models, b.models, m)
    ensures SameModel(StepCooling(c, a, disabled, strikes, ev, now).models, StepCooling(c, b, disabled, strikes, ev, now).models, m, now)
  {
  }

  lemma CoolingAlike(c: Config, a: Cooling, b: Cooling, disabled: bool, strikes: nat, ev: Event, now: Time)
    requires SameCooling(a, b, now) && (ev.BlockModel? ==> SameHits(a, b))
    ensures SameCooling(StepCooling(c, a, disabled, strikes, ev, now), StepCooling(c, b, disabled, strikes, ev, now), now)
  {
    var a', b' := StepCooling(c, a, disabled, strikes, ev, now), StepCooling(c, b, disabled, strikes, ev, now);
    forall m ensures SameModel(a'.models, b'.models, m, now) {
      assert SameModel(a.models, b.models, m, now);
      LimitAlike(c, a, b, disabled, strikes, ev, now, m);
    }
  }

  lemma HitsAlike(c: Config, a: Cooling, b: Cooling, disabled: bool, strikes: nat, ev: Event, now: Time)
    requires SameCooling(a, b, now) && SameHits(a, b)
    ensures SameHits(StepCooling(c, a, disabled, strikes, ev, now), StepCooling(c, b, disabled, strikes, ev, now))
  {
    var a', b' := StepCooling(c, a, disabled, strikes, ev, now), StepCooling(c, b, disabled, strikes, ev, now);
    forall m | m != NO_MODEL ensures SameHit(a'.models, b'.models, m) {
      assert SameModel(a.models, b.models, m, now) && SameHit(a.models, b.models, m);
    }
  }

  /** The two ledgers have the same last price of a model, expired or not. */
  predicate SameLast(a: Ledger, b: Ledger, m: Model) {
    (m in a <==> m in b) && (m in a ==> a[m] == b[m])
  }

  ghost predicate SameLedger(a: Ledger, b: Ledger) {
    forall m :: m != NO_MODEL ==> SameLast(a, b, m)
  }

  /** The event observes a price of the model. */
  predicate Observes(ev: Event, m: Model) {
    ev.NoteCost? && ev.costModel == m != NO_MODEL && ev.tokens > 0
  }

  lemma CostsAlike(a: Ledger, b: Ledger, ev: Event, now: Time)
    requires SameCosts(a, b, now) && forall m :: Observes(ev, m) ==> SameLast(a, b, m)
    ensures SameCosts(StepCosts(a, ev, now), StepCosts(b, ev, now), now)
    ensures SameLedger(a, b) ==> SameLedger(StepCosts(a, ev, now), StepCosts(b, ev, now))
    ensures b.Keys <= a.Keys + {NO_MODEL} ==> StepCosts(b, ev, now).Keys <= StepCosts(a, ev, now).Keys + {NO_MODEL}
  {
    var a', b' := StepCosts(a, ev, now), StepCosts(b, ev, now);
    forall m ensures SameCost(a', b', m, now) {
      assert SameCost(a, b, m, now);
      assert Observes(ev, m) ==> SameLast(a, b, m);
    }
    if SameLedger(a, b) {
      forall m | m != NO_MODEL ensures SameLast(a', b', m) {
        assert SameLast(a, b, m);
      }
    }
    if b.Keys <= a.Keys + {NO_MODEL} {
      forall m | m in b' && m != NO_MODEL ensures m in a' {
        assert SameCost(a, b, m, now);
      }
    }
  }

  /** Every trip of the breaker is as long as the first. */
  predicate Flat(c: Config) {
    c.breakerCooldown == c.breakerCooldownMax && 0 < c.breakerCooldown < HALF / 2
  }

  /** The breakers count errors alike. */
  predicate SameBreaker(c: Config, a: Breaker, b: Breaker) {
    a.fails == b.fails && (a.retries == b.retries || Flat(c))
  }

  lemma BreakersAlike(c: Config, a: Breaker, b: Breaker, ev: Event, now: Time)
    requires SameDeadline(a.until, b.until, now) && (ev.NoteError? ==> SameBreaker(c, a, b))
    ensures SameDeadline(StepBreaker(c, a, ev, now).until, StepBreaker(c, b, ev, now).until, now)
    ensures SameBreaker(c, a, b) ==> SameBreaker(c, StepBreaker(c, a, ev, now), StepBreaker(c, b, ev, now))
  {
  }

  lemma DegradedAlike(c: Config, a: Degraded, b: Degraded, ev: Event, now: Time)
    requires SameDegraded(a, b, now)
    ensures SameDegraded(StepDegraded(c, a, ev, now), StepDegraded(c, b, ev, now), now)
  {
  }

  /** Accounts that are alike stay alike, except that an error is only counted alike when the
      breakers agree, a block of a model when the hit counts do, and a price when the last
      prices of its model do. */
  lemma StepsAlike(c: Config, e: Entry, r: Entry, now: Time, ev: Event, t: Time)
    requires Alike(e, r, now) && now <= t
    requires forall m :: Observes(ev, m) ==> SameLast(e.costs, r.costs, m)
    requires ev.NoteError? ==> SameBreaker(c, e.breaker, r.breaker)
    requires ev.BlockModel? ==> SameHits(e.cooling, r.cooling)
    ensures Alike(Step(c, e, ev, t), Step(c, r, ev, t), t)
  {
    AlikeLater(e, r, now, t);
    CoolingAlike(c, e.cooling, r.cooling, e.disabled, e.sessionDeadFails, ev, t);
    CostsAlike(e.costs, r.costs, ev, t);
    BreakersAlike(c, e.breaker, r.breaker, ev, t);
    DegradedAlike(c, e.degraded, r.degraded, ev, t);
  }

  /** What agrees beyond that stays in agreement. */
  lemma MemoryAlike(c: Config, e: Entry, r: Entry, ev: Event, t: Time)
    requires Alike(e, r, t) && forall m :: Observes(ev, m) ==> SameLast(e.costs, r.costs, m)
    requires ev.NoteError? ==> SameBreaker(c, e.breaker, r.breaker)
    ensures SameBreaker(c, e.breaker, r.breaker) ==> SameBreaker(c, Step(c, e, ev, t).breaker, Step(c, r, ev, t).breaker)
    ensures SameHits(e.cooling, r.cooling) ==> SameHits(Step(c, e, ev, t).cooling, Step(c, r, ev, t).cooling)
    ensures SameLedger(e.costs, r.costs) ==> SameLedger(Step(c, e, ev, t).costs, Step(c, r, ev, t).costs)
    ensures r.costs.Keys <= e.costs.Keys + {NO_MODEL} ==> Step(c, r, ev, t).costs.Keys <= Step(c, e, ev, t).costs.Keys + {NO_MODEL}
  {
    if SameHits(e.cooling, r.cooling) {
      HitsAlike(c, e.cooling, r.cooling, e.disabled, e.sessionDeadFails, ev, t);
    }
    CostsAlike(e.costs, r.costs, ev, t);
    BreakersAlike(c, e.breaker, r.breaker, ev, t);
  }

  /** A price is observed on top of an expired one, which the running pool still smooths into. */
  predicate StaleCost(costs: Ledger, ev: Event, now: Time) {
    ev.NoteCost? && ev.costModel in costs && !FreshCost(costs[ev.costModel], now)
  }

  /** No observation of the run comes on top of an expired one. */
  predicate NoStaleCost(c: Config, e: Entry, events: seq<Timed>)
    decreases |events|
  {
    events == [] ||
    (!StaleCost(e.costs, events[0].event, events[0].at) && NoStaleCost(c, Step(c, e, events[0].event, events[0].at), events[1..]))
  }

  function LastTime(start: Time, events: seq<Timed>): Time {
    if events == [] then start else events[|events| - 1].at
  }

  /** Events in order of time, none before `start`. */
  predicate Since(start: Time, events: seq<Timed>) {
    Ordered(events) && (events != [] ==> start <= events[0].at)
  }

  predicate NoErrors(events: seq<Timed>) {
    forall i :: 0 <= i < |events| ==> !events[i].event.NoteError?
  }

  predicate NoBlocks(events: seq<Timed>) {
    forall i :: 0 <= i < |events| ==> !events[i].event.BlockModel?
  }

  lemma {:induction false} RunsAlike(c: Config, e: Entry, r: Entry, now: Time, events: seq<Timed>)
    requires Alike(e, r, now) && Since(now, events)
    requires SameLedger(e.costs, r.costs) || (r.costs.Keys <= e.costs.Keys + {NO_MODEL} && NoStaleCost(c, e, events))
    requires SameBreaker(c, e.breaker, r.breaker) || NoErrors(events)
    requires SameHits(e.cooling, r.cooling) || NoBlocks(events)
    ensures Alike(Run(c, e, events), Run(c, r, events), LastTime(now, events))
    decreases |events|
  {
    if events != [] {
      var ev, t, rest := events[0].event, events[0].at, events[1..];
      AlikeLater(e, r, now, t);
      forall m | Observes(ev, m) ensures SameLast(e.costs, r.costs, m) {
        assert SameCost(e.costs, r.costs, m, t);
      }
      StepsAlike(c, e, r, now, ev, t);
      MemoryAlike(c, e, r, ev, t);
      assert rest != [] ==> events[0].at <= events[1].at;
      assert forall i :: 0 <= i < |rest| ==> rest[i] == events[i + 1];
      RunsAlike(c, Step(c, e, ev, t), Step(c, r, ev, t), t, rest);
    }
  }

  // ------------------------------------------------------------ what runs keep

  /** The event leaves a whole balance whole: a total that is set alone must hold the expiring
      part, and nothing may be charged to a negative total. */
  predicate Fits(b: Balance, ev: Event) {
    match ev
    case SetCredits(total) => WholeBalance(Balance(total, b.expiring))
    case Reenable(remain) => WholeBalance(Balance(remain, b.expiring))
    case NoteCost(m, credit, tokens) => m == NO_MODEL || tokens <= 0 || credit <= 0.0 || b.credits >= 0
    case _ => true
  }

  lemma WholeStep(b: Balance, ev: Event)
    requires WholeBalance(b)
    ensures WholeBalance(StepBalance(b, ev)) <==> Fits(b, ev)
  {
  }

  predicate AllFit(b: Balance, events: seq<Timed>)
    decreases |events|
  {
    events == [] || (Fits(b, events[0].event) && AllFit(StepBalance(b, events[0].event), events[1..]))
  }

  /** The balance is whole in every state of the run. */
  predicate WholeThroughout(c: Config, e: Entry, events: seq<Timed>)
    decreases |events|
  {
    WholeBalance(e.balance) && (events == [] || WholeThroughout(c, Step(c, e, events[0].event, events[0].at), events[1..]))
  }

  /** The balance stays whole throughout a run exactly when every event fits. */
  lemma {:induction false} BalanceStaysWhole(c: Config, e: Entry, events: seq<Timed>)
    requires WholeBalance(e.balance)
    ensures WholeThroughout(c, e, events) <==> AllFit(e.balance, events)
    decreases |events|
  {
    if events != [] {
      WholeStep(e.balance, events[0].event);
      if Fits(e.balance, events[0].event) {
        BalanceStaysWhole(c, Step(c, e, events[0].event, events[0].at), events[1..]);
      }
    }
  }

  /** A check-in can break it: it sets the total and leaves the expiring part. */
  lemma CheckInBreaksBalance(b: Balance, remain: int)
    requires WholeBalance(b)
    ensures WholeBalance(StepBalance(b, Reenable(remain))) <==> b.expiring <= remain && (b.expiring >= 0 || b.expiring == remain)
  {
    WholeStep(b, Reenable(remain));
  }

  /** Observed prices never become negative. */
  lemma {:induction false} PricesStayPositive(c: Config, e: Entry, events: seq<Timed>, m: Model)
    requires m in e.costs ==> e.costs[m].per1k >= 0.0
    ensures m in Run(c, e, events).costs ==> Run(c, e, events).costs[m].per1k >= 0.0
    decreases |events|
  {
    if events != [] {
      PricesStayPositive(c, Step(c, e, events[0].event, events[0].at), events[1..], m);
    }
  }

  // ------------------------------------------------------------ the loops

  /** stateOverviewLocked: one record for every account. */
  method Overview(byUID: map<UID, Entry>, now: Time) returns (accounts: map<UID, StateAccount>)
    ensures accounts.Keys == byUID.Keys && forall uid :: uid in byUID ==> accounts[uid] == Save(byUID[uid], now)
  {
    accounts := Rebuild(byUID, e => Save(e, now));
  }

  /** applyAccountsLocked: saved accounts replace or join those of the pool. */
  method ApplyAccounts(byUID: map<UID, Entry>, accounts: map<UID, StateAccount>, now: Time) returns (r: map<UID, Entry>)
    ensures r.Keys == byUID.Keys + accounts.Keys
    ensures forall uid :: uid in r ==> r[uid] == if uid in accounts then Load(accounts[uid], "", now) else byUID[uid]
  {
    var loaded := Rebuild(accounts, s => Load(s, "", now));
    r := byUID + loaded;
  }
}
