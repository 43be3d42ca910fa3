/**
 What a restart leaves to be seen, over every later run of an account (internal/pool/persist.go
 together with cooldown.go and state.go): when its standing is the same, exactly, which events
 show the rest, and what selection reads of its use.
 */
module PoolRestart {
  import opened Common
  import opened PoolEntry
  import opened PoolTransition
  import opened PoolBackoff
  import opened PoolPersist
  import opened PoolPick
  import opened AccountPool

  /** The standing of an account at a time for a model: its health, its nearest deadline, its
      hard cooldown, its price and its balance. Selection also reads its use, which is below. */
  predicate SameStanding(e: Entry, r: Entry, t: Time, m: Model) {
    && HealthyForModel(r, t, m) == HealthyForModel(e, t, m) && Expiry(r, t) == Expiry(e, t)
    && LiveHard(r, t) == LiveHard(e, t) && CostOf(r.costs, m, t) == CostOf(e.costs, m, t)
    && r.balance == e.balance
  }

  // ------------------------------------------------------------ what a restart may forget

  /** The breaker has nothing that a restart forgets and errors could show: no failure below
      the threshold, and no earlier trip, unless the breaker is open or all trips are alike. */
  predicate NothingForgotten(c: Config, b: Breaker, loaded: Time) {
    b.fails == 0 && (b.retries == 0 || Live(b.until, loaded) || c.breakerCooldown == c.breakerCooldownMax)
  }

  /** No block of a model has a hit count, in force or expired, that a restart forgets. */
  predicate NothingUnlearned(models: map<Model, ModelCooldown>) {
    forall m :: m in models && m != NO_MODEL ==> models[m].hits == 0
  }

  /** The ledger has no price that a restart drops. */
  predicate NothingDropped(costs: Ledger, loaded: Time) {
    forall m :: m in costs && m != NO_MODEL ==> FreshCost(costs[m], loaded) && costs[m].per1k >= 0.0
  }

  /** A configuration whose breaker has its documented lengths. */
  predicate Sound(c: Config) {
    c.breakerCooldown > 0 && c.breakerCooldownMax > 0 && NoOverflow(c.breakerCooldown, c.breakerCooldownMax)
  }

  /** Errors that trip a breaker without failures. */
  function Limit(c: Config): nat {
    if c.breakerThreshold > 1 then c.breakerThreshold else 1
  }

  predicate Restorable(c: Config, e: Entry, loaded: Time) {
    && WholeBalance(e.balance) && NothingDropped(e.costs, loaded) && NothingUnlearned(e.cooling.models)
    && NothingForgotten(c, e.breaker, loaded)
  }

  // ------------------------------------------------------------ one run

  /** Whatever happens after a restart, the restored account has the standing that the original
      would have had, for every model and at every later time, if errors are among the events
      only when the breaker had nothing to forget, blocks of models only when no hit count was
      lost, and prices on top of expired ones only when the ledger had nothing to drop. */
  lemma RestartKeepsStanding(c: Config, e: Entry, saved: Time, loaded: Time, events: seq<Timed>, t: Time, m: Model)
    requires saved <= loaded && WholeBalance(e.balance) && NoNegative(e.costs, loaded)
    requires Since(loaded, events) && LastTime(loaded, events) <= t && Sound(c)
    requires NothingForgotten(c, e.breaker, loaded) || NoErrors(events)
    requires NothingUnlearned(e.cooling.models) || NoBlocks(events)
    requires NothingDropped(e.costs, loaded) || NoStaleCost(c, e, events)
    ensures SameStanding(Run(c, e, events), Run(c, Restart(e, saved, loaded), events), t, m)
  {
    var r := Restart(e, saved, loaded);
    RestartIsAlike(e, saved, loaded);
    RunsAlike(c, e, r, loaded, events);
    AlikeReadsAlike(Run(c, e, events), Run(c, r, events), LastTime(loaded, events), t, m);
  }

  // ------------------------------------------------------------ errors show what was forgotten

  /** `n` errors at one time. */
  function Failing(n: nat, t: Time): seq<Timed> {
    seq(n, i => Timed(NoteError, t))
  }

  lemma {:induction false} StaysClosed(c: Config, e: Entry, n: nat, t: Time)
    requires e.breaker.fails + n < Limit(c)
    ensures Run(c, e, Failing(n, t)) == e.(breaker := e.breaker.(fails := e.breaker.fails + n))
    decreases n
  {
    if n > 0 {
      assert Failing(n, t)[1..] == Failing(n - 1, t);
      StaysClosed(c, Step(c, e, NoteError, t), n - 1, t);
    }
  }

  lemma {:induction false} Trips(c: Config, e: Entry, n: nat, t: Time)
    requires e.breaker.fails + n == Limit(c) && n > 0 && Sound(c)
    ensures Run(c, e, Failing(n, t)) ==
              e.(breaker := Breaker(t + Promised(c.breakerCooldown, c.breakerCooldownMax, e.breaker.retries), 0, e.breaker.retries + 1))
    decreases n
  {
    assert Failing(n, t)[1..] == Failing(n - 1, t);
    if n > 1 {
      Trips(c, Step(c, e, NoteError, t), n - 1, t);
    } else {
      DoublingFits(c.breakerCooldown, c.breakerCooldownMax, e.breaker.retries);
    }
  }

  /** A time at which no deadline of the account is in force any more. */
  predicate Quiet(e: Entry, t: Time) {
    t > 0 && e.cooling.until <= t && e.breaker.until <= t && e.degraded.until <= t
  }

  /** The errors that were missing for a trip show whatever the breaker forgot, once other
      deadlines have passed: the original trips, for longer the more often it has, while the
      restored account does not or trips as for the first time. */
  lemma ForgottenShows(c: Config, e: Entry, saved: Time, loaded: Time, t: Time)
    requires saved <= loaded <= t && Quiet(e, t) && Sound(c)
    requires e.breaker.fails < Limit(c) && !NothingForgotten(c, e.breaker, loaded)
    ensures var errors := Failing(Limit(c) - e.breaker.fails, t);
            var original, restored := Expiry(Run(c, e, errors), t), Expiry(Run(c, Restart(e, saved, loaded), errors), t);
            && original == t + Promised(c.breakerCooldown, c.breakerCooldownMax, e.breaker.retries)
            && restored == (if e.breaker.fails > 0 then NO_TIME else t + c.breakerCooldown)
            && original != restored
  {
    var n, r := Limit(c) - e.breaker.fails, Restart(e, saved, loaded);
    Trips(c, e, n, t);
    if e.breaker.fails > 0 {
      StaysClosed(c, r, n, t);
    } else {
      Trips(c, r, n, t);
    }
    if e.breaker.retries > 0 {
      PowGrows(c.breakerCooldown, e.breaker.retries);
    }
  }

  // ------------------------------------------------------------ blocks show what was unlearned

  /** Events after which only the blocked model keeps a quiet account from being healthy. */
  function Blocking(m: Model, t: Time): seq<Timed> {
    [Timed(Revive, t), Timed(SetManual(false), t), Timed(BlockModel(m), t)]
  }

  lemma RunThree(c: Config, e: Entry, a: Timed, b: Timed, d: Timed)
    ensures Run(c, e, [a, b, d]) == Step(c, Step(c, Step(c, e, a.event, a.at), b.event, b.at), d.event, d.at)
  {
    var e1 := Step(c, e, a.event, a.at);
    var e2 := Step(c, e1, b.event, b.at);
    assert [a, b, d][1..] == [b, d] && [b, d][1..] == [d];
    assert Run(c, e1, [b, d]) == Run(c, e2, [d]);
    RunOne(c, e2, d.event, d.at);
  }

  lemma Blocked(c: Config, e: Entry, m: Model, t: Time, u: Time)
    requires Quiet(e, t) && m != NO_MODEL && t <= u
    ensures HealthyForModel(Run(c, e, Blocking(m, t)), u, m) <==> t + BlockDuration(Hits(e.cooling.models, m) + 1) <= u
  {
    RunThree(c, e, Timed(Revive, t), Timed(SetManual(false), t), Timed(BlockModel(m), t));
  }

  lemma BlocksGrow(hits: nat)
    ensures BlockDuration(1) == BLOCK_TTL && BlockDuration(hits + 2) >= 2 * BLOCK_TTL
  {
    assert Pow2(0) == 1 && Pow2(1) == 2;
    if hits > 0 {
      PowGrows(1, Min(hits + 1, BLOCK_SHIFT_MAX));
    }
  }

  /** The next time the upstream does not have the model shows a hit count that was lost: the
      original blocks it for longer than the first time, the restored account as for the first
      time, so that in between only the restored account takes requests for the model. */
  lemma UnlearnedShows(c: Config, e: Entry, saved: Time, loaded: Time, t: Time, m: Model, u: Time)
    requires saved <= loaded <= t && Quiet(e, t) && m != NO_MODEL && Hits(e.cooling.models, m) > 0
    requires t + BLOCK_TTL <= u < t + 2 * BLOCK_TTL
    ensures HealthyForModel(Run(c, Restart(e, saved, loaded), Blocking(m, t)), u, m)
    ensures !HealthyForModel(Run(c, e, Blocking(m, t)), u, m)
  {
    Blocked(c, e, m, t, u);
    Blocked(c, Restart(e, saved, loaded), m, t, u);
    BlocksGrow(Hits(e.cooling.models, m) - 1);
  }

  // ------------------------------------------------------------ prices show what was dropped

  function PriceAt(e: Entry, m: Model, t: Time): Option<real> {
    var c := CostOf(e.costs, m, t);
    if c.Some? then Some(c.value.per1k) else None
  }

  /** A price observed after a restart becomes the same for both accounts exactly when the
      model's last price was not dropped, or was that price itself. */
  lemma DroppedShows(c: Config, e: Entry, saved: Time, loaded: Time, ev: Event, m: Model, t: Time)
    requires saved <= loaded <= t && t != NO_TIME && Observes(ev, m)
    ensures PriceAt(Step(c, e, ev, t), m, t) == PriceAt(Step(c, Restart(e, saved, loaded), ev, t), m, t) <==>
              || (m in e.costs ==> FreshCost(e.costs[m], loaded) && e.costs[m].per1k >= 0.0)
              || e.costs[m].per1k == PricePer1k(ev.credit, ev.tokens)
  {
  }

  // ------------------------------------------------------------ all runs

  ghost predicate AgreeOn(c: Config, e: Entry, r: Entry, loaded: Time, events: seq<Timed>) {
    Since(loaded, events) ==>
      forall t, m :: LastTime(loaded, events) <= t ==> SameStanding(Run(c, e, events), Run(c, r, events), t, m)
  }

  /** No run of events gives the two accounts a different standing. */
  ghost predicate SameForever(c: Config, e: Entry, r: Entry, loaded: Time) {
    forall events :: AgreeOn(c, e, r, loaded, events)
  }

  /** A restart keeps the standing of an account in all runs exactly when the balance is whole,
      no price is dropped, no hit count is lost and the breaker has nothing to forget. */
  lemma StandingIsKeptExactly(c: Config, e: Entry, saved: Time, loaded: Time)
    requires saved <= loaded && Sound(c) && e.breaker.fails < Limit(c)
    ensures SameForever(c, e, Restart(e, saved, loaded), loaded) <==>
              Restorable(c, e, loaded)
  {
    var r := Restart(e, saved, loaded);
    if Restorable(c, e, loaded) {
      forall events ensures AgreeOn(c, e, r, loaded, events) {
        if Since(loaded, events) {
          forall t, m | LastTime(loaded, events) <= t ensures SameStanding(Run(c, e, events), Run(c, r, events), t, m) {
            RestartKeepsStanding(c, e, saved, loaded, events, t, m);
          }
        }
      }
    }
    if SameForever(c, e, r, loaded) {
      BalanceSeen(c, e, saved, loaded);
      PricesSeen(c, e, saved, loaded);
      BlocksSeen(c, e, saved, loaded);
      BreakerSeen(c, e, saved, loaded);
    }
  }

  lemma Reading(c: Config, e: Entry, r: Entry, loaded: Time, events: seq<Timed>, t: Time, m: Model)
    requires SameForever(c, e, r, loaded) && Since(loaded, events) && LastTime(loaded, events) <= t
    ensures SameStanding(Run(c, e, events), Run(c, r, events), t, m)
  {
    assert AgreeOn(c, e, r, loaded, events);
  }

  lemma RunOne(c: Config, e: Entry, ev: Event, t: Time)
    ensures Run(c, e, [Timed(ev, t)]) == Step(c, e, ev, t)
  {
    assert [Timed(ev, t)][1..] == [];
  }

  lemma BalanceSeen(c: Config, e: Entry, saved: Time, loaded: Time)
    requires SameForever(c, e, Restart(e, saved, loaded), loaded)
    ensures WholeBalance(e.balance)
  {
    Reading(c, e, Restart(e, saved, loaded), loaded, [], loaded, NO_MODEL);
  }

  function Later(a: Time, b: Time): Time {
    if a < b then b else a
  }

  lemma PricesSeen(c: Config, e: Entry, saved: Time, loaded: Time)
    requires saved <= loaded && SameForever(c, e, Restart(e, saved, loaded), loaded)
    ensures NothingDropped(e.costs, loaded)
  {
    forall m | m in e.costs && m != NO_MODEL ensures FreshCost(e.costs[m], loaded) && e.costs[m].per1k >= 0.0 {
      var t, r := Later(loaded, 1), Restart(e, saved, loaded);
      var ev := NoteCost(m, if e.costs[m].per1k == 0.0 then 1.0 else 0.0, 1);
      Reading(c, e, r, loaded, [Timed(ev, t)], t, m);
      RunOne(c, e, ev, t);
      RunOne(c, r, ev, t);
      DroppedShows(c, e, saved, loaded, ev, m, t);
    }
  }

  /** A time at which the account is quiet. */
  function QuietTime(e: Entry, loaded: Time): (t: Time)
    ensures loaded <= t && Quiet(e, t)
  {
    Later(Later(Later(loaded, 1), e.cooling.until), Later(e.breaker.until, e.degraded.until))
  }

  lemma BlocksSeen(c: Config, e: Entry, saved: Time, loaded: Time)
    requires saved <= loaded && SameForever(c, e, Restart(e, saved, loaded), loaded)
    ensures NothingUnlearned(e.cooling.models)
  {
    forall m | m in e.cooling.models && m != NO_MODEL ensures e.cooling.models[m].hits == 0 {
      var t := QuietTime(e, loaded);
      Reading(c, e, Restart(e, saved, loaded), loaded, Blocking(m, t), t + BLOCK_TTL, m);
      if e.cooling.models[m].hits > 0 {
        UnlearnedShows(c, e, saved, loaded, t, m, t + BLOCK_TTL);
      }
    }
  }

  lemma BreakerSeen(c: Config, e: Entry, saved: Time, loaded: Time)
    requires saved <= loaded && Sound(c) && e.breaker.fails < Limit(c)
    requires SameForever(c, e, Restart(e, saved, loaded), loaded)
    ensures NothingForgotten(c, e.breaker, loaded)
  {
    var t := QuietTime(e, loaded);
    Reading(c, e, Restart(e, saved, loaded), loaded, Failing(Limit(c) - e.breaker.fails, t), t, NO_MODEL);
    if !NothingForgotten(c, e.breaker, loaded) {
      ForgottenShows(c, e, saved, loaded, t);
    }
  }

  // ------------------------------------------------------------ what selection reads of the use

  /** What selection makes of the use of two accounts: rest, weight, room and number. */
  predicate SameUse(s: Settings, e: Entry, r: Entry, maxCredits: int, t: Time) {
    && (t - e.use.lastUsed >= s.gap <==> t - r.use.lastUsed >= s.gap)
    && WeightOf(s, e.balance, e.use.lastUsed, maxCredits, t) == WeightOf(s, r.balance, r.use.lastUsed, maxCredits, t)
    && Full(s, e) == Full(s, r) && e.use.sequence == r.use.sequence
  }

  /** A restart forgets when an account was last used and what it is working on: right after
      it, selection reads the same exactly when the original has rested, has its whole idle
      bonus, has room and was never numbered. */
  lemma UseIsForgotten(s: Settings, e: Entry, saved: Time, loaded: Time, maxCredits: int, t: Time)
    requires s.gap <= t && WholeBalance(e.balance)
    ensures SameUse(s, e, Restart(e, saved, loaded), maxCredits, t) <==>
              && t - e.use.lastUsed >= s.gap && IdleWeight(s, e.use.lastUsed, t) == s.idleMax
              && !Full(s, e) && e.use.sequence == 0
  {
  }

  /** So an account that was used less than the gap ago is rested only after a restart. */
  lemma RestIsRestored(s: Settings, e: Entry, saved: Time, loaded: Time, t: Time)
    requires s.gap <= t < e.use.lastUsed + s.gap
    ensures t - e.use.lastUsed < s.gap <= t - Restart(e, saved, loaded).use.lastUsed
  {
  }
}
