/**
 One account of the pool (internal/pool/entry.go): its dimensions of availability and the
 predicates that read them. Times are integers; 0 is Go's zero time. A saturating time
 difference compares with a threshold exactly as the plain difference does.
 */
module PoolEntry {
  import opened Common

  type UID = string
  type Model = string
  type Time = int

  const NO_TIME: Time := 0
  const NO_MODEL: Model := ""

  const NANOS_PER_HOUR := 3_600_000_000_000
  /** How long a cost observation counts. */
  const COST_TTL := 6 * NANOS_PER_HOUR

  datatype Balance = Balance(credits: int, expiring: int)

  datatype CoolKind = CoolHard | CoolSoft

  /** `blocked` if the upstream does not have the model, for the `hits`-th time in a row. */
  datatype ModelCooldown = ModelCooldown(until: Time, resetAt: Time, blocked: bool, hits: nat)

  /** The account's own cooldown and those of single models. */
  datatype Cooling = Cooling(kind: CoolKind, until: Time, streak: nat, models: map<Model, ModelCooldown>)

  datatype Breaker = Breaker(until: Time, fails: nat, retries: nat)

  datatype Degraded = Degraded(until: Time, fails: nat)

  datatype ModelCost = ModelCost(per1k: real, lastSeen: Time, samples: int)

  type Ledger = map<Model, ModelCost>

  datatype Use = Use(lastUsed: Time, sequence: nat)

  datatype Entry = Entry(
    realm: string, balance: Balance, disabled: bool, manualDisabled: bool, sessionDeadFails: nat,
    cooling: Cooling, breaker: Breaker, degraded: Degraded, costs: Ledger, use: Use, inFlight: int)

  /** A deadline that is set and not reached. */
  predicate Live(deadline: Time, now: Time) {
    deadline != NO_TIME && now < deadline
  }

  predicate Healthy(e: Entry, now: Time) {
    && !e.disabled && !e.manualDisabled
    && !Live(e.cooling.until, now) && !Live(e.breaker.until, now) && !Live(e.degraded.until, now)
  }

  predicate ModelCooled(c: Cooling, now: Time, m: Model) {
    m != NO_MODEL && m in c.models && Live(c.models[m].until, now)
  }

  predicate HealthyForModel(e: Entry, now: Time, m: Model) {
    Healthy(e, now) && !ModelCooled(e.cooling, now, m)
  }

  predicate FreshCost(c: ModelCost, now: Time) {
    c.lastSeen != NO_TIME && now - c.lastSeen <= COST_TTL
  }

  // ------------------------------------------------------------ health on the fields

  /** The deadline is not set, or has been reached. */
  predicate Over(deadline: Time, now: Time) {
    deadline == 0 || deadline <= now
  }

  predicate SwitchedOn(e: Entry) {
    !e.disabled && !e.manualDisabled
  }

  /** No limit of the model is in force. */
  predicate ModelOver(models: map<Model, ModelCooldown>, now: Time, m: Model) {
    m != "" && m in models ==> Over(models[m].until, now)
  }

  /** Switched on, and no deadline of the account or of the model in force. */
  predicate Fit(e: Entry, now: Time, m: Model) {
    && SwitchedOn(e)
    && Over(e.cooling.until, now) && Over(e.breaker.until, now) && Over(e.degraded.until, now)
    && ModelOver(e.cooling.models, now, m)
  }

  function CostOf(costs: Ledger, m: Model, now: Time): Option<ModelCost> {
    if m != NO_MODEL && m in costs && FreshCost(costs[m], now) then Some(costs[m]) else None
  }

  /** The earlier of two deadlines, where NO_TIME means none. */
  function Earlier(a: Time, b: Time): Time {
    if a == NO_TIME || (b != NO_TIME && b < a) then b else a
  }

  function IfLive(deadline: Time, now: Time): Time {
    if Live(deadline, now) then deadline else NO_TIME
  }

  /** The nearest deadline still in force, or NO_TIME. */
  function Expiry(e: Entry, now: Time): Time {
    Earlier(Earlier(IfLive(e.cooling.until, now), IfLive(e.breaker.until, now)), IfLive(e.degraded.until, now))
  }

  /** Out of credits until the next check-in. */
  predicate LiveHard(e: Entry, now: Time) {
    e.cooling.kind == CoolHard && Live(e.cooling.until, now)
  }

  // ------------------------------------------------------------ pruning

  function LiveModels(models: map<Model, ModelCooldown>, now: Time): map<Model, ModelCooldown> {
    map m | m in models && Live(models[m].until, now) :: models[m]
  }

  function FreshCosts(costs: Ledger, now: Time): Ledger {
    map m | m in costs && FreshCost(costs[m], now) :: costs[m]
  }

  /** What pick deletes first: model cooldowns and cost observations that have expired. */
  function Prune(e: Entry, now: Time): Entry {
    e.(cooling := e.cooling.(models := LiveModels(e.cooling.models, now)), costs := FreshCosts(e.costs, now))
  }

  /** Pruning is invisible from then on. */
  lemma PruneIsInvisible(e: Entry, now: Time, t: Time, m: Model)
    requires now <= t
    ensures HealthyForModel(Prune(e, now), t, m) == HealthyForModel(e, t, m)
    ensures CostOf(Prune(e, now).costs, m, t) == CostOf(e.costs, m, t)
    ensures Expiry(Prune(e, now), t) == Expiry(e, t) && LiveHard(Prune(e, now), t) == LiveHard(e, t)
  {
  }

  /** An account that is neither disabled nor paused is healthy exactly when no deadline is
      in force, and the one reported is the nearest of them. */
  lemma ExpiryIsNearest(e: Entry, now: Time)
    requires !e.disabled && !e.manualDisabled
    ensures Healthy(e, now) <==> Expiry(e, now) == NO_TIME
    ensures Expiry(e, now) != NO_TIME ==>
              && Live(Expiry(e, now), now)
              && forall d :: d in {e.cooling.until, e.breaker.until, e.degraded.until} && Live(d, now) ==> Expiry(e, now) <= d
  {
  }
}
