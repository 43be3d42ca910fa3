/**
 The transitions of an account's state machine (internal/pool/transition.go, cooldown.go,
 degrade.go and state.go). Durations are nanoseconds in a 64-bit signed integer.
 */
module PoolTransition {
  import opened PoolEntry

  const SESSION_DEAD_THRESHOLD := 3
  const SOFT_SHIFT_MAX := 16
  const DEFAULT_SOFT_MAX := 2 * NANOS_PER_HOUR
  const DEFAULT_DEGRADE := 600_000_000_000
  const DEFAULT_DEGRADE_MAX := 2 * NANOS_PER_HOUR
  const MILLISECOND := 1_000_000
  const BLOCK_TTL := 6 * NANOS_PER_HOUR
  const BLOCK_TTL_MAX := 24 * NANOS_PER_HOUR
  const BLOCK_SHIFT_MAX := 6

  datatype Config = Config(
    breakerThreshold: int, breakerCooldown: int, breakerCooldownMax: int, softRateMax: int,
    degradeThreshold: int, degradeCooldown: int, degradeCooldownMax: int)

  const WORD := 0x1_0000_0000_0000_0000
  const HALF := 0x8000_0000_0000_0000

  /** Reduction to a signed 64-bit integer. */
  function Wrap(n: int): (r: int)
    ensures -HALF <= r < HALF
  {
    var low := n % WORD;
    if low < HALF then low else low - WORD
  }

  function Pow2(n: nat): (r: nat)
    ensures r > 0
  {
    if n == 0 then 1 else 2 * Pow2(n - 1)
  }

  function Min(a: int, b: int): int {
    if a < b then a else b
  }

  // ------------------------------------------------------------ durations

  /** The breaker's loop: double up to `n` times, stopping at the cap. */
  function Doubled(d: int, cap: int, n: nat): int
    decreases n
  {
    if n == 0 then d
    else if Wrap(2 * d) >= cap then cap
    else Doubled(Wrap(2 * d), cap, n - 1)
  }

  function SoftMax(c: Config): int {
    if c.softRateMax > 0 then c.softRateMax else DEFAULT_SOFT_MAX
  }

  function SoftDuration(c: Config, d: int, streak: nat): int {
    if streak <= 1 then d
    else
      var shifted := Wrap(d * Pow2(Min(streak - 1, SOFT_SHIFT_MAX)));
      if shifted > SoftMax(c) || shifted <= 0 then SoftMax(c) else shifted
  }

  /** A reset time from upstream, cut to the cap; a past one ends at once. */
  function CappedSoftUntil(c: Config, now: Time, resetAt: Time): Time {
    if resetAt > now + SoftMax(c) then now + SoftMax(c)
    else if resetAt > now then resetAt
    else now + MILLISECOND
  }

  function DegradeDuration(c: Config): int {
    var d := if c.degradeCooldown <= 0 then DEFAULT_DEGRADE else c.degradeCooldown;
    var max := if c.degradeCooldownMax <= 0 then DEFAULT_DEGRADE_MAX else c.degradeCooldownMax;
    Min(d, max)
  }

  /** How long a model stays blocked that the upstream did not have for the `hits`-th time. */
  function BlockDuration(hits: nat): int
    requires hits > 0
  {
    Min(BLOCK_TTL * Pow2(Min(hits - 1, BLOCK_SHIFT_MAX)), BLOCK_TTL_MAX)
  }

  // ------------------------------------------------------------ events

  datatype Event =
    | SetCredits(total: int)
    | SetCreditsDetailed(credits: int, expiring: int)
    | Cooldown(kind: CoolKind, d: int)
    | SoftForModel(base: int, resetAt: Time, model: Model)
    | SoftRate(base: int, resetAt: Time)
    | BlockModel(blocked: Model)
    | ClearBlock(cleared: Model)
    | Disable
    | SessionDead
    | ClearSessionDead
    | Revive
    | SetManual(paused: bool)
    | Reenable(remain: int)
    | NoteError
    | NoteSuccess
    | NoteFailures
    | NoteCost(costModel: Model, credit: real, tokens: int)
    | Pruned
    | Picked(sequence: nat)

  const NOT_COOLING := Cooling(CoolHard, NO_TIME, 0, map[])

  /** A soft cooldown without a reset time: a new one backs off, a probe inside one does not. */
  function SoftBackoff(c: Config, k: Cooling, base: int, now: Time): Cooling {
    if k.kind == CoolSoft && Live(k.until, now) then k.(models := map[])
    else Cooling(CoolSoft, now + SoftDuration(c, base, k.streak + 1), k.streak + 1, map[])
  }

  function Hits(models: map<Model, ModelCooldown>, m: Model): nat {
    if m in models then models[m].hits else 0
  }

  /** The upstream does not have the model: it is blocked for longer each time. */
  function Block(models: map<Model, ModelCooldown>, m: Model, now: Time): map<Model, ModelCooldown> {
    var hits := Hits(models, m) + 1;
    models[m := ModelCooldown(now + BlockDuration(hits), NO_TIME, true, hits)]
  }

  /** The upstream has the model after all; limits of other kinds stay. */
  function Unblock(models: map<Model, ModelCooldown>, m: Model): map<Model, ModelCooldown> {
    if m in models && models[m].blocked then models - {m} else models
  }

  /** An error: the breaker trips at the threshold, for longer each time. */
  function Fail(c: Config, b: Breaker, now: Time): Breaker {
    if b.fails + 1 < c.breakerThreshold then b.(fails := b.fails + 1)
    else Breaker(now + Doubled(c.breakerCooldown, c.breakerCooldownMax, b.retries), 0, b.retries + 1)
  }

  /** A failure of unknown cause: a few in a row take the account out for a fixed time. */
  function Degrade(c: Config, d: Degraded, now: Time): Degraded {
    if d.fails + 1 < c.degradeThreshold then d.(fails := d.fails + 1)
    else if Live(d.until, now) then d.(fails := 0)
    else Degraded(now + DegradeDuration(c), 0)
  }

  function Truncate(x: real): int {
    if x >= 0.0 then x.Floor else -((-x).Floor)
  }

  /** The balance after a charge: never taken below zero, expiring credit along with it. */
  function Charge(b: Balance, credit: real): Balance {
    if credit <= 0.0 then b
    else
      var d := Min(Truncate(credit + 0.5), b.credits);
      Balance(b.credits - d, if b.expiring > 0 then b.expiring - Min(d, b.expiring) else b.expiring)
  }

  /** An observed price per thousand tokens, smoothed into the ledger. */
  function Observe(costs: Ledger, m: Model, per1k: real, now: Time): Ledger {
    costs[m := if m in costs then ModelCost(costs[m].per1k * 0.7 + per1k * 0.3, now, costs[m].samples + 1)
               else ModelCost(per1k, now, 1)]
  }

  function PricePer1k(credit: real, tokens: int): real
    requires tokens > 0
  {
    var p := credit / tokens as real * 1000.0;
    if p < 0.0 then 0.0 else p
  }

  function StepBalance(b: Balance, ev: Event): Balance {
    match ev
    case SetCredits(total) => b.(credits := total)
    case SetCreditsDetailed(credits, expiring) => Balance(credits, Min(if expiring < 0 then 0 else expiring, credits))
    case Reenable(remain) => b.(credits := remain)
    case NoteCost(m, credit, tokens) => if m == NO_MODEL || tokens <= 0 then b else Charge(b, credit)
    case _ => b
  }

  /** `disabled` and `strikes` are those of the account before the event. */
  function StepCooling(c: Config, k: Cooling, disabled: bool, strikes: nat, ev: Event, now: Time): Cooling {
    match ev
    case Cooldown(kind, d) => k.(until := now + d, kind := kind, models := map[])
    case SoftForModel(base, resetAt, m) =>
      if resetAt == NO_TIME then SoftBackoff(c, k, base, now)
      else k.(models := k.models[m := ModelCooldown(CappedSoftUntil(c, now, resetAt), resetAt, false, 0)])
    case SoftRate(base, resetAt) =>
      if resetAt == NO_TIME then SoftBackoff(c, k, base, now)
      else Cooling(CoolSoft, CappedSoftUntil(c, now, resetAt), k.streak, map[])
    case BlockModel(m) => if m == NO_MODEL then k else k.(models := Block(k.models, m, now))
    case ClearBlock(m) => if m == NO_MODEL then k else k.(models := Unblock(k.models, m))
    case Disable => NOT_COOLING
    case SessionDead => if strikes + 1 < SESSION_DEAD_THRESHOLD then k else NOT_COOLING
    case Reenable(remain) => if remain > 0 && !disabled then NOT_COOLING else k
    case NoteSuccess => k.(streak := 0)
    case Pruned => k.(models := LiveModels(k.models, now))
    case _ => k
  }

  function StepBreaker(c: Config, b: Breaker, ev: Event, now: Time): Breaker {
    match ev
    case NoteError => Fail(c, b, now)
    case NoteSuccess => Breaker(NO_TIME, 0, 0)
    case _ => b
  }

  function StepDegraded(c: Config, d: Degraded, ev: Event, now: Time): Degraded {
    match ev
    case NoteFailures => Degrade(c, d, now)
    case NoteSuccess => Degraded(NO_TIME, 0)
    case _ => d
  }

  function StepCosts(costs: Ledger, ev: Event, now: Time): Ledger {
    match ev
    case NoteCost(m, credit, tokens) =>
      if m == NO_MODEL || tokens <= 0 then costs else Observe(costs, m, PricePer1k(credit, tokens), now)
    case Pruned => FreshCosts(costs, now)
    case _ => costs
  }

  /** Consecutive session-dead answers; the third one disables the account. */
  function StepStrikes(strikes: nat, disabled: bool, ev: Event): nat {
    match ev
    case SessionDead => if strikes + 1 < SESSION_DEAD_THRESHOLD then strikes + 1 else 0
    case ClearSessionDead => 0
    case Revive => if disabled then 0 else strikes
    case NoteSuccess => 0
    case _ => strikes
  }

  predicate StepDisabled(disabled: bool, strikes: nat, ev: Event) {
    match ev
    case Disable => true
    case SessionDead => disabled || strikes + 1 >= SESSION_DEAD_THRESHOLD
    case Revive => false
    case _ => disabled
  }

  /** Every dimension moves by itself; only the cooling one looks at another. */
  function Step(c: Config, e: Entry, ev: Event, now: Time): Entry {
    Entry(
      e.realm, StepBalance(e.balance, ev),
      StepDisabled(e.disabled, e.sessionDeadFails, ev),
      if ev.SetManual? then ev.paused else e.manualDisabled,
      StepStrikes(e.sessionDeadFails, e.disabled, ev),
      StepCooling(c, e.cooling, e.disabled, e.sessionDeadFails, ev, now),
      StepBreaker(c, e.breaker, ev, now), StepDegraded(c, e.degraded, ev, now), StepCosts(e.costs, ev, now),
      if ev.Picked? then Use(now, ev.sequence) else e.use, e.inFlight)
  }

  /** An event and the time at which it happens. */
  datatype Timed = Timed(event: Event, at: Time)

  function Run(c: Config, e: Entry, events: seq<Timed>): Entry
    decreases |events|
  {
    if events == [] then e else Run(c, Step(c, e, events[0].event, events[0].at), events[1..])
  }

  predicate Ordered(events: seq<Timed>) {
    forall i, j :: 0 <= i < j < |events| ==> events[i].at <= events[j].at
  }
}
