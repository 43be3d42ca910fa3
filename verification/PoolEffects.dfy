/**
 What each event does to the health of an account, to its balance and to its prices, told by the
 fields and over whole runs (internal/pool/cooldown.go, degrade.go, state.go and transition.go).
 */
module PoolEffects {
  import opened PoolEntry
  import opened PoolTransition
  import opened PoolBackoff

  /** Neither the breaker nor a degradation is in force. */
  predicate Apart(e: Entry, t: Time) {
    SwitchedOn(e) && Over(e.breaker.until, t) && Over(e.degraded.until, t)
  }

  /** From `at` on the account is out for every model until the deadline, and from then on nothing
      of its cooldown or of the limits of its models is left. */
  ghost predicate OutUntil(e: Entry, r: Entry, deadline: Time) {
    forall t, m :: Fit(r, t, m) <==> Apart(e, t) && Over(deadline, t)
  }

  /** Only the model is out until the deadline; for the others nothing changes. */
  ghost predicate ModelOutUntil(e: Entry, r: Entry, model: Model, deadline: Time) {
    forall t, m :: Fit(r, t, m) <==> if m == model && m != "" then Fit(e, t, "") && Over(deadline, t) else Fit(e, t, m)
  }

  function Cap(c: Config): int {
    if c.softRateMax > 0 then c.softRateMax else 2 * 3_600_000_000_000
  }

  // ------------------------------------------------------------ rate limits without a reset time

  /** A rate limit for which upstream gives no reset time. */
  predicate IsLimit(ev: Event) {
    (ev.SoftRate? || ev.SoftForModel?) && ev.resetAt == 0
  }

  predicate InSoft(e: Entry, at: Time) {
    e.cooling.kind == CoolSoft && !Over(e.cooling.until, at)
  }

  /** The event ends the series of limits. */
  predicate EndsSeries(e: Entry, ev: Event) {
    || ev.NoteSuccess? || ev.Disable?
    || (ev.SessionDead? && e.sessionDeadFails >= 2)
    || (ev.Reenable? && ev.remain > 0 && !e.disabled)
  }

  /** How many limits of the current series have come outside of a soft cooldown. */
  function Series(c: Config, e: Entry, events: seq<Timed>): nat {
    if events == [] then e.cooling.streak
    else
      var n := |events| - 1;
      var before, k, ev := Run(c, e, events[..n]), Series(c, e, events[..n]), events[n].event;
      if EndsSeries(before, ev) then 0
      else if IsLimit(ev) && !InSoft(before, events[n].at) then k + 1
      else k
  }

  lemma {:induction false} StreakIsSeries(c: Config, e: Entry, events: seq<Timed>)
    ensures Run(c, e, events).cooling.streak == Series(c, e, events)
  {
    if events != [] {
      var n := |events| - 1;
      StreakIsSeries(c, e, events[..n]);
      RunSnoc(c, e, events);
    }
  }

  lemma LimitStep(c: Config, e: Entry, ev: Event, at: Time)
    requires IsLimit(ev) && !InSoft(e, at) && ev.base > 0 && Cap(c) < HALF
    ensures var r, k := Step(c, e, ev, at), e.cooling.streak + 1;
            && OutUntil(e, r, r.cooling.until) && r.cooling.kind == CoolSoft
            && (k == 1 ==> r.cooling.until == at + ev.base)
            && (k >= 2 ==>
                  var full := ev.base * Pow2(Min(k - 1, 16));
                  r.cooling.until == at + Min(full, Cap(c)) <==> !(full >= HALF && 0 < Wrap(full) < Cap(c)))
  {
    if e.cooling.streak >= 1 {
      SoftLength(c, ev.base, e.cooling.streak + 1);
    }
  }

  /** The k-th limit of a series that comes outside of a soft cooldown takes the account out for
      `base` if it is the first, and else for min(base * 2^min(k - 1, 16), cap), exactly if the
      shift does not wrap around to a positive length below the cap. Afterwards nothing is left
      of it, nor of any earlier limit. */
  lemma LimitEnds(c: Config, e: Entry, events: seq<Timed>)
    requires events != [] && Cap(c) < HALF
    requires var n := |events| - 1;
             IsLimit(events[n].event) && !InSoft(Run(c, e, events[..n]), events[n].at) && events[n].event.base > 0
    ensures var n := |events| - 1;
            var r, k, base, at := Run(c, e, events), Series(c, e, events), events[n].event.base, events[n].at;
            && k >= 1 && OutUntil(Run(c, e, events[..n]), r, r.cooling.until)
            && (k == 1 ==> r.cooling.until == at + base)
            && (k >= 2 ==>
                  var full := base * Pow2(Min(k - 1, 16));
                  r.cooling.until == at + Min(full, Cap(c)) <==> !(full >= HALF && 0 < Wrap(full) < Cap(c)))
  {
    var n := |events| - 1;
    RunSnoc(c, e, events);
    StreakIsSeries(c, e, events[..n]);
    LimitStep(c, Run(c, e, events[..n]), events[n].event, events[n].at);
  }

  lemma {:induction false} PowMonotone(a: nat, b: nat)
    requires a <= b
    ensures Pow2(a) <= Pow2(b)
    decreases b
  {
    if a < b {
      PowMonotone(a, b - 1);
    }
  }

  lemma Grows(base: int, a: nat, b: nat)
    requires base > 0 && a <= b
    ensures base * Pow2(a) <= base * Pow2(b)
  {
    PowMonotone(a, b);
    assert base * (Pow2(b) - Pow2(a)) >= 0;
  }

  /** Within such bounds neither the bound on the shift nor the width of the integers matters. */
  lemma ShiftIsExact(base: int, cap: int, k: nat)
    requires 0 < base <= cap <= base * Pow2(16) < HALF
    ensures var full := base * Pow2(Min(k, 16));
            full < HALF && Min(full, cap) == Min(base * Pow2(k), cap)
    ensures Min(base * Pow2(0), cap) == base
  {
    Grows(base, Min(k, 16), 16);
    Grows(base, Min(k, 16), k);
    assert Pow2(0) == 1;
  }

  /** The documented length min(base * 2^(k - 1), cap) holds for a base within the cap whose
      sixteenth doubling reaches the cap without leaving 64 bits, from a fresh account on. */
  lemma DocumentedLimit(c: Config, e: Entry, events: seq<Timed>)
    requires events != [] && e.cooling.streak == 0
    requires var n := |events| - 1;
             && IsLimit(events[n].event) && !InSoft(Run(c, e, events[..n]), events[n].at)
             && 0 < events[n].event.base <= Cap(c) <= events[n].event.base * Pow2(16) < HALF
    ensures var n := |events| - 1;
            Series(c, e, events) >= 1
            && Run(c, e, events).cooling.until ==
                 events[n].at + Min(events[n].event.base * Pow2(Series(c, e, events) - 1), Cap(c))
  {
    var n := |events| - 1;
    LimitEnds(c, e, events);
    ShiftIsExact(events[n].event.base, Cap(c), Series(c, e, events) - 1);
  }

  /** Within a soft cooldown such a limit changes neither its end nor the series, but it ends the
      limits of single models. */
  lemma LimitInside(c: Config, e: Entry, ev: Event, at: Time)
    requires IsLimit(ev) && InSoft(e, at)
    ensures var r := Step(c, e, ev, at);
            r.cooling.until == e.cooling.until && r.cooling.streak == e.cooling.streak && OutUntil(e, r, e.cooling.until)
  {
  }

  // ------------------------------------------------------------ deadlines that are given

  /** The reset time, but not beyond the cap; one millisecond if it is past. */
  function ResetEnd(c: Config, resetAt: Time, at: Time): Time {
    if resetAt <= at then at + 1_000_000 else if resetAt < at + Cap(c) then resetAt else at + Cap(c)
  }

  /** With a reset time the account is out until then, whatever series there is. */
  lemma ResetEnds(c: Config, e: Entry, base: int, resetAt: Time, at: Time)
    requires resetAt != 0
    ensures var r := Step(c, e, SoftRate(base, resetAt), at);
            OutUntil(e, r, ResetEnd(c, resetAt, at)) && r.cooling.streak == e.cooling.streak && r.cooling.kind == CoolSoft
  {
  }

  /** A limit of one model with a reset time concerns that model alone. */
  lemma ModelResetEnds(c: Config, e: Entry, base: int, resetAt: Time, model: Model, at: Time)
    requires resetAt != 0
    ensures ModelOutUntil(e, Step(c, e, SoftForModel(base, resetAt, model), at), model, ResetEnd(c, resetAt, at))
  {
  }

  /** A cooldown of a fixed length. */
  lemma CooldownEnds(c: Config, e: Entry, kind: CoolKind, d: int, at: Time)
    ensures var r := Step(c, e, Cooldown(kind, d), at); OutUntil(e, r, at + d) && r.cooling.kind == kind
  {
  }

  /** A model that the upstream does not have is out for min(6 h * 2^(hits - 1), 24 h). */
  lemma BlockEnds(c: Config, e: Entry, model: Model, at: Time)
    requires model != ""
    ensures var hits := if model in e.cooling.models then e.cooling.models[model].hits + 1 else 1;
            var r := Step(c, e, BlockModel(model), at);
            && ModelOutUntil(e, r, model, at + Min(6 * 3_600_000_000_000 * Pow2(hits - 1), 24 * 3_600_000_000_000))
            && model in r.cooling.models && r.cooling.models[model].hits == hits && r.cooling.models[model].blocked
  {
    BlockLength((if model in e.cooling.models then e.cooling.models[model].hits else 0) + 1);
  }

  /** When it turns out to have the model after all, a block ends, and only that. */
  lemma ClearEnds(c: Config, e: Entry, model: Model, at: Time)
    requires model != ""
    ensures var r := Step(c, e, ClearBlock(model), at);
            if model in e.cooling.models && e.cooling.models[model].blocked then ModelOutUntil(e, r, model, 0) else r == e
  {
  }

  // ------------------------------------------------------------ failures

  function Failures(events: seq<Timed>): nat {
    if events == [] then 0 else Failures(events[..|events| - 1]) + if events[|events| - 1].event.NoteFailures? then 1 else 0
  }

  function DegradeLength(c: Config): int {
    var d := if c.degradeCooldown > 0 then c.degradeCooldown else 600_000_000_000;
    var max := if c.degradeCooldownMax > 0 then c.degradeCooldownMax else 2 * 3_600_000_000_000;
    if d < max then d else max
  }

  /** Without a success, n failures of unknown cause leave n mod threshold of them counted. */
  lemma {:induction false} FailuresAddUp(c: Config, e: Entry, events: seq<Timed>)
    requires c.degradeThreshold > 0 && e.degraded.fails == 0 && NoSuccess(events)
    ensures Run(c, e, events).degraded.fails == Failures(events) % c.degradeThreshold
  {
    if events != [] {
      var n := |events| - 1;
      FailuresAddUp(c, e, events[..n]);
      RunSnoc(c, e, events);
      NextRemainder(Failures(events[..n]), c.degradeThreshold);
    }
  }

  lemma NextRemainder(a: nat, t: nat)
    requires t > 0
    ensures (a + 1) % t == if a % t + 1 < t then a % t + 1 else 0
  {
    var q := a / t;
    assert a == q * t + a % t;
    if a % t + 1 < t {
      DivMod(t, q, a % t + 1);
    } else {
      assert a + 1 == (q + 1) * t;
      DivMod(t, q + 1, 0);
    }
  }

  /** The failure that completes a group of `threshold` takes the account out for the configured
      length, within its bounds, unless a degradation is in force; the others change nothing. */
  lemma FailureEnds(c: Config, e: Entry, events: seq<Timed>)
    requires c.degradeThreshold > 0 && e.degraded.fails == 0 && NoSuccess(events)
    requires events != [] && events[|events| - 1].event.NoteFailures?
    ensures var n := |events| - 1;
            var before, r, at := Run(c, e, events[..n]), Run(c, e, events), events[n].at;
            r.degraded.until ==
              if Failures(events) % c.degradeThreshold == 0 && Over(before.degraded.until, at) then at + DegradeLength(c)
              else before.degraded.until
  {
    var n := |events| - 1;
    FailuresAddUp(c, e, events[..n]);
    FailuresAddUp(c, e, events);
    RunSnoc(c, e, events);
    NextRemainder(Failures(events[..n]), c.degradeThreshold);
  }

  /** While the breaker is open the account is out for every model; an error changes nothing else. */
  lemma ErrorEffect(c: Config, e: Entry, at: Time, t: Time, m: Model)
    ensures Fit(Step(c, e, NoteError, at), t, m) <==>
              Fit(e.(breaker := Breaker(0, 0, 0)), t, m) && Over(Fail(c, e.breaker, at).until, t)
    ensures Fit(Step(c, e, NoteFailures, at), t, m) <==>
              Fit(e.(degraded := Degraded(0, 0)), t, m) && Over(Degrade(c, e.degraded, at).until, t)
  {
  }

  /** A success ends the breaker, a degradation and the count of dead sessions; cooldowns and limits of
      models stay until they end. */
  lemma SuccessEffect(c: Config, e: Entry, at: Time, t: Time, m: Model)
    ensures var r := Step(c, e, NoteSuccess, at);
            && (Fit(r, t, m) <==> SwitchedOn(e) && Over(e.cooling.until, t) && ModelOver(e.cooling.models, t, m))
            && r.breaker == Breaker(0, 0, 0) && r.degraded == Degraded(0, 0) && r.sessionDeadFails == 0 && r.cooling.streak == 0
  {
  }

  // ------------------------------------------------------------ switching on and off

  lemma SwitchEffect(c: Config, e: Entry, at: Time, t: Time, m: Model)
    ensures !Fit(Step(c, e, Disable, at), t, m) && Step(c, e, Disable, at).cooling == Cooling(CoolHard, 0, 0, map[])
    ensures Step(c, e, Revive, at) == e.(disabled := false, sessionDeadFails := if e.disabled then 0 else e.sessionDeadFails)
    ensures Step(c, e, SetManual(true), at) == e.(manualDisabled := true)
    ensures Step(c, e, SetManual(false), at) == e.(manualDisabled := false)
    ensures Step(c, e, ClearSessionDead, at) == e.(sessionDeadFails := 0)
    ensures Step(c, e, SessionDead, at) ==
              if e.sessionDeadFails < 2 then e.(sessionDeadFails := e.sessionDeadFails + 1)
              else e.(sessionDeadFails := 0, disabled := true, cooling := Cooling(CoolHard, 0, 0, map[]))
  {
  }

  /** A check-in sets the balance; with credit it ends the cooldown and the limits of models of an
      account that is not disabled, and leaves breaker and degradation. */
  lemma CheckInEffect(c: Config, e: Entry, remain: int, at: Time)
    ensures var r := Step(c, e, Reenable(remain), at);
            && r.balance == Balance(remain, e.balance.expiring)
            && (remain > 0 && !e.disabled ==> OutUntil(e, r, 0) && r.cooling.streak == 0)
            && (remain <= 0 || e.disabled ==> r.cooling == e.cooling)
            && r.breaker == e.breaker && r.degraded == e.degraded && r.disabled == e.disabled && r.manualDisabled == e.manualDisabled
  {
  }

  /** What a pick deletes of an account: the limits of models that are over and the prices that
      were last seen more than six hours ago. Everything else stays. */
  lemma PruneEffect(c: Config, e: Entry, at: Time, m: Model)
    ensures var r := Step(c, e, Pruned, at);
            && r == Prune(e, at) == e.(cooling := e.cooling.(models := r.cooling.models), costs := r.costs)
            && (m in r.cooling.models <==> m in e.cooling.models && !Over(e.cooling.models[m].until, at))
            && (m in r.cooling.models ==> r.cooling.models[m] == e.cooling.models[m])
            && (m in r.costs <==> m in e.costs && e.costs[m].lastSeen != 0 && at - e.costs[m].lastSeen <= 6 * 3_600_000_000_000)
            && (m in r.costs ==> r.costs[m] == e.costs[m])
  {
  }

  /** A selection moves the use of an account and nothing else; no other event moves the use, and
      none the realm or the requests in flight. */
  lemma UseEffect(c: Config, e: Entry, ev: Event, at: Time)
    ensures ev.Picked? ==> Step(c, e, ev, at) == e.(use := Use(at, ev.sequence))
    ensures !ev.Picked? ==> Step(c, e, ev, at).use == e.use
    ensures Step(c, e, ev, at).realm == e.realm && Step(c, e, ev, at).inFlight == e.inFlight
  {
  }

  // ------------------------------------------------------------ balance and prices

  /** A charge as it is rounded. */
  function Rounded(credit: real): nat {
    if credit <= 0.0 then 0 else (credit + 0.5).Floor
  }

  function Charged(events: seq<Timed>): nat {
    if events == [] then 0
    else
      var ev := events[0].event;
      (if ev.NoteCost? && ev.costModel != "" && ev.tokens > 0 then Rounded(ev.credit) else 0) + Charged(events[1..])
  }

  function Less0(n: int, d: int): int {
    if d < n then n - d else 0
  }

  /** The event leaves the balance alone, or only charges it. */
  predicate OnlyCharges(ev: Event) {
    !ev.SetCredits? && !ev.SetCreditsDetailed? && !ev.Reenable?
  }

  lemma ChargeOnce(b: Balance, credit: real)
    requires 0 <= b.expiring <= b.credits
    ensures Charge(b, credit) == Balance(Less0(b.credits, Rounded(credit)), Less0(b.expiring, Rounded(credit)))
  {
  }

  /** However the requests are spread over a run, the balance pays the sum of the rounded charges,
      down to zero, and so does its expiring part. */
  lemma {:induction false} ChargesAddUp(c: Config, e: Entry, events: seq<Timed>)
    requires 0 <= e.balance.expiring <= e.balance.credits
    requires forall i :: 0 <= i < |events| ==> OnlyCharges(events[i].event)
    ensures Run(c, e, events).balance ==
              Balance(Less0(e.balance.credits, Charged(events)), Less0(e.balance.expiring, Charged(events)))
    decreases |events|
  {
    if events != [] {
      if events[0].event.NoteCost? {
        ChargeOnce(e.balance, events[0].event.credit);
      }
      ChargesAddUp(c, Step(c, e, events[0].event, events[0].at), events[1..]);
    }
  }

  /** A total that is set with its expiring part keeps the part within it. */
  lemma SetEffect(c: Config, e: Entry, credits: int, expiring: int, at: Time)
    ensures Step(c, e, SetCredits(credits), at) == e.(balance := Balance(credits, e.balance.expiring))
    ensures var b := Step(c, e, SetCreditsDetailed(credits, expiring), at).balance;
            b.credits == credits && (0 <= expiring <= credits ==> b.expiring == expiring)
            && (expiring > credits >= 0 ==> b.expiring == credits) && (expiring < 0 <= credits ==> b.expiring == 0)
  {
  }

  /** Seven tenths of it, `n` times over. */
  function Shrunk(d: real, n: nat): real
    decreases n
  {
    if n == 0 then d else Shrunk(d * 0.7, n - 1)
  }

  /** The run reports the price `p` of the model every time, and nothing else about it. */
  predicate Reports(events: seq<Timed>, model: Model, p: real) {
    forall i :: 0 <= i < |events| ==>
      var ev := events[i].event;
      ev.NoteCost? && ev.costModel == model && ev.tokens > 0 && ev.credit == p * ev.tokens as real / 1000.0
  }

  lemma PriceOf(p: real, tokens: int)
    requires tokens > 0 && p >= 0.0
    ensures PricePer1k(p * tokens as real / 1000.0, tokens) == p
  {
    var n := tokens as real;
    assert p * n / 1000.0 / n * 1000.0 == p;
  }

  /** One report takes the distance to seven tenths of what it was. */
  lemma PriceStep(c: Config, e: Entry, t: Timed, model: Model, p: real)
    requires model != "" && p >= 0.0 && model in e.costs && Reports([t], model, p)
    ensures var costs := Step(c, e, t.event, t.at).costs;
            && model in costs && costs[model] == ModelCost(e.costs[model].per1k * 0.7 + p * 0.3, t.at, e.costs[model].samples + 1)
  {
    assert [t][0] == t;
    PriceOf(p, t.event.tokens);
  }

  lemma ReportsSplit(events: seq<Timed>, model: Model, p: real)
    requires events != [] && Reports(events, model, p)
    ensures Reports([events[0]], model, p) && Reports(events[1..], model, p)
  {
  }

  /** Reported again and again, a price is approached: each report takes the distance to seven
      tenths of what it was. */
  lemma {:induction false} PriceConverges(c: Config, e: Entry, events: seq<Timed>, model: Model, p: real)
    requires model != "" && p >= 0.0 && model in e.costs && Reports(events, model, p)
    ensures var costs := Run(c, e, events).costs;
            && model in costs
            && costs[model].per1k - p == Shrunk(e.costs[model].per1k - p, |events|)
            && costs[model].samples == e.costs[model].samples + |events|
            && costs[model].lastSeen == if events == [] then e.costs[model].lastSeen else events[|events| - 1].at
    decreases |events|
  {
    if events != [] {
      var e' := Step(c, e, events[0].event, events[0].at);
      ReportsSplit(events, model, p);
      PriceStep(c, e, events[0], model, p);
      PriceConverges(c, e', events[1..], model, p);
    }
  }

  /** The first price of a model is taken as it is, and other models keep theirs. */
  lemma FirstPrice(c: Config, e: Entry, model: Model, p: real, tokens: int, at: Time, other: Model)
    requires model != "" && p >= 0.0 && tokens > 0
    ensures var costs := Step(c, e, NoteCost(model, p * tokens as real / 1000.0, tokens), at).costs;
            && (model !in e.costs ==> model in costs && costs[model] == ModelCost(p, at, 1))
            && (other != model ==> (other in costs <==> other in e.costs) && (other in costs ==> costs[other] == e.costs[other]))
  {
    PriceOf(p, tokens);
  }
}
