/** The backoffs of internal/pool/cooldown.go over whole runs. */
module PoolBackoff {
  import opened PoolEntry
  import opened PoolTransition

  // ------------------------------------------------------------ closed forms

  lemma WrapFits(n: int)
    requires -HALF <= n < HALF
    ensures Wrap(n) == n
  {
  }

  lemma WrapOver(n: int)
    requires HALF <= n < WORD
    ensures Wrap(n) == n - WORD
  {
  }

  /** The first doubling that reaches the cap stays within 64 bits. */
  predicate NoOverflow(d: int, cap: int)
    requires d > 0
    decreases HALF - d
  {
    2 * d < HALF && (2 * d >= cap || NoOverflow(2 * d, cap))
  }

  /** The length the documentation promises for the r-th trip. */
  function Promised(base: int, cap: int, r: nat): int {
    if r == 0 then base else Min(base * Pow2(r), cap)
  }

  lemma {:induction false} DoublingFits(d: int, cap: int, r: nat)
    requires d > 0 && NoOverflow(d, cap)
    ensures Doubled(d, cap, r) == Promised(d, cap, r)
    decreases r
  {
    if r > 0 {
      WrapFits(2 * d);
      PowGrows(d, r);
      if 2 * d < cap {
        DoublingFits(2 * d, cap, r - 1);
      }
    }
  }

  lemma PowGrows(d: int, r: nat)
    requires d > 0 && r > 0
    ensures d * Pow2(r) == (2 * d) * Pow2(r - 1) >= 2 * d
  {
    var p := Pow2(r - 1);
    Times(d, p);
    assert Pow2(r) == 2 * p;
    assert d * (2 * p) == (2 * d) * p == 2 * (d * p);
  }

  lemma {:induction false} Times(d: int, p: int)
    requires d > 0 && p > 0
    ensures d * p >= d
    decreases p
  {
    if p > 1 {
      Times(d, p - 1);
      assert d * p == d * (p - 1) + d;
    }
  }

  /** The trip at which an overflow shows. */
  lemma {:induction false} DoublingOverflows(d: int, cap: int) returns (r: nat)
    requires 0 < d < HALF && 0 < cap && d <= cap && !NoOverflow(d, cap)
    ensures Doubled(d, cap, r) != Promised(d, cap, r)
    decreases HALF - d
  {
    if 2 * d >= HALF {
      r := 1;
      WrapOver(2 * d);
      PowGrows(d, 1);
      assert Doubled(d, cap, 1) == Doubled(2 * d - WORD, cap, 0);
    } else {
      WrapFits(2 * d);
      r := DoublingOverflows(2 * d, cap);
      PowGrows(d, r + 1);
      r := r + 1;
    }
  }

  /** For a base within the cap, every trip of the breaker has the promised length
      min(base * 2^r, cap) exactly when the first doubling that reaches the cap does not
      overflow. */
  lemma BreakerLength(base: int, cap: int)
    requires 0 < base <= cap < HALF
    ensures (forall r: nat :: Doubled(base, cap, r) == Promised(base, cap, r)) <==> NoOverflow(base, cap)
  {
    if NoOverflow(base, cap) {
      forall r: nat ensures Doubled(base, cap, r) == Promised(base, cap, r) {
        DoublingFits(base, cap, r);
      }
    } else {
      var r := DoublingOverflows(base, cap);
    }
  }

  /** The failing case exists: a base of 219 years doubles to a negative length instead of
      stopping at the cap. */
  lemma BreakerLengthWraps()
    ensures var base, cap := 0x6000_0000_0000_0000, HALF - 1;
            && !NoOverflow(base, cap)
            && Doubled(base, cap, 1) == -0x4000_0000_0000_0000 && Promised(base, cap, 1) == cap
  {
    var base, cap := 0x6000_0000_0000_0000, HALF - 1;
    WrapOver(2 * base);
    PowGrows(base, 1);
    assert Doubled(base, cap, 1) == Doubled(2 * base - WORD, cap, 0);
  }

  /** Caps up to 146 years never overflow. */
  lemma {:induction false} SmallCapsFit(d: int, cap: int)
    requires 0 < d < HALF / 2 && cap <= HALF / 2
    ensures NoOverflow(d, cap)
    decreases HALF - d
  {
    if 2 * d < cap {
      SmallCapsFit(2 * d, cap);
    }
  }

  /** A soft cooldown has length min(base * 2^k, cap) exactly when the shift does not wrap
      around to a positive length below the cap. */
  lemma SoftLength(c: Config, base: int, streak: nat)
    requires 0 < base && SoftMax(c) < HALF && streak >= 2
    ensures var full := base * Pow2(Min(streak - 1, SOFT_SHIFT_MAX));
            SoftDuration(c, base, streak) == Min(full, SoftMax(c)) <==>
              !(full >= HALF && 0 < Wrap(full) < SoftMax(c))
  {
    var full := base * Pow2(Min(streak - 1, SOFT_SHIFT_MAX));
    assert full > 0;
    if full < HALF {
      WrapFits(full);
    }
  }

  /** The failing case exists: 2^48 + 1 nanoseconds, after sixteen cooldowns in a row, give
      65536 nanoseconds instead of two hours. */
  lemma SoftLengthWraps(c: Config)
    requires c.softRateMax == 0
    ensures SoftDuration(c, 0x1_0000_0000_0001, 17) == 65536
    ensures Min(0x1_0000_0000_0001 * Pow2(16), SoftMax(c)) == DEFAULT_SOFT_MAX
  {
    assert Pow2(4) == 16;
    assert Pow2(8) == 256;
    assert Pow2(12) == 4096;
    assert Pow2(16) == 65536;
  }

  // ------------------------------------------------------------ errors without success

  function Errors(events: seq<Timed>): nat {
    if events == [] then 0 else (if events[0].event.NoteError? then 1 else 0) + Errors(events[1..])
  }

  predicate NoSuccess(events: seq<Timed>) {
    forall i :: 0 <= i < |events| ==> !events[i].event.NoteSuccess?
  }

  lemma CountUp(t: int, retry: nat, fails: nat, n: nat)
    requires t > 0 && fails < t
    ensures var total := retry * t + fails + n;
            var retry' := if fails + 1 < t then retry else retry + 1;
            var fails' := if fails + 1 < t then fails + 1 else 0;
            n > 0 ==> retry' * t + fails' + (n - 1) == total
  {
  }

  lemma DivMod(t: int, retry: nat, fails: nat)
    requires t > 0 && fails < t
    ensures (retry * t + fails) / t == retry && (retry * t + fails) % t == fails
  {
    var n := retry * t + fails;
    var q := n / t;
    assert n == q * t + n % t;
    assert (q - retry) * t == q * t - retry * t;
    if q > retry {
      Times(t, q - retry);
    } else if q < retry {
      Times(t, retry - q);
    }
  }

  /** However the errors are mixed with other events, without a success `n` of them take the
      breaker `n` failures further, `threshold` failures to a trip. */
  lemma {:induction false} ErrorsAddUp(c: Config, e: Entry, events: seq<Timed>)
    requires c.breakerThreshold > 0 && e.breaker.fails < c.breakerThreshold && NoSuccess(events)
    ensures var b := Run(c, e, events).breaker;
            && b.fails < c.breakerThreshold
            && b.retries * c.breakerThreshold + b.fails ==
               e.breaker.retries * c.breakerThreshold + e.breaker.fails + Errors(events)
    decreases |events|
  {
    if events != [] {
      if events[0].event.NoteError? {
        CountUp(c.breakerThreshold, e.breaker.retries, e.breaker.fails, Errors(events));
      }
      ErrorsAddUp(c, Step(c, e, events[0].event, events[0].at), events[1..]);
    }
  }

  /** From a fresh state, `n` errors without a success give `n / threshold` trips and leave
      `n % threshold` failures. */
  lemma ErrorsFromFresh(c: Config, e: Entry, events: seq<Timed>)
    requires c.breakerThreshold > 0 && e.breaker.fails == e.breaker.retries == 0 && NoSuccess(events)
    ensures var b := Run(c, e, events).breaker;
            b.retries == Errors(events) / c.breakerThreshold && b.fails == Errors(events) % c.breakerThreshold
  {
    ErrorsAddUp(c, e, events);
    var b := Run(c, e, events).breaker;
    DivMod(c.breakerThreshold, b.retries, b.fails);
  }

  lemma {:induction false} RunSnoc(c: Config, e: Entry, events: seq<Timed>)
    requires events != []
    ensures var n := |events| - 1;
            Run(c, e, events) == Step(c, Run(c, e, events[..n]), events[n].event, events[n].at)
    decreases |events|
  {
    if |events| > 1 {
      RunSnoc(c, Step(c, e, events[0].event, events[0].at), events[1..]);
      assert events[1..][..|events| - 2] == events[..|events| - 1][1..];
    } else {
      assert events[1..] == [] && events[..0] == [];
    }
  }

  /** The error that completes the k-th group of `threshold` errors opens the breaker for
      min(base * 2^(k-1), cap). */
  lemma TripLength(c: Config, e: Entry, events: seq<Timed>)
    requires c.breakerThreshold > 0 && e.breaker.fails == e.breaker.retries == 0 && NoSuccess(events)
    requires 0 < c.breakerCooldown <= c.breakerCooldownMax < HALF && NoOverflow(c.breakerCooldown, c.breakerCooldownMax)
    requires events != [] && events[|events| - 1].event.NoteError?
    requires Errors(events) % c.breakerThreshold == 0
    ensures var k := Errors(events) / c.breakerThreshold;
            && k >= 1
            && Run(c, e, events).breaker.until ==
                 events[|events| - 1].at + Promised(c.breakerCooldown, c.breakerCooldownMax, k - 1)
  {
    var n := |events| - 1;
    RunSnoc(c, e, events);
    ErrorsFromFresh(c, e, events);
    ErrorsAddUp(c, e, events[..n]);
    TripAt(c, Run(c, e, events[..n]).breaker, events[n].at);
  }

  lemma TripAt(c: Config, b: Breaker, now: Time)
    requires c.breakerThreshold > 0 && 0 < c.breakerCooldown && NoOverflow(c.breakerCooldown, c.breakerCooldownMax)
    requires Fail(c, b, now).fails == 0 && b.fails < c.breakerThreshold
    ensures Fail(c, b, now).retries == b.retries + 1
    ensures Fail(c, b, now).until == now + Promised(c.breakerCooldown, c.breakerCooldownMax, b.retries)
  {
    DoublingFits(c.breakerCooldown, c.breakerCooldownMax, b.retries);
  }

  // ------------------------------------------------------------ models that the upstream lacks

  /** The limit on the shift never shows: a block lasts min(6 h * 2^(hits - 1), 24 h). */
  lemma {:induction false} BlockLength(hits: nat)
    requires hits > 0
    ensures BlockDuration(hits) == Min(BLOCK_TTL * Pow2(hits - 1), BLOCK_TTL_MAX)
    ensures hits >= 3 ==> BlockDuration(hits) == BLOCK_TTL_MAX
  {
    assert Pow2(0) == 1 && Pow2(1) == 2 && Pow2(2) == 4;
    if hits > 3 {
      BlockLength(hits - 1);
      PowIsLarge(hits - 1);
      PowIsLarge(Min(hits - 1, BLOCK_SHIFT_MAX));
    }
  }

  lemma {:induction false} PowIsLarge(n: nat)
    requires n >= 2
    ensures Pow2(n) >= 4
  {
    assert Pow2(0) == 1 && Pow2(1) == 2 && Pow2(2) == 4;
    if n > 2 {
      PowIsLarge(n - 1);
    }
  }

  /** Every pick deletes expired blocks with their hit counts. So a block of a model after a
      pick is longer than the first one exactly when an earlier one was still in force. */
  lemma BlockEscalates(c: Config, e: Entry, m: Model, picked: Time, t: Time)
    requires m != NO_MODEL
    ensures var r := Step(c, Step(c, e, Pruned, picked), BlockModel(m), t);
            && m in r.cooling.models
            && (r.cooling.models[m].until > t + BLOCK_TTL <==> ModelCooled(e.cooling, picked, m) && e.cooling.models[m].hits > 0)
  {
    var k := Step(c, e, Pruned, picked).cooling;
    var hits := Hits(k.models, m);
    BlockLength(hits + 1);
    assert Pow2(0) == 1;
    if hits > 0 {
      PowGrows(1, hits);
    }
  }

  // ------------------------------------------------------------ probes inside a soft cooldown

  /** Rate limits without a reset time, limits of single models, and the events of the other
      dimensions. */
  predicate IsProbe(ev: Event) {
    match ev
    case SoftRate(_, resetAt) => resetAt == NO_TIME
    case Cooldown(_, _) => false
    case Disable => false
    case SessionDead => false
    case Reenable(_) => false
    case NoteSuccess => false
    case _ => true
  }

  /** However often a soft cooldown in force is probed, its deadline and its streak stay. */
  lemma {:induction false} ProbesDoNotExtend(c: Config, e: Entry, events: seq<Timed>)
    requires e.cooling.kind == CoolSoft && e.cooling.until != NO_TIME
    requires forall i :: 0 <= i < |events| ==> IsProbe(events[i].event) && events[i].at < e.cooling.until
    ensures var k := Run(c, e, events).cooling;
            k.until == e.cooling.until && k.streak == e.cooling.streak && k.kind == CoolSoft
    decreases |events|
  {
    if events != [] {
      ProbesDoNotExtend(c, Step(c, e, events[0].event, events[0].at), events[1..]);
    }
  }
}
