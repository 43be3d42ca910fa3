/**
 How the dimensions of an account stay apart over whole runs (internal/pool/transition.go):
 what only an operator undoes, what only a success undoes, and what nothing moves.
 */
module PoolDimensions {
  import opened PoolEntry
  import opened PoolTransition

  // ------------------------------------------------------------ orthogonality

  datatype Dimension = Pause | Money | Trips | Failures | Prices | Session | Limits

  /** The two accounts agree on the dimension. Limits go with the session, which ends them. */
  predicate Agree(d: Dimension, e: Entry, f: Entry) {
    match d
    case Pause => e.manualDisabled == f.manualDisabled
    case Money => e.balance == f.balance
    case Trips => e.breaker == f.breaker
    case Failures => e.degraded == f.degraded
    case Prices => e.costs == f.costs
    case Session => e.disabled == f.disabled && e.sessionDeadFails == f.sessionDeadFails
    case Limits => e.disabled == f.disabled && e.sessionDeadFails == f.sessionDeadFails && e.cooling == f.cooling
  }

  predicate OfSession(ev: Event) {
    ev.Disable? || ev.SessionDead? || ev.ClearSessionDead? || ev.Revive? || ev.NoteSuccess?
  }

  predicate Touches(d: Dimension, ev: Event) {
    match d
    case Pause => ev.SetManual?
    case Money => ev.SetCredits? || ev.SetCreditsDetailed? || ev.Reenable? || ev.NoteCost?
    case Trips => ev.NoteError? || ev.NoteSuccess?
    case Failures => ev.NoteFailures? || ev.NoteSuccess?
    case Prices => ev.NoteCost? || ev.Pruned?
    case Session => OfSession(ev)
    case Limits =>
      || OfSession(ev) || ev.Cooldown? || ev.SoftForModel? || ev.SoftRate? || ev.BlockModel? || ev.ClearBlock?
      || ev.Reenable? || ev.Pruned?
  }

  /** The events of a run that touch the dimension, in order. */
  function Only(d: Dimension, events: seq<Timed>): seq<Timed> {
    if events == [] then []
    else (if Touches(d, events[0].event) then [events[0]] else []) + Only(d, events[1..])
  }

  lemma StepIsApart(c: Config, e: Entry, f: Entry, d: Dimension, ev: Event, at: Time)
    requires Agree(d, e, f)
    ensures Touches(d, ev) ==> Agree(d, Step(c, e, ev, at), Step(c, f, ev, at))
    ensures !Touches(d, ev) ==> Agree(d, Step(c, e, ev, at), f)
  {
  }

  /** What a run does to a dimension depends on nothing but the events that touch it. */
  lemma {:induction false} Orthogonal(c: Config, e: Entry, f: Entry, d: Dimension, events: seq<Timed>)
    requires Agree(d, e, f)
    ensures Agree(d, Run(c, e, events), Run(c, f, Only(d, events)))
    decreases |events|
  {
    if events != [] {
      var ev, at, rest := events[0].event, events[0].at, events[1..];
      StepIsApart(c, e, f, d, ev, at);
      if Touches(d, ev) {
        assert ([events[0]] + Only(d, rest))[1..] == Only(d, rest);
        Orthogonal(c, Step(c, e, ev, at), Step(c, f, ev, at), d, rest);
      } else {
        assert [] + Only(d, rest) == Only(d, rest);
        Orthogonal(c, Step(c, e, ev, at), f, d, rest);
      }
    }
  }

  /** Runs that interleave the dimensions differently, but keep the order within each, leave
      the same account. */
  lemma InterleavingDoesNotMatter(c: Config, e: Entry, a: seq<Timed>, b: seq<Timed>, d: Dimension)
    requires Only(d, a) == Only(d, b)
    ensures Agree(d, Run(c, e, a), Run(c, e, b))
  {
    Orthogonal(c, e, e, d, a);
    Orthogonal(c, e, e, d, b);
  }

  lemma {:induction false} Untouched(d: Dimension, events: seq<Timed>)
    requires forall i :: 0 <= i < |events| ==> !Touches(d, events[i].event)
    ensures Only(d, events) == []
  {
    if events != [] {
      Untouched(d, events[1..]);
    }
  }

  // ------------------------------------------------------------ what each dimension keeps

  /** An operator's pause outlasts everything but the operator. */
  lemma PausedStaysPaused(c: Config, e: Entry, events: seq<Timed>, t: Time, m: Model)
    requires e.manualDisabled && forall i :: 0 <= i < |events| ==> !events[i].event.SetManual?
    ensures Run(c, e, events).manualDisabled && !HealthyForModel(Run(c, e, events), t, m)
  {
    Untouched(Pause, events);
    Orthogonal(c, e, e, Pause, events);
  }

  /** A disabled account comes back only by being revived. */
  lemma {:induction false} DisabledStaysDisabled(c: Config, e: Entry, events: seq<Timed>, t: Time, m: Model)
    requires e.disabled && forall i :: 0 <= i < |events| ==> !events[i].event.Revive?
    ensures Run(c, e, events).disabled && !HealthyForModel(Run(c, e, events), t, m)
    decreases |events|
  {
    if events != [] {
      DisabledStaysDisabled(c, Step(c, e, events[0].event, events[0].at), events[1..], t, m);
    }
  }

  /** Events that show a session to be alive, or disable the account for another reason. */
  predicate SettlesSession(ev: Event) {
    ev.ClearSessionDead? || ev.NoteSuccess? || ev.Revive? || ev.Disable?
  }

  function Strikes(events: seq<Timed>): nat {
    if events == [] then 0 else (if events[0].event.SessionDead? then 1 else 0) + Strikes(events[1..])
  }

  /** Only the third session-dead answer in a row disables: from a fresh account, n answers
      with nothing to the contrary leave n mod 3 strikes, and it is disabled when n >= 3. */
  lemma {:induction false} ThreeStrikes(c: Config, e: Entry, events: seq<Timed>)
    requires e.sessionDeadFails < SESSION_DEAD_THRESHOLD
    requires forall i :: 0 <= i < |events| ==> !SettlesSession(events[i].event)
    ensures var r := Run(c, e, events);
            && r.sessionDeadFails == (e.sessionDeadFails + Strikes(events)) % SESSION_DEAD_THRESHOLD
            && r.disabled == (e.disabled || e.sessionDeadFails + Strikes(events) >= SESSION_DEAD_THRESHOLD)
    decreases |events|
  {
    if events != [] {
      ThreeStrikes(c, Step(c, e, events[0].event, events[0].at), events[1..]);
    }
  }

  /** Check-ins, pauses, cooldowns and disabling leave the breaker as it is. */
  lemma BreakerIsApart(c: Config, e: Entry, events: seq<Timed>)
    requires forall i :: 0 <= i < |events| ==> !events[i].event.NoteError? && !events[i].event.NoteSuccess?
    ensures Run(c, e, events).breaker == e.breaker
  {
    Untouched(Trips, events);
    Orthogonal(c, e, e, Trips, events);
  }

  /** Failures during a degradation in force never move its end. */
  lemma {:induction false} DegradeIsFixed(c: Config, e: Entry, events: seq<Timed>)
    requires e.degraded.until != NO_TIME
    requires forall i :: 0 <= i < |events| ==> !events[i].event.NoteSuccess? && events[i].at < e.degraded.until
    ensures Run(c, e, events).degraded.until == e.degraded.until
    decreases |events|
  {
    if events != [] {
      DegradeIsFixed(c, Step(c, e, events[0].event, events[0].at), events[1..]);
    }
  }

  /** The event cools the whole account, or ends its cooldown. */
  predicate TouchesAccount(ev: Event) {
    || ev.Cooldown? || ev.SoftRate? || (ev.SoftForModel? && ev.resetAt == NO_TIME)
    || ev.Disable? || ev.SessionDead? || ev.Reenable?
  }

  /** The event is about the limits of the model. */
  predicate Concerns(ev: Event, m: Model) {
    || (ev.SoftForModel? && ev.model == m) || (ev.BlockModel? && ev.blocked == m) || (ev.ClearBlock? && ev.cleared == m)
  }

  /** The limit of one model is moved neither by the limits of others nor by a success, as
      long as it is in force. */
  lemma {:induction false} ModelsAreApart(c: Config, e: Entry, events: seq<Timed>, m: Model)
    requires m in e.cooling.models && e.cooling.models[m].until != NO_TIME
    requires forall i :: 0 <= i < |events| ==>
               && !TouchesAccount(events[i].event) && !Concerns(events[i].event, m)
               && events[i].at < e.cooling.models[m].until
    ensures m in Run(c, e, events).cooling.models && Run(c, e, events).cooling.models[m] == e.cooling.models[m]
    decreases |events|
  {
    if events != [] {
      ModelsAreApart(c, Step(c, e, events[0].event, events[0].at), events[1..], m);
    }
  }
}
