/**
 Progress of the readiness protocol: how many steps a goroutine can take in any interleaving
 before it returns. Two loops have no bound of their own, the reader's retry after a
 reconfiguration and the retry after a metadata flight was abandoned; each retry is paid for
 by the event that caused it.
 */
module ReadinessProgress {
  import opened ModelReadiness
  import opened ReadinessInvariant
  import opened ReadinessTheorems

  /** The steps from here to the return, if nothing has to be retried. */
  function Left(pc: PC): nat {
    match pc
    case Return(_, _) => 0
    case ReadAgain(_, _, _) => 1
    case ReadSlot(_) => 2
    case ReadConfig => 3
    case AwaitAuth(_) => 4
    case Finishing(_, _) => 1
    case MetaFetching(_, _, _, _, _) => 2
    case AwaitMeta(_, _, _) => 2
    case MetaEnter(_, _) => 3
    case Selected(_, _) => 4
    case LoadingShared(_, _) => 5
    case AwaitPeers(_, _, _) => 5
    case Fetching(_, _, _, _, _) => 6
    case LoadingCache(_, _, _) => 7
    case Registered(_) => 8
    case Start(_) => 9
  }

  /** What the goroutine has read or waits for is gone, so that it will go back. */
  predicate Outdated(s: Sys, pc: PC) {
    match pc
    case ReadSlot(c) => s.config != c
    case ReadAgain(c, _, _) => s.config != c
    case AwaitMeta(_, _, c) => c in s.closes && c !in s.meta.done
    case _ => false
  }

  function Work(s: Sys, pc: PC): nat {
    Left(pc) + if Outdated(s, pc) then 3 else 0
  }

  /** The steps that can make others go back: a reconfiguration, and a metadata flight that
      ends after its generation was lost. */
  predicate Abandons(s: Sys, m: Move) {
    && m.action.Continue? && m.tid in s.threads
    && s.threads[m.tid].pc.MetaFetching? && !Current(s, s.threads[m.tid].pc.task)
  }

  predicate Disturbs(s: Sys, m: Move) {
    m.action.Reconfigure? || Abandons(s, m)
  }

  // ------------------------------------------------------------ a goroutine's own steps

  lemma CatalogWork(s: Sys, t: Tid, ch: Choice)
    requires t in s.threads
    requires var pc := s.threads[t].pc; pc.Fetching? || pc.LoadingShared? || pc.AwaitPeers?
    ensures var s' := Resume(s, t, ch); t in s'.threads && Work(s', s'.threads[t].pc) < Work(s, s.threads[t].pc)
  {
    ResumeIsCatalog(s, t, ch);
  }

  lemma SelectedWork(s: Sys, t: Tid, pc: PC, ch: Choice)
    requires t in s.threads && pc.Selected?
    ensures var s' := ResumeMetadata(s, t, pc, ch); t in s'.threads && Work(s', s'.threads[t].pc) < 4
  {
  }

  /** A flight with a result ends the wait; an abandoned one sends the waiter back. */
  lemma AwaitWork(s: Sys, t: Tid, pc: PC, ch: Choice)
    requires t in s.threads && pc.AwaitMeta? && pc.chan in s.closes
    ensures var s' := ResumeMetadata(s, t, pc, ch); t in s'.threads && Work(s', s'.threads[t].pc) < Work(s, pc)
  {
  }

  /** The flight that is joined has not ended yet. */
  lemma JoinWork(s: Sys, t: Tid, task: Task, sel: Selection)
    requires t in s.threads && MetaOK(s)
    ensures var s' := EnterMetadata(s, t, task, sel); t in s'.threads && Work(s', s'.threads[t].pc) < 3
  {
    if s.meta.call.None? && !(s.meta.result.Some? && s.meta.result.value.metadata.Some?) {
      FlightStarts(s, t, task, sel);
    }
  }

  lemma FlightStarts(s: Sys, t: Tid, task: Task, sel: Selection)
    requires t in s.threads
    ensures var s' := StartMetadata(s, t, task, sel); t in s'.threads && s'.threads[t].pc.MetaFetching?
  {
  }

  lemma FlightWork(s: Sys, t: Tid, ch: Choice)
    requires t in s.threads && s.threads[t].pc.MetaFetching?
    ensures var s' := Resume(s, t, ch); t in s'.threads && s'.threads[t].pc.Finishing?
  {
    ResumeIsMetadata(s, t, ch);
    FlightEnds(s, t, ch);
  }

  lemma EnterWork(s: Sys, t: Tid, a: AuthID, key: Key)
    requires t in s.threads
    ensures var s' := Enter(s, t, a, key); t in s'.threads && Work(s', s'.threads[t].pc) < 9
  {
  }

  lemma OpeningWork(s: Sys, t: Tid, ch: Choice)
    requires t in s.threads
    requires var pc := s.threads[t].pc;
             pc.AwaitAuth? || pc.ReadConfig? || pc.ReadSlot? || pc.ReadAgain? || pc.Registered? || pc.LoadingCache? || pc.Finishing?
    ensures var s' := Resume(s, t, ch); t in s'.threads && Work(s', s'.threads[t].pc) < Work(s, s.threads[t].pc)
  {
  }

  /** Every step of a goroutine brings it nearer to its return. */
  lemma OwnStep(s: Sys, t: Tid, ch: Choice)
    requires Enabled(s, t, Continue(ch)) && MetaOK(s)
    ensures var s' := Resume(s, t, ch); t in s'.threads && Work(s', s'.threads[t].pc) < Work(s, s.threads[t].pc)
  {
    var pc := s.threads[t].pc;
    if pc.Start? {
      if pc.cred.Valid? {
        EnterWork(s, t, s.threads[t].auth, KeyFor(s, pc.cred));
      }
    } else if pc.Fetching? || pc.LoadingShared? || pc.AwaitPeers? {
      CatalogWork(s, t, ch);
    } else if pc.MetaFetching? {
      FlightWork(s, t, ch);
    } else if pc.MetaEnter? {
      ResumeIsMetadata(s, t, ch);
      JoinWork(s, t, pc.task, pc.sel);
    } else if pc.Selected? {
      ResumeIsMetadata(s, t, ch);
      SelectedWork(s, t, pc, ch);
    } else if pc.AwaitMeta? {
      ResumeIsMetadata(s, t, ch);
      AwaitWork(s, t, pc, ch);
    } else {
      OpeningWork(s, t, ch);
    }
  }

  // ------------------------------------------------------------ steps of others

  /** Results of metadata flights are kept, and the config generation too. */
  predicate Keeps(s: Sys, s': Sys) {
    s'.config == s.config && s.meta.done.Keys <= s'.meta.done.Keys
  }

  lemma CatalogKeeps(s: Sys, t: Tid, pc: PC, ch: Choice)
    requires t in s.threads && (pc.Fetching? || pc.LoadingShared? || pc.AwaitPeers?)
    ensures Keeps(s, ResumeCatalog(s, t, pc, ch))
  {
  }

  lemma MetadataKeeps(s: Sys, t: Tid, pc: PC, ch: Choice)
    requires t in s.threads && (pc.Selected? || pc.MetaEnter? || pc.AwaitMeta? || pc.MetaFetching?)
    ensures Keeps(s, ResumeMetadata(s, t, pc, ch))
  {
  }

  lemma EnterKeeps(s: Sys, t: Tid, a: AuthID, key: Key)
    requires t in s.threads
    ensures Keeps(s, Enter(s, t, a, key))
  {
  }

  lemma ResumeKeeps(s: Sys, t: Tid, ch: Choice)
    requires t in s.threads
    ensures Keeps(s, Resume(s, t, ch))
  {
    var pc := s.threads[t].pc;
    if pc.Fetching? || pc.LoadingShared? || pc.AwaitPeers? {
      ResumeIsCatalog(s, t, ch);
      CatalogKeeps(s, t, pc, ch);
    } else if pc.Selected? || pc.MetaEnter? || pc.AwaitMeta? || pc.MetaFetching? {
      ResumeIsMetadata(s, t, ch);
      MetadataKeeps(s, t, pc, ch);
    } else if pc.Start? && pc.cred.Valid? {
      EnterKeeps(s, t, s.threads[t].auth, KeyFor(s, pc.cred));
    }
  }

  /** The channel of a metadata flight is closed by that flight alone, and unless it is
      abandoned its result is there. */
  lemma FlightCloses(s: Sys, s': Sys, m: Move, c: Chan)
    requires Inv(s) && IsStep(s, s', m) && Known(s, c, MetadataDone) && c !in s.closes && c in s'.closes
    ensures Abandons(s, m) || c in s'.meta.done
  {
    StepKeepsInvariant(s, m.tid, m.action);
    assert s.owner[c].tid == m.tid && ChanOK(s, c);
    if m.action.Continue? {
      ResumeIsMetadata(s, m.tid, m.action.choice);
      FlightEnds(s, m.tid, m.action.choice);
    }
  }

  /** Another goroutine's step adds work only by a disturbance. */
  lemma OtherStep(s: Sys, s': Sys, m: Move, t: Tid)
    requires Inv(s) && IsStep(s, s', m) && t in s.threads && m.tid != t
    ensures t in s'.threads && s'.threads[t] == s.threads[t]
    ensures Work(s', s.threads[t].pc) <= Work(s, s.threads[t].pc) + if Disturbs(s, m) then 3 else 0
  {
    StepKeepsInvariant(s, m.tid, m.action);
    var pc := s.threads[t].pc;
    if m.action.Continue? {
      ResumeKeeps(s, m.tid, m.action.choice);
    }
    if pc.AwaitMeta? && pc.chan in s'.closes && pc.chan !in s.closes {
      assert ThreadOK(s, t);
      FlightCloses(s, s', m, pc.chan);
    }
  }

  // ------------------------------------------------------------ whole runs

  /** How many of the first `n` moves are steps of goroutine `t`. */
  function OwnSteps(moves: seq<Move>, t: Tid, n: nat): nat
    requires n <= |moves|
  {
    if n == 0 then 0 else OwnSteps(moves, t, n - 1) + if moves[n - 1].tid == t && moves[n - 1].action.Continue? then 1 else 0
  }

  function Reconfigurations(moves: seq<Move>, n: nat): nat
    requires n <= |moves|
  {
    if n == 0 then 0 else Reconfigurations(moves, n - 1) + if moves[n - 1].action.Reconfigure? then 1 else 0
  }

  function Abandoned(states: seq<Sys>, moves: seq<Move>, n: nat): nat
    requires n <= |moves| < |states|
  {
    if n == 0 then 0 else Abandoned(states, moves, n - 1) + if Abandons(states[n - 1], moves[n - 1]) then 1 else 0
  }

  function Disturbances(states: seq<Sys>, moves: seq<Move>, n: nat): nat
    requires n <= |moves| < |states|
  {
    Reconfigurations(moves, n) + Abandoned(states, moves, n)
  }

  lemma WorkStep(s: Sys, s': Sys, m: Move, t: Tid)
    requires Inv(s) && IsStep(s, s', m)
    ensures t !in s.threads ==> !(m.tid == t && m.action.Continue?) && (t in s'.threads ==> Work(s', s'.threads[t].pc) <= 9)
    ensures t in s.threads ==>
              && t in s'.threads
              && Work(s', s'.threads[t].pc) + (if m.tid == t && m.action.Continue? then 1 else 0)
                 <= Work(s, s.threads[t].pc) + if Disturbs(s, m) then 3 else 0
  {
    if t in s.threads {
      if m.tid == t {
        OwnStep(s, t, m.action.choice);
      } else {
        OtherStep(s, s', m, t);
      }
    } else {
      StepKeepsInvariant(s, m.tid, m.action);
    }
  }

  lemma {:induction false} WorkIsPaid(states: seq<Sys>, moves: seq<Move>, t: Tid, n: nat)
    requires IsRun(states, moves) && n <= |moves|
    ensures t !in states[n].threads ==> OwnSteps(moves, t, n) == 0
    ensures t in states[n].threads ==>
              OwnSteps(moves, t, n) + Work(states[n], states[n].threads[t].pc) <= 9 + 3 * Disturbances(states, moves, n)
  {
    if n > 0 {
      WorkIsPaid(states, moves, t, n - 1);
      Reachable(states, moves, n - 1);
      assert StepAt(states, moves, n - 1);
      WorkStep(states[n - 1], states[n], moves[n - 1], t);
    }
  }

  predicate Ending(s: Sys, t: Tid) {
    t in s.threads && (s.threads[t].pc.Finishing? || s.threads[t].pc.Return?)
  }

  /** Each goroutine abandons at most one flight: it is on its way to its return then. */
  lemma {:induction false} AbandonsOnce(states: seq<Sys>, moves: seq<Move>, n: nat) returns (ts: set<Tid>)
    requires IsRun(states, moves) && n <= |moves|
    ensures |ts| == Abandoned(states, moves, n) && forall t :: t in ts ==> Ending(states[n], t)
  {
    ts := {};
    if n > 0 {
      ts := AbandonsOnce(states, moves, n - 1);
      ts := NextOne(states, moves, n - 1, ts);
    }
  }

  lemma NextOne(states: seq<Sys>, moves: seq<Move>, i: nat, us: set<Tid>) returns (ts: set<Tid>)
    requires IsRun(states, moves) && i < |moves| && forall t :: t in us ==> Ending(states[i], t)
    ensures |ts| == |us| + (if Abandons(states[i], moves[i]) then 1 else 0)
    ensures forall t :: t in ts ==> Ending(states[i + 1], t)
  {
    RunStep(states, moves, i);
    assert StepAt(states, moves, i);
    ts := OneMore(states[i], states[i + 1], moves[i], us);
  }

  lemma OneMore(s: Sys, s': Sys, m: Move, us: set<Tid>) returns (ts: set<Tid>)
    requires IsStep(s, s', m) && Rely(s, s', m.tid) && forall t :: t in us ==> Ending(s, t)
    ensures |ts| == |us| + (if Abandons(s, m) then 1 else 0) && forall t :: t in ts ==> Ending(s', t)
  {
    forall t | t in us ensures Ending(s', t) {
      StaysEnding(s, s', m, t);
    }
    ts := us;
    if Abandons(s, m) {
      FlightWork(s, m.tid, m.action.choice);
      assert !Ending(s, m.tid);
      ts := us + {m.tid};
    }
  }

  lemma StaysEnding(s: Sys, s': Sys, m: Move, t: Tid)
    requires IsStep(s, s', m) && Rely(s, s', m.tid) && Ending(s, t)
    ensures Ending(s', t)
  {
    if t == m.tid {
      assert s' == Finish(s, t, s.threads[t].pc.task, s.threads[t].pc.final);
    }
  }

  lemma SetBound<T>(a: set<T>, b: set<T>)
    requires a <= b
    ensures |a| <= |b|
  {
    assert b == a + (b - a);
  }

  /** In every interleaving a goroutine takes at most 9 steps, and 3 more for each
      reconfiguration and each goroutine there is; one that has taken them all has returned. */
  lemma BoundedSteps(states: seq<Sys>, moves: seq<Move>, t: Tid, n: nat)
    requires IsRun(states, moves) && n <= |moves| && t in states[n].threads
    ensures var bound := 9 + 3 * (Reconfigurations(moves, n) + |states[n].threads|);
            && OwnSteps(moves, t, n) <= bound
            && (OwnSteps(moves, t, n) == bound ==> states[n].threads[t].pc.Return?)
  {
    WorkIsPaid(states, moves, t, n);
    var ts := AbandonsOnce(states, moves, n);
    SetBound(ts, states[n].threads.Keys);
  }
}
