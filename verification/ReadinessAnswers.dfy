/**
 What the readiness protocol answers at its ends: to a rejected or withdrawn credential, to a
 bootstrap that finds a call or a result of its own generation, to the lock-free reader, and to a
 call that has to wait for its peers.
 */
module ReadinessAnswers {
  import opened Common
  import opened ModelReadiness
  import opened ReadinessInvariant
  import opened ReadinessTheorems
  import opened ReadinessOutcomes

  // ------------------------------------------------------------ rejection and withdrawal

  /** The account's newest generation has no credential, and this is what it shows. */
  predicate ShowsWithout(s: Sys, a: AuthID, state: State, error: ErrorCode) {
    && a in s.slots && s.slots[a].key == NoAuth(s.config)
    && s.slots[a].current == Some(Snapshot(state, Nothing, Nothing, error, s.config, s.slots[a].nextAuth, "", None, None))
  }

  lemma WithdrawnShows(s: Sys, s': Sys, a: AuthID, state: State, error: ErrorCode, u: Tid, task: Task)
    requires s'.slots == s.slots[a := Withdrawn(s, a, state, error)] && s'.config == s.config
    ensures ShowsWithout(s', a, state, error)
    ensures TaskOK(s, u, task) && task.auth == a ==> !KeptGeneration(s', task)
  {
  }

  /** A bootstrap with an invalid credential publishes and returns that it has failed, and takes
      their generation from all calls of the account. */
  lemma RejectedAnswer(states: seq<Sys>, moves: seq<Move>, i: nat, u: Tid, task: Task)
    requires IsRun(states, moves) && i < |moves| && Steps(states[i], moves[i])
    requires states[i].threads[moves[i].tid].pc == Start(Invalid)
    ensures var s', t, a := states[i + 1], moves[i].tid, states[i].threads[moves[i].tid].auth;
            && ShowsWithout(s', a, Failed, AuthInvalid)
            && t in s'.threads && s'.threads[t].pc == Return(s'.slots[a].current.value, s'.config)
            && (TaskOK(states[i], u, task) && task.auth == a ==> !KeptGeneration(s', task))
  {
    assert StepAt(states, moves, i);
    WithdrawnShows(states[i], states[i + 1], states[i].threads[moves[i].tid].auth, Failed, AuthInvalid, u, task);
  }

  /** So does a withdrawal, which shows that nothing has been started. */
  lemma WithdrawnAnswer(states: seq<Sys>, moves: seq<Move>, i: nat, u: Tid, task: Task)
    requires IsRun(states, moves) && i < |moves| && moves[i].action.MarkNotStarted?
    ensures var s', a := states[i + 1], moves[i].action.auth;
            && ShowsWithout(s', a, NotStarted, NoError)
            && (TaskOK(states[i], u, task) && task.auth == a ==> !KeptGeneration(s', task))
  {
    assert StepAt(states, moves, i);
    WithdrawnShows(states[i], states[i + 1], moves[i].action.auth, NotStarted, NoError, u, task);
  }

  // ------------------------------------------------------------ entering a generation

  /** The account has a result of its newest generation. */
  predicate HasResult(slot: Slot) {
    slot.current.Some? && slot.current.value.auth == slot.nextAuth && slot.current.value.state != Loading
  }

  /** The account is at the generation of the key: the one it was at, or the next. */
  predicate AtGeneration(before: Slot, after: Slot, key: Key) {
    after.key == key && after.nextAuth == (if before.key == key then before.nextAuth else before.nextAuth + 1)
  }

  /** What a bootstrap finds at its generation: a result, which it returns; a call, which it
      waits for; or nothing, so that it registers a call and shows that it is loading. */
  ghost predicate Entered(s: Sys, s': Sys, t: Tid, a: AuthID, key: Key) {
    var before, after := SlotOf(s, a), SlotOf(s', a);
    && AtGeneration(before, after, key) && t in s'.threads
    && if before.key == key && HasResult(before) then
         after == before && s'.threads[t].pc == Return(before.current.value, s.config) && before.current.value.identity == IdentityOf(key)
       else if before.key == key && before.nextAuth in before.calls then
         after == before && s'.threads[t].pc == AwaitAuth(before.calls[before.nextAuth])
       else
         && s'.threads[t].pc == Registered(Task(a, key, after.nextAuth, |s.owner|, s.configured))
         && after.calls == before.calls[after.nextAuth := |s.owner|]
         && after.current == Some(Snapshot(Loading, Nothing, Nothing, NoError, s.config, after.nextAuth, IdentityOf(key), None, None))
  }

  lemma EnterAnswer(s: Sys, t: Tid, key: Key)
    requires Inv(s) && t in s.threads && s.threads[t].pc.Start? && key.ForAuth? && key.config == s.config
    ensures Entered(s, Enter(s, t, s.threads[t].auth, key), t, s.threads[t].auth, key)
  {
    var a := s.threads[t].auth;
    assert SlotOK(s, a) && CallOK(s, a, Advance(SlotOf(s, a), key).nextAuth);
    EnterKept(s, a, key);
  }

  /** A bootstrap with a valid credential works for, waits for or returns the result of exactly
      its own config generation, token and identity. */
  lemma ValidAnswer(states: seq<Sys>, moves: seq<Move>, i: nat, token: nat, identity: Sha)
    requires IsRun(states, moves) && i < |moves| && Steps(states[i], moves[i])
    requires states[i].threads[moves[i].tid].pc == Start(Valid(token, identity))
    ensures var s := states[i];
            Entered(s, states[i + 1], moves[i].tid, s.threads[moves[i].tid].auth, ForAuth(s.config, token, identity))
  {
    Reachable(states, moves, i);
    assert StepAt(states, moves, i);
    EnterAnswer(states[i], moves[i].tid, ForAuth(states[i].config, token, identity));
  }

  // ------------------------------------------------------------ the lock-free reader

  /** What a reader makes of the pointer it loaded. */
  predicate Answers(r: Snapshot, current: Option<Snapshot>, config: nat) {
    if current.Some? && current.value.config == config then r == current.value
    else r == Snapshot(NotStarted, Nothing, Nothing, NoError, config, 0, "", None, None)
  }

  /** The pointer was the published one at step `k`. */
  predicate LoadedAt(s: Sys, t: Tid, snap: Option<Snapshot>, at: nat) {
    t in s.threads && snap == SlotOf(s, s.threads[t].auth).current && at == s.config
  }

  lemma {:induction false} PointerWasPublished(states: seq<Sys>, moves: seq<Move>, i: nat, t: Tid) returns (k: nat)
    requires IsRun(states, moves) && i < |states| && t in states[i].threads && states[i].threads[t].pc.ReadAgain?
    ensures k < i && LoadedAt(states[k], t, states[i].threads[t].pc.snap, states[i].threads[t].pc.at)
    decreases i
  {
    Reachable(states, moves, i - 1);
    assert StepAt(states, moves, i - 1);
    PointerStep(states[i - 1], states[i], moves[i - 1], t);
    if moves[i - 1].tid == t {
      k := i - 1;
    } else {
      k := PointerWasPublished(states, moves, i - 1, t);
    }
  }

  lemma PointerStep(s: Sys, s': Sys, m: Move, t: Tid)
    requires Inv(s) && IsStep(s, s', m) && t in s'.threads && s'.threads[t].pc.ReadAgain?
    ensures if m.tid == t then LoadedAt(s, t, s'.threads[t].pc.snap, s'.threads[t].pc.at)
            else t in s.threads && s.threads[t] == s'.threads[t]
  {
    if m.tid != t {
      StepKeepsInvariant(s, m.tid, m.action);
    } else {
      LoadsPointer(s, m);
    }
  }

  /** Only the step behind the first look at the config generation loads the pointer. */
  lemma LoadsPointer(s: Sys, m: Move)
    requires Enabled(s, m.tid, m.action)
    requires var s' := Apply(s, m.tid, m.action); m.tid in s'.threads && s'.threads[m.tid].pc.ReadAgain?
    ensures var pc := Apply(s, m.tid, m.action).threads[m.tid].pc; LoadedAt(s, m.tid, pc.snap, pc.at)
  {
    if m.action.Continue? && !s.threads[m.tid].pc.ReadSlot? {
      NoPointer(s, m.tid, m.action.choice);
    }
  }

  lemma NoPointer(s: Sys, t: Tid, ch: Choice)
    requires t in s.threads && !s.threads[t].pc.ReadSlot? && !s.threads[t].pc.Return?
    ensures var s' := Resume(s, t, ch); t in s'.threads && !s'.threads[t].pc.ReadAgain?
  {
    var pc := s.threads[t].pc;
    if pc.Fetching? || pc.LoadingShared? || pc.AwaitPeers? {
      ResumeIsCatalog(s, t, ch);
      CatalogNoPointer(s, t, pc, ch);
    } else if pc.Selected? || pc.MetaEnter? || pc.AwaitMeta? || pc.MetaFetching? {
      ResumeIsMetadata(s, t, ch);
      MetadataNoPointer(s, t, pc, ch);
    } else if pc.Start? && pc.cred.Valid? {
      EnterNoPointer(s, t, s.threads[t].auth, KeyFor(s, pc.cred));
    }
  }

  lemma CatalogNoPointer(s: Sys, t: Tid, pc: PC, ch: Choice)
    requires t in s.threads && (pc.Fetching? || pc.LoadingShared? || pc.AwaitPeers?)
    ensures var s' := ResumeCatalog(s, t, pc, ch); t in s'.threads && HasTask(s'.threads[t].pc)
  {
  }

  lemma MetadataNoPointer(s: Sys, t: Tid, pc: PC, ch: Choice)
    requires t in s.threads && (pc.Selected? || pc.MetaEnter? || pc.AwaitMeta? || pc.MetaFetching?)
    ensures var s' := ResumeMetadata(s, t, pc, ch); t in s'.threads && HasTask(s'.threads[t].pc)
  {
    if pc.MetaEnter? {
      FlightNoPointer(s, t, pc);
    } else if pc.MetaFetching? && Current(s, pc.task) {
      CommitNoPointer(s, t, pc, MetaOutcome(pc.cachedMeta, pc.readFailed, s.meta.version, ch.fetch, ch.save),
                      NewsOf(pc.cachedMeta, s.meta.version, ch.fetch, ch.save));
    }
  }

  lemma FlightNoPointer(s: Sys, t: Tid, pc: PC)
    requires t in s.threads && pc.MetaEnter?
    ensures var s' := EnterMetadata(s, t, pc.task, pc.sel); t in s'.threads && HasTask(s'.threads[t].pc)
  {
  }

  lemma CommitNoPointer(s: Sys, t: Tid, pc: PC, r: MetaResult, news: News)
    requires t in s.threads && pc.MetaFetching?
    ensures var s' := CommitMetadata(s, t, pc, r, news); t in s'.threads && HasTask(s'.threads[t].pc)
  {
  }

  lemma EnterNoPointer(s: Sys, t: Tid, a: AuthID, key: Key)
    requires t in s.threads
    ensures var s' := Enter(s, t, a, key); t in s'.threads && !s'.threads[t].pc.ReadAgain?
  {
  }

  /** A reader returns what was published for its account when it loaded the pointer, if that is
      of the config generation in force then and now, and else that nothing has been started. */
  lemma ReaderSeesPublished(states: seq<Sys>, moves: seq<Move>, i: nat) returns (k: nat)
    requires IsRun(states, moves) && i < |moves| && Steps(states[i], moves[i])
    requires states[i].threads[moves[i].tid].pc.ReadAgain? && states[i].threads[moves[i].tid].pc.seen == states[i].config
    ensures var s, t := states[i], moves[i].tid;
            && k < i && t in states[k].threads && states[k].config == s.config
            && t in states[i + 1].threads && states[i + 1].threads[t].pc.Return? && states[i + 1].threads[t].pc.at == s.config
            && Answers(states[i + 1].threads[t].pc.result, SlotOf(states[k], states[k].threads[t].auth).current, s.config)
  {
    k := PointerWasPublished(states, moves, i, moves[i].tid);
    Reachable(states, moves, i);
    assert StepAt(states, moves, i) && ThreadOK(states[i], moves[i].tid);
  }

  // ------------------------------------------------------------ waiting for peers

  /** All other active calls of the identity. */
  ghost predicate AllPeers(s: Sys, id: Sha, own: Chan, waits: set<Chan>) {
    forall c :: c in waits <==> id in s.idents && c in s.idents[id].active && c != own
  }

  lemma SaveWaits(s: Sys, t: Tid, pc: PC, save: Save)
    requires t in s.threads && pc.Fetching? && pc.task.key.ForAuth?
    ensures var s' := SaveOwn(s, t, pc.task, pc.chan, pc.sequence, pc.cacheError, save);
            t in s'.threads && (s'.threads[t].pc.AwaitPeers? ==> AllPeers(s, pc.task.key.identity, pc.chan, s'.threads[t].pc.waits))
  {
  }

  /** A call whose fetch or save has failed waits for every call of its identity that is active. */
  lemma FailureWaits(states: seq<Sys>, moves: seq<Move>, i: nat)
    requires IsRun(states, moves) && i < |moves| && Steps(states[i], moves[i]) && states[i].threads[moves[i].tid].pc.Fetching?
    requires moves[i].tid in states[i + 1].threads && states[i + 1].threads[moves[i].tid].pc.AwaitPeers?
    ensures var pc := states[i].threads[moves[i].tid].pc;
            pc.task.key.ForAuth? && AllPeers(states[i], pc.task.key.identity, pc.chan, states[i + 1].threads[moves[i].tid].pc.waits)
  {
    var s, t, ch := states[i], moves[i].tid, moves[i].action.choice;
    var pc := s.threads[t].pc;
    Reachable(states, moves, i);
    assert StepAt(states, moves, i) && ThreadOK(s, t);
    ResumeIsCatalog(s, t, ch);
    if ch.fetch == FetchOK && Current(s, pc.task) && !Superseded(s, pc.task, pc.sequence) {
      SaveWaits(s, t, pc, ch.save);
    }
  }

  lemma AwaitsSame(s: Sys, s': Sys, m: Move, t: Tid)
    requires Inv(s) && IsStep(s, s', m) && t in s.threads && s.threads[t].pc.AwaitPeers?
    ensures t in s'.threads && (s'.threads[t] == s.threads[t] || (m.tid == t && s'.threads[t].pc.Selected?))
    ensures s.closes <= s'.closes
  {
    StepKeepsInvariant(s, m.tid, m.action);
    if m.tid == t {
      ResumeIsCatalog(s, t, m.action.choice);
    }
  }

  lemma {:induction false} StillWaits(states: seq<Sys>, moves: seq<Move>, i: nat, j: nat, t: Tid)
    requires IsRun(states, moves) && i <= j < |states| && t in states[i].threads && states[i].threads[t].pc.AwaitPeers?
    requires forall k :: i <= k < j ==> moves[k].tid != t
    ensures t in states[j].threads && states[j].threads[t] == states[i].threads[t]
    decreases j - i
  {
    if i < j {
      StillWaits(states, moves, i, j - 1, t);
      Reachable(states, moves, j - 1);
      assert StepAt(states, moves, j - 1);
      AwaitsSame(states[j - 1], states[j], moves[j - 1], t);
    }
  }

  /** When it reads the disk again, each of them has saved its catalog or given up: none of the
      calls that were active when it failed is active any more. */
  lemma ReadsAfterPeers(states: seq<Sys>, moves: seq<Move>, i: nat, j: nat, c: Chan)
    requires IsRun(states, moves) && i < j < |moves| && Steps(states[i], moves[i]) && Steps(states[j], moves[j])
    requires moves[j].tid == moves[i].tid && forall k :: i < k < j ==> moves[k].tid != moves[i].tid
    requires states[i].threads[moves[i].tid].pc.Fetching? && states[j].threads[moves[i].tid].pc.AwaitPeers?
    requires states[i].threads[moves[i].tid].pc.task.key.ForAuth?
    ensures var id := states[i].threads[moves[i].tid].pc.task.key.identity;
            id in states[i].idents && c in states[i].idents[id].active ==> c in states[j].closes && c !in IdentOf(states[j], id).active
  {
    var t := moves[i].tid;
    var pc := states[i].threads[t].pc;
    Reachable(states, moves, i + 1);
    Reachable(states, moves, j);
    BecomesWaiter(states, moves, i, j);
    FailureWaits(states, moves, i);
    StillWaits(states, moves, i + 1, j, t);
    SettlesAtOnce(states, moves, i);
    ClosesGrow(states, moves, i + 1, j);
    assert StepAt(states, moves, j) && IdentOK(states[j], pc.task.key.identity) && ActiveOK(states[j], pc.task.key.identity, c);
  }

  lemma SettlesAtOnce(states: seq<Sys>, moves: seq<Move>, i: nat)
    requires IsRun(states, moves) && i < |moves| && Steps(states[i], moves[i]) && states[i].threads[moves[i].tid].pc.Fetching?
    ensures states[i].threads[moves[i].tid].pc.chan in states[i + 1].closes
  {
    var s, t, ch := states[i], moves[i].tid, moves[i].action.choice;
    var pc := s.threads[t].pc;
    assert StepAt(states, moves, i);
    ResumeIsCatalog(s, t, ch);
    if ch.fetch == FetchOK && Current(s, pc.task) && !Superseded(s, pc.task, pc.sequence) {
      SaveCloses(s, t, pc, ch.save);
    }
  }

  lemma SaveCloses(s: Sys, t: Tid, pc: PC, save: Save)
    requires t in s.threads && pc.Fetching?
    ensures SaveOwn(s, t, pc.task, pc.chan, pc.sequence, pc.cacheError, save).closes == s.closes + [pc.chan]
  {
  }

  lemma {:induction false} ClosesGrow(states: seq<Sys>, moves: seq<Move>, i: nat, j: nat)
    requires IsRun(states, moves) && i <= j < |states|
    ensures states[i].closes <= states[j].closes
    decreases j - i
  {
    if i < j {
      ClosesGrow(states, moves, i, j - 1);
      RunStep(states, moves, j - 1);
    }
  }

  /** The goroutine was already waiting right behind its fetch: others do not move it. */
  lemma {:induction false} BecomesWaiter(states: seq<Sys>, moves: seq<Move>, i: nat, j: nat)
    requires IsRun(states, moves) && i < j < |states| && i < |moves| && Steps(states[i], moves[i])
    requires forall k :: i < k < j ==> moves[k].tid != moves[i].tid
    requires moves[i].tid in states[j].threads && states[j].threads[moves[i].tid].pc.AwaitPeers?
    ensures moves[i].tid in states[i + 1].threads && states[i + 1].threads[moves[i].tid] == states[j].threads[moves[i].tid]
    decreases j
  {
    if i + 1 < j {
      RunStep(states, moves, j - 1);
      BecomesWaiter(states, moves, i, j - 1);
    }
  }
}
