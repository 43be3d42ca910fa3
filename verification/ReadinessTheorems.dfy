/** What the readiness protocol guarantees in every interleaving. */
module ReadinessTheorems {
  import opened Common
  import opened ModelReadiness
  import opened ReadinessInvariant

  datatype Move = Move(tid: Tid, action: Action)

  /** A finite interleaving from a fresh runtime. */
  ghost predicate IsRun(states: seq<Sys>, moves: seq<Move>) {
    && |states| == |moves| + 1 && Init(states[0])
    && forall i: nat :: i < |moves| ==> StepAt(states, moves, i)
  }

  ghost predicate StepAt(states: seq<Sys>, moves: seq<Move>, i: nat)
    requires |states| == |moves| + 1 && i < |moves|
  {
    IsStep(states[i], states[i + 1], moves[i])
  }

  ghost predicate IsStep(s: Sys, s': Sys, m: Move) {
    Enabled(s, m.tid, m.action) && s' == Apply(s, m.tid, m.action)
  }

  lemma {:induction false} Reachable(states: seq<Sys>, moves: seq<Move>, i: nat)
    requires IsRun(states, moves) && i < |states|
    ensures Inv(states[i])
  {
    if i == 0 {
      InitHolds(states[0]);
    } else {
      Reachable(states, moves, i - 1);
      assert StepAt(states, moves, i - 1);
      StepKeepsInvariant(states[i - 1], moves[i - 1].tid, moves[i - 1].action);
    }
  }

  lemma RunStep(states: seq<Sys>, moves: seq<Move>, i: nat)
    requires IsRun(states, moves) && i < |moves|
    ensures Rely(states[i], states[i + 1], moves[i].tid)
  {
    Reachable(states, moves, i);
    assert StepAt(states, moves, i);
    StepKeepsInvariant(states[i], moves[i].tid, moves[i].action);
  }

  // ------------------------------------------------------------ publication

  /** The step leaves every slot alone and the goroutine has not returned. */
  predicate Between(s: Sys, s': Sys, t: Tid) {
    s'.slots == s.slots && t in s'.threads && !s'.threads[t].pc.Return?
  }

  lemma CatalogPhase(s: Sys, t: Tid, pc: PC, ch: Choice)
    requires t in s.threads && (pc.Fetching? || pc.LoadingShared? || pc.AwaitPeers?)
    ensures Between(s, ResumeCatalog(s, t, pc, ch), t) && ResumeCatalog(s, t, pc, ch).fetched == s.fetched
  {
    if pc.Fetching? && ch.fetch == FetchOK && Current(s, pc.task) && !Superseded(s, pc.task, pc.sequence) {
      SavePhase(s, t, pc, ch.save);
    }
  }

  lemma SavePhase(s: Sys, t: Tid, pc: PC, save: Save)
    requires t in s.threads && pc.Fetching?
    ensures var s' := SaveOwn(s, t, pc.task, pc.chan, pc.sequence, pc.cacheError, save);
            Between(s, s', t) && s'.fetched == s.fetched
  {
  }

  lemma MetadataPhase(s: Sys, t: Tid, pc: PC, ch: Choice)
    requires t in s.threads && (pc.Selected? || pc.MetaEnter? || pc.AwaitMeta? || pc.MetaFetching?)
    ensures Between(s, ResumeMetadata(s, t, pc, ch), t)
  {
    if pc.MetaFetching? && Current(s, pc.task) {
      var r := MetaOutcome(pc.cachedMeta, pc.readFailed, s.meta.version, ch.fetch, ch.save);
      CommitPhase(s, t, pc, r, NewsOf(pc.cachedMeta, s.meta.version, ch.fetch, ch.save));
    } else if pc.MetaEnter? {
      EnterPhase(s, t, pc);
    }
  }

  lemma EnterPhase(s: Sys, t: Tid, pc: PC)
    requires t in s.threads && pc.MetaEnter?
    ensures Between(s, EnterMetadata(s, t, pc.task, pc.sel), t)
  {
  }

  lemma CommitPhase(s: Sys, t: Tid, pc: PC, r: MetaResult, news: News)
    requires t in s.threads && pc.MetaFetching?
    ensures Between(s, CommitMetadata(s, t, pc, r, news), t)
  {
  }

  lemma OpeningPhase(s: Sys, t: Tid, ch: Choice)
    requires t in s.threads
    requires var pc := s.threads[t].pc; pc.AwaitAuth? || pc.ReadConfig? || pc.ReadSlot? || pc.Registered? || pc.LoadingCache?
    ensures Between(s, Resume(s, t, ch), t)
  {
  }

  /** Only the first critical section of a bootstrap, `finishAuthCall` and the reader's last
      check touch a slot or return. */
  lemma InBetween(s: Sys, t: Tid, ch: Choice)
    requires t in s.threads
    requires var pc := s.threads[t].pc; !pc.Start? && !pc.ReadAgain? && !pc.Finishing? && !pc.Return?
    ensures Between(s, Resume(s, t, ch), t)
  {
    var pc := s.threads[t].pc;
    if pc.Fetching? || pc.LoadingShared? || pc.AwaitPeers? {
      ResumeIsCatalog(s, t, ch);
      CatalogPhase(s, t, pc, ch);
    } else if pc.Selected? || pc.MetaEnter? || pc.AwaitMeta? || pc.MetaFetching? {
      ResumeIsMetadata(s, t, ch);
      MetadataPhase(s, t, pc, ch);
    } else {
      OpeningPhase(s, t, ch);
    }
  }

  predicate Newest(s: Sys, a: AuthID) {
    var slot := SlotOf(s, a);
    slot.current.Some? && slot.current.value.auth == slot.nextAuth && slot.current.value.config == slot.key.config == s.config
  }

  /** The published snapshot of a slot stays, or is one of the slot's newest generation. */
  predicate Publishes(s: Sys, s': Sys, a: AuthID) {
    SlotOf(s', a).current == SlotOf(s, a).current || Newest(s', a)
  }

  lemma RegisterPublishes(s: Sys, t: Tid, b: AuthID, key: Key, a: AuthID)
    requires t in s.threads && key.config == s.config
    ensures Publishes(s, Register(s, t, b, key), a)
  {
  }

  lemma EnterPublishes(s: Sys, t: Tid, b: AuthID, key: Key, a: AuthID)
    requires t in s.threads && key.config == s.config
    ensures Publishes(s, Enter(s, t, b, key), a)
  {
    var slot := Advance(SlotOf(s, b), key);
    if slot.current.Some? && slot.current.value.auth == slot.nextAuth && slot.current.value.state != Loading {
    } else if slot.nextAuth in slot.calls {
    } else {
      RegisterPublishes(s, t, b, key, a);
    }
  }

  lemma FinishPublishes(s: Sys, t: Tid, a: AuthID)
    requires t in s.threads && s.threads[t].pc.Finishing? && ThreadOK(s, t)
    ensures Publishes(s, Finish(s, t, s.threads[t].pc.task, s.threads[t].pc.final), a)
  {
  }

  lemma ResumePublishes(s: Sys, t: Tid, ch: Choice, a: AuthID)
    requires ThreadOK(s, t) && Enabled(s, t, Continue(ch))
    ensures Publishes(s, Resume(s, t, ch), a)
  {
    var pc := s.threads[t].pc;
    if pc.Finishing? {
      FinishPublishes(s, t, a);
    } else if pc.Start? {
      if pc.cred.Valid? {
        EnterPublishes(s, t, s.threads[t].auth, KeyFor(s, pc.cred), a);
      }
    } else if !pc.ReadAgain? {
      InBetween(s, t, ch);
    }
  }

  /** A step publishes a snapshot only for the slot's newest generation and only while that
      generation's config is in force. */
  lemma PublishesOnlyCurrent(states: seq<Sys>, moves: seq<Move>, i: nat, a: AuthID)
    requires IsRun(states, moves) && i < |moves|
    ensures Publishes(states[i], states[i + 1], a)
  {
    Reachable(states, moves, i);
    assert StepAt(states, moves, i);
    if moves[i].action.Continue? {
      assert ThreadOK(states[i], moves[i].tid);
      ResumePublishes(states[i], moves[i].tid, moves[i].action.choice, a);
    }
  }

  /** Config generations and auth generations never decrease, and a generation keeps its key. */
  lemma {:induction false} GenerationsGrow(states: seq<Sys>, moves: seq<Move>, i: nat, j: nat, a: AuthID)
    requires IsRun(states, moves) && i <= j < |states|
    ensures states[i].config <= states[j].config
    ensures SlotOf(states[i], a).nextAuth <= SlotOf(states[j], a).nextAuth
    ensures SlotOf(states[i], a).nextAuth == SlotOf(states[j], a).nextAuth ==> SlotOf(states[i], a).key == SlotOf(states[j], a).key
    decreases j - i
  {
    if i < j {
      GenerationsGrow(states, moves, i, j - 1, a);
      RunStep(states, moves, j - 1);
      assert SlotGrows(states[j - 1], states[j], moves[j - 1].tid, a);
    }
  }

  /** Published auth generations never decrease. */
  lemma PublishedGenerationsGrow(states: seq<Sys>, moves: seq<Move>, i: nat, j: nat, a: AuthID)
    requires IsRun(states, moves) && i <= j < |states|
    requires SlotOf(states[i], a).current.Some? && SlotOf(states[j], a).current.Some?
    ensures SlotOf(states[i], a).current.value.auth <= SlotOf(states[j], a).current.value.auth
  {
    GenerationsGrow(states, moves, i, j, a);
    Reachable(states, moves, i);
    Reachable(states, moves, j);
    assert SlotOK(states[i], a) && SlotOK(states[j], a);
  }

  /** Currency of a registered generation, once lost, is never regained. */
  lemma LostCurrencyStaysLost(states: seq<Sys>, moves: seq<Move>, i: nat, j: nat, task: Task, u: Tid)
    requires IsRun(states, moves) && i <= j < |states| && TaskOK(states[i], u, task) && !Current(states[i], task)
    ensures !Current(states[j], task)
  {
    GenerationsGrow(states, moves, i, j, task.auth);
  }

  lemma EnterReturnsAt(s: Sys, t: Tid, a: AuthID, key: Key)
    requires t in s.threads
    ensures Enter(s, t, a, key).threads[t].pc.Return? ==> Enter(s, t, a, key).threads[t].pc.at == s.config
  {
  }

  /** The step that makes a goroutine return records the config generation in force. */
  lemma ReturnsAt(s: Sys, t: Tid, ch: Choice)
    requires Enabled(s, t, Continue(ch)) && t in Resume(s, t, ch).threads && Resume(s, t, ch).threads[t].pc.Return?
    ensures Resume(s, t, ch).threads[t].pc.at == s.config
  {
    var pc := s.threads[t].pc;
    if pc.Start? {
      if pc.cred.Valid? {
        EnterReturnsAt(s, t, s.threads[t].auth, KeyFor(s, pc.cred));
      }
    } else if !pc.ReadAgain? && !pc.Finishing? {
      InBetween(s, t, ch);
    }
  }

  /** No bootstrap and no lock-free read returns an executable snapshot of a config
      generation other than the one in force, and what it returns was complete and persisted. */
  lemma ReturnsOnlyInForce(states: seq<Sys>, moves: seq<Move>, i: nat, t: Tid, r: Snapshot, at: nat)
    requires IsRun(states, moves) && i < |moves|
    requires t in states[i].threads && !states[i].threads[t].pc.Return?
    requires t in states[i + 1].threads && states[i + 1].threads[t].pc == Return(r, at)
    ensures at == states[i].config && SnapshotOK(states[i + 1].store, r) && FreshFor(r.config, r.modelSource, r.catalog)
    ensures Executable(r.state) ==> r.config == states[i].config
  {
    var s, s', m := states[i], states[i + 1], moves[i];
    Reachable(states, moves, i);
    Reachable(states, moves, i + 1);
    assert StepAt(states, moves, i) && ThreadOK(s', t);
    RunStep(states, moves, i);
    assert m.tid == t;
    ReturnsAt(s, t, m.action.choice);
  }

  // ------------------------------------------------------------ one flight per generation

  /** The upstream fetch that a step starts. */
  function StartsFetch(s: Sys, m: Move): Option<Fetched> {
    if !m.action.Continue? || m.tid !in s.threads then None
    else
      match s.threads[m.tid].pc
      case LoadingCache(task, _, _) => Some(CatalogFetch(task.auth, task.gen))
      case MetaEnter(task, _) =>
        if s.meta.call.None? && !(s.meta.result.Some? && s.meta.result.value.metadata.Some?)
        then Some(MetadataFetch(task.auth, task.gen)) else None
      case _ => None
  }

  lemma {:induction false} FetchedGrows(states: seq<Sys>, moves: seq<Move>, i: nat, j: nat)
    requires IsRun(states, moves) && i <= j < |states|
    ensures states[i].fetched <= states[j].fetched
    decreases j - i
  {
    if i < j {
      FetchedGrows(states, moves, i, j - 1);
      assert StepAt(states, moves, j - 1);
      FetchedStep(states[j - 1], moves[j - 1]);
    }
  }

  lemma FetchedStep(s: Sys, m: Move)
    requires Enabled(s, m.tid, m.action)
    ensures s.fetched <= Apply(s, m.tid, m.action).fetched
    ensures StartsFetch(s, m).Some? ==> StartsFetch(s, m).value in Apply(s, m.tid, m.action).fetched
  {
    if m.action.Continue? {
      var pc := s.threads[m.tid].pc;
      if pc.Fetching? || pc.LoadingShared? || pc.AwaitPeers? {
        ResumeIsCatalog(s, m.tid, m.action.choice);
        CatalogPhase(s, m.tid, pc, m.action.choice);
      } else if pc.MetaFetching? {
        ResumeIsMetadata(s, m.tid, m.action.choice);
        FlightEnds(s, m.tid, m.action.choice);
      }
    }
  }

  /** No two steps of a run start the same kind of fetch for the same auth generation. */
  lemma OneFetchPerGeneration(states: seq<Sys>, moves: seq<Move>, i: nat, j: nat)
    requires IsRun(states, moves) && i < j < |moves|
    requires StartsFetch(states[i], moves[i]).Some? && StartsFetch(states[j], moves[j]).Some?
    ensures StartsFetch(states[i], moves[i]) != StartsFetch(states[j], moves[j])
  {
    assert StepAt(states, moves, i);
    FetchedStep(states[i], moves[i]);
    FetchedGrows(states, moves, i + 1, j);
    Reachable(states, moves, j);
    assert ThreadOK(states[j], moves[j].tid);
  }

  /** A Loading snapshot that readers can see has an unfinished registered call of exactly
      its generation, held by a goroutine that will close its channel. */
  lemma LoadingHasFlight(states: seq<Sys>, moves: seq<Move>, i: nat, a: AuthID)
    requires IsRun(states, moves) && i < |states|
    requires Visible(SlotOf(states[i], a).current, states[i].config).state == Loading
    ensures var s, slot := states[i], SlotOf(states[i], a);
            var gen := slot.current.value.auth;
            && gen in slot.calls && slot.calls[gen] < |s.owner| && slot.calls[gen] !in s.closes
            && WorksOn(s, s.owner[slot.calls[gen]].tid, a, gen, slot.calls[gen])
  {
    Reachable(states, moves, i);
    assert SlotOK(states[i], a);
    assert CallOK(states[i], a, SlotOf(states[i], a).current.value.auth);
  }

  // ------------------------------------------------------------ catalog commits

  lemma StoreStep(s: Sys, s': Sys, m: Move, id: Sha)
    requires IsStep(s, s', m)
    ensures SavesOf(s.store, id) <= SavesOf(s'.store, id)
  {
    if m.action.Continue? {
      ResumeStore(s, m.tid, m.action.choice, id);
    }
  }

  lemma CatalogStore(s: Sys, t: Tid, pc: PC, ch: Choice, id: Sha)
    requires t in s.threads
    ensures SavesOf(s.store, id) <= SavesOf(ResumeCatalog(s, t, pc, ch).store, id)
  {
  }

  lemma MetadataStore(s: Sys, t: Tid, pc: PC, ch: Choice)
    requires t in s.threads
    ensures ResumeMetadata(s, t, pc, ch).store.saves == s.store.saves
  {
    if pc.MetaFetching? && Current(s, pc.task) {
      CommitStore(s, t, pc, MetaOutcome(pc.cachedMeta, pc.readFailed, s.meta.version, ch.fetch, ch.save),
                  NewsOf(pc.cachedMeta, s.meta.version, ch.fetch, ch.save));
    }
  }

  lemma CommitStore(s: Sys, t: Tid, pc: PC, r: MetaResult, news: News)
    requires t in s.threads && pc.MetaFetching?
    ensures CommitMetadata(s, t, pc, r, news).store.saves == s.store.saves
  {
  }

  lemma ResumeStore(s: Sys, t: Tid, ch: Choice, id: Sha)
    requires t in s.threads
    ensures SavesOf(s.store, id) <= SavesOf(Resume(s, t, ch).store, id)
  {
    var pc := s.threads[t].pc;
    if pc.Fetching? || pc.LoadingShared? || pc.AwaitPeers? {
      ResumeIsCatalog(s, t, ch);
      CatalogStore(s, t, pc, ch, id);
    } else if pc.Selected? || pc.MetaEnter? || pc.AwaitMeta? || pc.MetaFetching? {
      ResumeIsMetadata(s, t, ch);
      MetadataStore(s, t, pc, ch);
    }
  }

  lemma {:induction false} SavesGrow(states: seq<Sys>, moves: seq<Move>, i: nat, j: nat, id: Sha)
    requires IsRun(states, moves) && i <= j < |states|
    ensures SavesOf(states[i].store, id) <= SavesOf(states[j].store, id)
    decreases j - i
  {
    if i < j {
      SavesGrow(states, moves, i, j - 1, id);
      assert StepAt(states, moves, j - 1);
      StoreStep(states[j - 1], states[j], moves[j - 1], id);
    }
  }

  /** The successful saves of an identity strictly increase in (config generation, call
      sequence), and no later write leaves an older catalog than any of them on disk. */
  lemma NewerCatalogSurvives(states: seq<Sys>, moves: seq<Move>, i: nat, j: nat, id: Sha, k: nat)
    requires IsRun(states, moves) && i <= j < |states| && k < |SavesOf(states[i].store, id)|
    ensures Increasing(SavesOf(states[j].store, id))
    ensures SavesOf(states[i].store, id) <= SavesOf(states[j].store, id)
    ensures id in states[j].store.disk && !Before(states[j].store.disk[id], SavesOf(states[i].store, id)[k])
  {
    SavesGrow(states, moves, i, j, id);
    Reachable(states, moves, j);
    assert LogOK(states[j], id);
    var log := SavesOf(states[j].store, id);
    assert log[k] == SavesOf(states[i].store, id)[k];
    assert k < |log| - 1 ==> Before(log[k], log[|log| - 1]);
  }

  lemma MetadataConfirms(s: Sys, t: Tid, pc: PC, ch: Choice)
    requires t in s.threads && (pc.Selected? || pc.MetaEnter? || pc.AwaitMeta?)
    ensures ResumeMetadata(s, t, pc, ch).store == s.store
  {
  }

  lemma CatalogConfirms(s: Sys, t: Tid, pc: PC, ch: Choice)
    requires t in s.threads && (pc.Fetching? || pc.LoadingShared? || pc.AwaitPeers?)
    ensures ResumeCatalog(s, t, pc, ch).store.confirmed == s.store.confirmed
  {
  }

  /** The flight fetches records under a new name, or learns that those it has are unchanged. */
  predicate FlightConfirms(s: Sys, m: Move, v: nat) {
    && m.action.Continue? && m.tid in s.threads && s.threads[m.tid].pc.MetaFetching?
    && ((m.action.choice.fetch == FetchOK && v == s.meta.version)
        || (m.action.choice.fetch == NotModified && s.threads[m.tid].pc.cachedMeta == Some(v)))
  }

  /** Outside of a metadata flight nothing is confirmed. */
  lemma ResumeConfirms(s: Sys, t: Tid, ch: Choice)
    requires t in s.threads && !s.threads[t].pc.MetaFetching?
    ensures Resume(s, t, ch).store.confirmed == s.store.confirmed
  {
    var pc := s.threads[t].pc;
    if pc.Fetching? || pc.LoadingShared? || pc.AwaitPeers? {
      ResumeIsCatalog(s, t, ch);
      CatalogConfirms(s, t, pc, ch);
    } else if pc.Selected? || pc.MetaEnter? || pc.AwaitMeta? {
      ResumeIsMetadata(s, t, ch);
      MetadataConfirms(s, t, pc, ch);
    }
  }

  lemma FlightNews(s: Sys, t: Tid, ch: Choice, v: nat)
    requires t in s.threads && s.threads[t].pc.MetaFetching?
    requires v in Resume(s, t, ch).store.confirmed && v !in s.store.confirmed
    ensures v in NewsOf(s.threads[t].pc.cachedMeta, s.meta.version, ch.fetch, ch.save).confirmed
  {
    ResumeIsMetadata(s, t, ch);
    FlightEnds(s, t, ch);
  }

  lemma StepConfirms(s: Sys, m: Move, v: nat)
    requires Enabled(s, m.tid, m.action) && v in Apply(s, m.tid, m.action).store.confirmed && v !in s.store.confirmed
    ensures FlightConfirms(s, m, v)
  {
    if m.action.Continue? {
      if s.threads[m.tid].pc.MetaFetching? {
        FlightNews(s, m.tid, m.action.choice, v);
      } else {
        ResumeConfirms(s, m.tid, m.action.choice);
      }
    }
  }

  /** Metadata records count as confirmed only after a flight of the run has fetched them, under
      a name that no earlier records have, or was told that they are unchanged. */
  lemma {:induction false} ConfirmedByFlight(states: seq<Sys>, moves: seq<Move>, i: nat, v: nat) returns (k: nat)
    requires IsRun(states, moves) && i < |states| && v in states[i].store.confirmed
    ensures k < i && FlightConfirms(states[k], moves[k], v)
    ensures moves[k].action.choice.fetch == FetchOK ==> v !in states[k].store.metaWritten
    decreases i
  {
    assert StepAt(states, moves, i - 1);
    if v in states[i - 1].store.confirmed {
      k := ConfirmedByFlight(states, moves, i - 1, v);
    } else {
      k := i - 1;
      Reachable(states, moves, k);
      StepConfirms(states[k], moves[k], v);
    }
  }

  /** Every published executable snapshot has both sources available, and a Ready one was
      built from sources that were fresh and had been written to the cache directory. A fresh
      catalog was fetched by this process under the snapshot's own config generation, even
      when the call read it back from disk because another one had committed it; fresh metadata
      was fetched, or found to be unchanged, by a flight of this process. */
  lemma PublishedSources(states: seq<Sys>, moves: seq<Move>, i: nat, a: AuthID)
    requires IsRun(states, moves) && i < |states| && SlotOf(states[i], a).current.Some?
    ensures var sn := SlotOf(states[i], a).current.value;
            SnapshotOK(states[i].store, sn) && FreshFor(sn.config, sn.modelSource, sn.catalog) && sn.metaSource != Unset
  {
    Reachable(states, moves, i);
    assert SlotOK(states[i], a);
  }

  // ------------------------------------------------------------ waiting

  predicate Awaits(pc: PC, c: Chan) {
    match pc
    case AwaitAuth(d) => c == d
    case AwaitPeers(_, waits, _) => c in waits
    case AwaitMeta(_, _, d) => c == d
    case _ => false
  }

  lemma AwaitedIsKnown(s: Sys, t: Tid, c: Chan)
    requires ThreadOK(s, t) && t in s.threads && Awaits(s.threads[t].pc, c)
    ensures c < |s.owner|
  {
  }

  /** Goroutine `t` receives from an unclosed channel that `u` must close. */
  ghost predicate WaitsFor(s: Sys, t: Tid, u: Tid) {
    t in s.threads && exists c: Chan :: Awaits(s.threads[t].pc, c) && c < |s.owner| && c !in s.closes && s.owner[c].tid == u
  }

  function Rank(pc: PC): nat {
    if pc.AwaitAuth? then 2 else if pc.AwaitPeers? || pc.AwaitMeta? then 1 else 0
  }

  lemma WaitsDownward(s: Sys, t: Tid, u: Tid)
    requires Inv(s) && WaitsFor(s, t, u)
    ensures u in s.threads && Rank(s.threads[u].pc) < Rank(s.threads[t].pc)
  {
    var c: Chan :| Awaits(s.threads[t].pc, c) && c < |s.owner| && c !in s.closes && s.owner[c].tid == u;
    assert ThreadOK(s, t) && ChanOK(s, c);
  }

  lemma {:induction false} RanksFall(s: Sys, path: seq<Tid>)
    requires Inv(s) && 2 <= |path| && forall i :: 0 <= i < |path| - 1 ==> WaitsFor(s, path[i], path[i + 1])
    ensures path[0] in s.threads && path[|path| - 1] in s.threads
    ensures Rank(s.threads[path[|path| - 1]].pc) < Rank(s.threads[path[0]].pc)
  {
    assert WaitsFor(s, path[0], path[1]);
    WaitsDownward(s, path[0], path[1]);
    if 2 < |path| {
      forall i | 0 <= i < |path[1..]| - 1 ensures WaitsFor(s, path[1..][i], path[1..][i + 1]) {
        assert WaitsFor(s, path[i + 1], path[i + 2]);
      }
      RanksFall(s, path[1..]);
    }
  }

  /** The waits-for relation has no cycle in any reachable state. */
  lemma WaitsForIsAcyclic(states: seq<Sys>, moves: seq<Move>, i: nat, path: seq<Tid>)
    requires IsRun(states, moves) && i < |states|
    requires 2 <= |path| && forall k :: 0 <= k < |path| - 1 ==> WaitsFor(states[i], path[k], path[k + 1])
    ensures path[0] != path[|path| - 1]
  {
    Reachable(states, moves, i);
    RanksFall(states[i], path);
  }

  /** While some goroutine has not returned, some goroutine can move. */
  lemma {:induction false} NoDeadlock(states: seq<Sys>, moves: seq<Move>, i: nat, t: Tid, ch: Choice) returns (u: Tid)
    requires IsRun(states, moves) && i < |states|
    requires t in states[i].threads && !states[i].threads[t].pc.Return?
    ensures Enabled(states[i], u, Continue(ch))
    decreases if t in states[i].threads then Rank(states[i].threads[t].pc) else 0
  {
    var s := states[i];
    Reachable(states, moves, i);
    if !Blocked(s, s.threads[t].pc) {
      return t;
    }
    assert ThreadOK(s, t);
    var c: Chan :| Awaits(s.threads[t].pc, c) && c !in s.closes;
    AwaitedIsKnown(s, t, c);
    assert WaitsFor(s, t, s.owner[c].tid);
    assert ChanOK(s, c);
    WaitsDownward(s, t, s.owner[c].tid);
    u := NoDeadlock(states, moves, i, s.owner[c].tid, ch);
  }

  /** A call waits for its peers only after it has closed its own channel and left the active set. */
  lemma SettledBeforeWaiting(states: seq<Sys>, moves: seq<Move>, i: nat, t: Tid, id: Sha, c: Chan)
    requires IsRun(states, moves) && i < |states|
    requires t in states[i].threads && states[i].threads[t].pc.AwaitPeers?
    requires c < |states[i].owner| && states[i].owner[c] == Owner(t, IdentityDone(id))
    ensures c in states[i].closes && c !in IdentOf(states[i], id).active
  {
    Reachable(states, moves, i);
    assert ChanOK(states[i], c) && IdentOK(states[i], id) && ActiveOK(states[i], id, c);
  }

  /** No channel is closed twice, and a goroutine that has returned has closed all of its own. */
  lemma ClosedExactlyOnce(states: seq<Sys>, moves: seq<Move>, i: nat)
    requires IsRun(states, moves) && i < |states|
    ensures NoDuplicates(states[i].closes)
    ensures forall c: Chan :: c < |states[i].owner| && c !in states[i].closes ==>
              var t := states[i].owner[c].tid; t in states[i].threads && !states[i].threads[t].pc.Return?
  {
    Reachable(states, moves, i);
    forall c: Chan | c < |states[i].owner| && c !in states[i].closes
      ensures var t := states[i].owner[c].tid; t in states[i].threads && !states[i].threads[t].pc.Return?
    {
      assert ChanOK(states[i], c);
    }
  }
}
