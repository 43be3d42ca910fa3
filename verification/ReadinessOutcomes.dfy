/**
 What a finished call publishes, told by the events of the run alone: what the call itself
 fetched, saved and found on disk, and what the metadata flights fetched and saved.
 */
module ReadinessOutcomes {
  import opened Common
  import opened ModelReadiness
  import opened ReadinessInvariant
  import opened ReadinessTheorems

  // ------------------------------------------------------------ the events

  datatype CatalogFact =
    | CatalogOpen
    | Configured
    | Fetched(stamp: Stamp)
    | Kept(stamp: Stamp, why: ErrorCode)
    | NoCatalog(why: ErrorCode)

  datatype MetaFact =
    | MetaOpen
    | Confirmed(version: nat)
    | Held(version: nat, why: ErrorCode)
    | NoMeta(why: ErrorCode)

  /** What has happened to one goroutine's call: whether models were configured when it
      registered, what it first found on disk, why its own fetch or save gave nothing, what its
      own metadata flight started from, and what has come of both sources. */
  datatype Story = Story(
    configured: bool, first: Option<Stamp>, unreadable: bool, failure: ErrorCode, catalog: CatalogFact,
    known: Option<nat>, knownFailed: bool, meta: MetaFact)

  const UNTOLD := Story(false, None, false, NoError, CatalogOpen, None, false, MetaOpen)

  /** What the metadata flights have found so far: each by its channel, what stands as the
      result, and the last records found. */
  datatype Flights = Flights(results: map<Chan, MetaFact>, settled: MetaFact, held: Option<nat>)

  /** The goroutine's generation is the newest of its slot, under the config in force. */
  predicate KeptGeneration(s: Sys, task: Task) {
    && task.auth in s.slots && s.slots[task.auth].key == task.key
    && s.slots[task.auth].nextAuth == task.gen && s.config == task.key.config
  }

  function OnDisk(s: Sys, task: Task, readable: bool): Option<Stamp> {
    if readable && task.key.ForAuth? && task.key.identity in s.store.disk then Some(s.store.disk[task.key.identity]) else None
  }

  /** The last save of the identity was of this config generation, by a call that started later. */
  predicate Overtaken(s: Sys, task: Task, sequence: nat) {
    && task.key.ForAuth? && task.key.identity in s.store.saves && s.store.saves[task.key.identity] != []
    && var log := s.store.saves[task.key.identity];
       log[|log| - 1].config == task.key.config && sequence < log[|log| - 1].sequence
  }

  function TellFetch(st: Story, s: Sys, task: Task, sequence: nat, ch: Choice): Story {
    if ch.fetch != FetchOK then st.(failure := WorkBuddyFailure)
    else if Overtaken(s, task, sequence) then st
    else if ch.save == Saved then st.(catalog := Fetched(Stamp(task.key.config, sequence)))
    else st.(failure := if st.unreadable then CacheRead else CacheWrite)
  }

  function TellShared(st: Story, disk: Option<Stamp>): Story {
    st.(catalog :=
          if disk.Some? then Fetched(disk.value)
          else if st.first.Some? then Kept(st.first.value, CacheRead)
          else NoCatalog(CacheRead))
  }

  function TellReload(st: Story, disk: Option<Stamp>, readable: bool): Story {
    var why := if readable then st.failure else CacheRead;
    st.(catalog := if disk.Some? then Kept(disk.value, why) else NoCatalog(why))
  }

  /** What a metadata flight finds that started from the records `known`. */
  function FlightFinds(known: Option<nat>, knownFailed: bool, version: nat, ch: Choice): MetaFact {
    if ch.fetch == FetchOK && ch.save == Saved then Confirmed(version)
    else if ch.fetch == NotModified && known.Some? then Confirmed(known.value)
    else
      var why := if ch.fetch != FetchOK then ModelsDevFailure else if knownFailed then CacheRead else CacheWrite;
      if known.Some? then Held(known.value, why) else NoMeta(why)
  }

  predicate HasMeta(m: MetaFact) {
    m.Confirmed? || m.Held?
  }

  function TellMeta(st: Story, fl: Flights, s: Sys, pc: PC, ch: Choice): Story {
    match pc
    case MetaEnter(_, _) =>
      if HasMeta(fl.settled) then st.(meta := fl.settled)
      else if s.meta.call.None? then st.(known := fl.held, knownFailed := fl.settled == NoMeta(CacheRead))
      else st
    case AwaitMeta(_, _, c) => if c in fl.results then st.(meta := fl.results[c]) else st
    case MetaFetching(task, _, _, _, _) =>
      if KeptGeneration(s, task) then st.(meta := FlightFinds(st.known, st.knownFailed, s.meta.version, ch)) else st
    case _ => st
  }

  /** What a step of the goroutine itself adds to its story. */
  function Tell(st: Story, fl: Flights, s: Sys, pc: PC, ch: Choice): Story {
    match pc
    case Start(_) => st.(configured := s.configured)
    case Registered(_) => if st.configured then st.(catalog := Configured) else st
    case LoadingCache(task, _, _) => st.(first := OnDisk(s, task, ch.readable), unreadable := !ch.readable)
    case Fetching(task, _, n, _, _) => TellFetch(st, s, task, n, ch)
    case LoadingShared(task, _) => TellShared(st, OnDisk(s, task, ch.readable))
    case AwaitPeers(task, _, _) => TellReload(st, OnDisk(s, task, ch.readable), ch.readable)
    case _ => TellMeta(st, fl, s, pc, ch)
  }

  /** What the end of a metadata flight adds to what all calls know. */
  function Land(fl: Flights, chan: Chan, found: MetaFact, readFailed: bool): Flights {
    Flights(
      fl.results[chan := found],
      if HasMeta(found) then found else if readFailed then NoMeta(CacheRead) else MetaOpen,
      if HasMeta(found) then Some(found.version) else fl.held)
  }

  /** The goroutine that takes the move, when it is a step of its own. */
  predicate Steps(s: Sys, m: Move) {
    m.action.Continue? && m.tid in s.threads
  }

  function StoryOf(states: seq<Sys>, moves: seq<Move>, t: Tid, n: nat): Story
    requires n <= |moves| < |states|
    decreases n, 1
  {
    if n == 0 then UNTOLD
    else
      var st, s, m := StoryOf(states, moves, t, n - 1), states[n - 1], moves[n - 1];
      if m.tid == t && Steps(s, m)
      then Tell(st, FlightsOf(states, moves, n - 1), s, s.threads[t].pc, m.action.choice) else st
  }

  function FlightsOf(states: seq<Sys>, moves: seq<Move>, n: nat): Flights
    requires n <= |moves| < |states|
    decreases n, 0
  {
    if n == 0 then Flights(map[], if states[0].meta.result.Some? then NoMeta(CacheRead) else MetaOpen, states[0].meta.cache)
    else
      var fl, s, m := FlightsOf(states, moves, n - 1), states[n - 1], moves[n - 1];
      if Steps(s, m) && s.threads[m.tid].pc.MetaFetching? && KeptGeneration(s, s.threads[m.tid].pc.task) then
        var st := StoryOf(states, moves, m.tid, n - 1);
        Land(fl, s.threads[m.tid].pc.chan, FlightFinds(st.known, st.knownFailed, s.meta.version, m.action.choice), st.knownFailed)
      else fl
  }

  // ------------------------------------------------------------ what is published

  predicate NewCatalog(c: CatalogFact) {
    c.Configured? || c.Fetched?
  }

  predicate HasCatalog(c: CatalogFact) {
    NewCatalog(c) || c.Kept?
  }

  function StampOf(c: CatalogFact): Option<Stamp> {
    if c.Fetched? || c.Kept? then Some(c.stamp) else None
  }

  function VersionOf(m: MetaFact): Option<nat> {
    if HasMeta(m) then Some(m.version) else None
  }

  function CatalogSource(c: CatalogFact): Source {
    match c
    case Configured => Config
    case Fetched(_) => Fresh
    case Kept(_, _) => Cache
    case _ => Nothing
  }

  function MetaSource(m: MetaFact): Source {
    if m.Confirmed? then Fresh else if m.Held? then Cache else Nothing
  }

  function CatalogFault(c: CatalogFact): ErrorCode {
    if c.Kept? || c.NoCatalog? then c.why else NoError
  }

  function MetaFault(m: MetaFact): ErrorCode {
    if m.Held? || m.NoMeta? then m.why else NoError
  }

  /** The call's own generation and identity. */
  predicate Own(sn: Snapshot, task: Task) {
    && sn.config == task.key.config && sn.auth == task.gen
    && task.key.ForAuth? && sn.identity == task.key.identity
  }

  /** The snapshot of a call without a usable cache directory. */
  predicate NoStore(sn: Snapshot, st: Story) {
    && sn.state == Failed && sn.error == CacheRead && sn.catalog == None && sn.metadata == None
    && sn.modelSource == (if st.configured then Config else Nothing) && sn.metaSource == Nothing
  }

  /** Ready if the catalog is new and the metadata confirmed, Stale if both are there otherwise,
      Failed if one of them is missing. The catalog's fault, if it has one, is the one reported. */
  predicate Outcome(sn: Snapshot, c: CatalogFact, m: MetaFact) {
    && (sn.state == Ready <==> NewCatalog(c) && m.Confirmed?)
    && (sn.state == Stale <==> HasCatalog(c) && HasMeta(m) && !(NewCatalog(c) && m.Confirmed?))
    && (sn.state == Failed <==> !HasCatalog(c) || !HasMeta(m))
    && sn.catalog == StampOf(c) && sn.modelSource == CatalogSource(c)
    && sn.metadata == VersionOf(m) && sn.metaSource == MetaSource(m)
    && sn.error == (if sn.state == Ready then NoError else if CatalogFault(c) != NoError then CatalogFault(c) else MetaFault(m))
  }

  predicate Publishable(sn: Snapshot, task: Task, st: Story, usable: bool) {
    Own(sn, task) && if usable then !st.catalog.CatalogOpen? && !st.meta.MetaOpen? && Outcome(sn, st.catalog, st.meta) else NoStore(sn, st)
  }

  // ------------------------------------------------------------ story and state agree

  function ResultFor(m: MetaFact): Option<MetaResult> {
    if m.MetaOpen? then None else Some(MetaResult(MetaSource(m), MetaFault(m), VersionOf(m)))
  }

  ghost predicate FlightsTold(s: Sys, fl: Flights) {
    && s.meta.cache == fl.held && s.meta.result == ResultFor(fl.settled)
    && s.meta.done.Keys == fl.results.Keys
    && (forall c :: c in fl.results ==> Some(s.meta.done[c]) == ResultFor(fl.results[c]))
  }

  predicate SelectionTold(sel: Selection, c: CatalogFact) {
    !c.CatalogOpen? && sel == Selection(CatalogSource(c), CatalogFault(c), StampOf(c))
  }

  predicate PcTold(s: Sys, pc: PC, st: Story) {
    match pc
    case Registered(task) => task.configured == st.configured
    case Fetching(_, _, _, cached, failed) => cached == st.first && failed == st.unreadable
    case LoadingShared(_, cached) => cached == st.first
    case AwaitPeers(_, _, failure) => failure == st.failure
    case Selected(_, sel) => SelectionTold(sel, st.catalog)
    case MetaEnter(_, sel) => SelectionTold(sel, st.catalog)
    case AwaitMeta(_, sel, _) => SelectionTold(sel, st.catalog)
    case MetaFetching(_, sel, _, cached, failed) => SelectionTold(sel, st.catalog) && cached == st.known && failed == st.knownFailed
    case Finishing(task, final) => Current(s, task) ==> Publishable(final, task, st, s.storeUsable)
    case _ => true
  }

  /** Past the registration a call works on a usable cache directory, or is about to fail. */
  predicate StoreTold(s: Sys, pc: PC) {
    HasTask(pc) && !pc.Registered? && !pc.Finishing? ==> s.storeUsable
  }

  predicate Told(s: Sys, t: Tid, st: Story) {
    t in s.threads ==> PcTold(s, s.threads[t].pc, st) && StoreTold(s, s.threads[t].pc)
  }

  lemma CurrentIsKept(s: Sys, task: Task)
    requires task.key.ForAuth?
    ensures Current(s, task) <==> KeptGeneration(s, task)
  {
  }

  lemma DiskIsOnDisk(s: Sys, task: Task, readable: bool)
    requires task.key.ForAuth?
    ensures LoadDisk(s, task.key, readable) == OnDisk(s, task, readable)
  {
  }

  /** The committed stamp of an identity is its last save. */
  lemma SupersededIsOvertaken(s: Sys, task: Task, sequence: nat)
    requires task.key.ForAuth? && LogOK(s, IdentityOf(task.key))
    ensures Superseded(s, task, sequence) <==> Overtaken(s, task, sequence)
  {
  }

  lemma OutcomeIsTold(s: Sys, task: Task, sel: Selection, st: Story, m: MetaFact)
    requires task.key.ForAuth? && SelectionTold(sel, st.catalog) && !m.MetaOpen? && s.storeUsable
    ensures Publishable(BuildSnapshot(task, sel, ResultFor(m).value), task, st.(meta := m), s.storeUsable)
  {
  }

  // ------------------------------------------------------------ a goroutine's own steps

  lemma RegisterTold(s: Sys, t: Tid, a: AuthID, key: Key, st: Story)
    requires t in s.threads
    ensures Told(Enter(s, t, a, key), t, st.(configured := s.configured))
  {
  }

  lemma OpeningTold(s: Sys, t: Tid, ch: Choice, st: Story, fl: Flights)
    requires t in s.threads && Told(s, t, st) && ThreadOK(s, t)
    requires var pc := s.threads[t].pc; pc.Registered? || pc.LoadingCache?
    ensures Told(Resume(s, t, ch), t, Tell(st, fl, s, s.threads[t].pc, ch))
  {
    if s.threads[t].pc.LoadingCache? {
      DiskIsOnDisk(s, s.threads[t].pc.task, ch.readable);
    }
  }

  lemma SaveTold(s: Sys, t: Tid, pc: PC, save: Save, st: Story)
    requires t in s.threads && pc.Fetching? && PcTold(s, pc, st) && s.storeUsable
    ensures var s' := SaveOwn(s, t, pc.task, pc.chan, pc.sequence, pc.cacheError, save);
            Told(s', t, if save == Saved then st.(catalog := Fetched(Stamp(pc.task.key.config, pc.sequence)))
                        else st.(failure := if st.unreadable then CacheRead else CacheWrite))
  {
  }

  lemma LostTold(s: Sys, t: Tid, pc: PC, st: Story)
    requires t in s.threads && pc.Fetching? && !Current(s, pc.task)
    ensures Told(SaveLost(s, t, pc.task, pc.chan), t, st)
  {
    LostStaysLost(s, SaveLost(s, t, pc.task, pc.chan), pc.task);
  }

  lemma FetchTold(s: Sys, t: Tid, ch: Choice, st: Story)
    requires t in s.threads && Told(s, t, st) && ThreadOK(s, t) && s.threads[t].pc.Fetching?
    requires LogOK(s, IdentityOf(s.threads[t].pc.task.key))
    ensures var pc := s.threads[t].pc;
            Told(ResumeCatalog(s, t, pc, ch), t, TellFetch(st, s, pc.task, pc.sequence, ch))
  {
    var pc := s.threads[t].pc;
    SupersededIsOvertaken(s, pc.task, pc.sequence);
    if ch.fetch == FetchOK {
      if !Current(s, pc.task) {
        LostTold(s, t, pc, TellFetch(st, s, pc.task, pc.sequence, ch));
      } else if !Superseded(s, pc.task, pc.sequence) {
        SaveTold(s, t, pc, ch.save, st);
      }
    }
  }

  lemma LostStaysLost(s: Sys, s': Sys, task: Task)
    requires s'.slots == s.slots && s'.config == s.config && !Current(s, task)
    ensures !Current(s', task)
  {
  }

  lemma SharedSelection(disk: Option<Stamp>, st: Story)
    ensures SelectionTold(SelectCatalog(disk, st.first, CacheRead), TellShared(st, disk).catalog)
  {
  }

  lemma ReloadSelection(disk: Option<Stamp>, readable: bool, st: Story)
    ensures SelectionTold(SelectCatalog(None, disk, if readable then st.failure else CacheRead), TellReload(st, disk, readable).catalog)
  {
  }

  lemma SharedTold(s: Sys, t: Tid, ch: Choice, st: Story, fl: Flights)
    requires t in s.threads && Told(s, t, st) && ThreadOK(s, t) && s.threads[t].pc.LoadingShared?
    ensures Told(ResumeCatalog(s, t, s.threads[t].pc, ch), t, Tell(st, fl, s, s.threads[t].pc, ch))
  {
    DiskIsOnDisk(s, s.threads[t].pc.task, ch.readable);
    SharedSelection(OnDisk(s, s.threads[t].pc.task, ch.readable), st);
  }

  lemma ReloadTold(s: Sys, t: Tid, ch: Choice, st: Story, fl: Flights)
    requires t in s.threads && Told(s, t, st) && ThreadOK(s, t) && s.threads[t].pc.AwaitPeers?
    ensures Told(ResumeCatalog(s, t, s.threads[t].pc, ch), t, Tell(st, fl, s, s.threads[t].pc, ch))
  {
    DiskIsOnDisk(s, s.threads[t].pc.task, ch.readable);
    ReloadSelection(OnDisk(s, s.threads[t].pc.task, ch.readable), ch.readable, st);
  }

  lemma SelectedTold(s: Sys, t: Tid, ch: Choice, st: Story, fl: Flights)
    requires t in s.threads && Told(s, t, st) && ThreadOK(s, t) && s.threads[t].pc.Selected?
    ensures Told(ResumeMetadata(s, t, s.threads[t].pc, ch), t, st)
  {
    if !Current(s, s.threads[t].pc.task) {
      LostStaysLost(s, ResumeMetadata(s, t, s.threads[t].pc, ch), s.threads[t].pc.task);
    }
  }

  lemma JoinTold(s: Sys, t: Tid, ch: Choice, st: Story, fl: Flights)
    requires t in s.threads && Told(s, t, st) && ThreadOK(s, t) && FlightsTold(s, fl) && s.threads[t].pc.AwaitMeta?
    ensures Told(ResumeMetadata(s, t, s.threads[t].pc, ch), t, TellMeta(st, fl, s, s.threads[t].pc, ch))
  {
    var pc := s.threads[t].pc;
    if pc.chan in s.meta.done {
      assert Some(s.meta.done[pc.chan]) == ResultFor(fl.results[pc.chan]);
      OutcomeIsTold(s, pc.task, pc.sel, st, fl.results[pc.chan]);
    }
  }

  /** What stands as the result has metadata exactly if the flights say so. */
  lemma SettledIsTold(s: Sys, fl: Flights)
    requires FlightsTold(s, fl)
    ensures s.meta.result.Some? && s.meta.result.value.metadata.Some? <==> HasMeta(fl.settled)
    ensures HasMeta(fl.settled) ==> s.meta.result == ResultFor(fl.settled)
    ensures !HasMeta(fl.settled) ==>
              (s.meta.result.Some? && s.meta.result.value.error == CacheRead <==> fl.settled == NoMeta(CacheRead))
  {
  }

  lemma FlightStartTold(s: Sys, t: Tid, task: Task, sel: Selection, st: Story, fl: Flights)
    requires t in s.threads && FlightsTold(s, fl) && !HasMeta(fl.settled) && SelectionTold(sel, st.catalog) && s.storeUsable
    ensures Told(StartMetadata(s, t, task, sel), t, st.(known := fl.held, knownFailed := fl.settled == NoMeta(CacheRead)))
  {
    SettledIsTold(s, fl);
  }

  lemma EnterTold(s: Sys, t: Tid, ch: Choice, st: Story, fl: Flights)
    requires t in s.threads && Told(s, t, st) && ThreadOK(s, t) && FlightsTold(s, fl) && s.threads[t].pc.MetaEnter?
    ensures var pc := s.threads[t].pc; Told(EnterMetadata(s, t, pc.task, pc.sel), t, TellMeta(st, fl, s, pc, ch))
  {
    var pc := s.threads[t].pc;
    SettledIsTold(s, fl);
    if HasMeta(fl.settled) {
      OutcomeIsTold(s, pc.task, pc.sel, st, fl.settled);
    } else if s.meta.call.None? {
      FlightStartTold(s, t, pc.task, pc.sel, st, fl);
    }
  }

  lemma FoundIsOutcome(known: Option<nat>, failed: bool, version: nat, ch: Choice)
    ensures ResultFor(FlightFinds(known, failed, version, ch)) == Some(MetaOutcome(known, failed, version, ch.fetch, ch.save))
  {
  }

  lemma FlightTold(s: Sys, t: Tid, ch: Choice, st: Story, fl: Flights)
    requires t in s.threads && Told(s, t, st) && ThreadOK(s, t) && s.threads[t].pc.MetaFetching?
    ensures Told(ResumeMetadata(s, t, s.threads[t].pc, ch), t, TellMeta(st, fl, s, s.threads[t].pc, ch))
  {
    var pc := s.threads[t].pc;
    FlightEnds(s, t, ch);
    CurrentIsKept(s, pc.task);
    if Current(s, pc.task) {
      var found := FlightFinds(st.known, st.knownFailed, s.meta.version, ch);
      FoundIsOutcome(st.known, st.knownFailed, s.meta.version, ch);
      OutcomeIsTold(s, pc.task, pc.sel, st, found);
      CommittedTold(s, t, ch, found);
    } else {
      LostStaysLost(s, AbandonMetadata(s, t, pc.task, pc.sel, pc.chan), pc.task);
    }
  }

  lemma CommittedTold(s: Sys, t: Tid, ch: Choice, found: MetaFact)
    requires t in s.threads && s.threads[t].pc.MetaFetching?
    ensures var pc := s.threads[t].pc;
            var r := MetaOutcome(pc.cachedMeta, pc.readFailed, s.meta.version, ch.fetch, ch.save);
            var s' := CommitMetadata(s, t, pc, r, NewsOf(pc.cachedMeta, s.meta.version, ch.fetch, ch.save));
            t in s'.threads && s'.threads[t].pc == Finishing(pc.task, BuildSnapshot(pc.task, pc.sel, r)) && s'.storeUsable == s.storeUsable
  {
  }

  lemma CatalogTold(s: Sys, t: Tid, ch: Choice, st: Story, fl: Flights)
    requires Inv(s) && t in s.threads && Told(s, t, st)
    requires var pc := s.threads[t].pc; pc.Fetching? || pc.LoadingShared? || pc.AwaitPeers?
    ensures Told(Resume(s, t, ch), t, Tell(st, fl, s, s.threads[t].pc, ch))
  {
    assert ThreadOK(s, t) && LogOK(s, IdentityOf(s.threads[t].pc.task.key));
    ResumeIsCatalog(s, t, ch);
    if s.threads[t].pc.Fetching? {
      FetchTold(s, t, ch, st);
    } else if s.threads[t].pc.LoadingShared? {
      SharedTold(s, t, ch, st, fl);
    } else {
      ReloadTold(s, t, ch, st, fl);
    }
  }

  lemma MetadataTold(s: Sys, t: Tid, ch: Choice, st: Story, fl: Flights)
    requires Inv(s) && t in s.threads && Told(s, t, st) && FlightsTold(s, fl)
    requires var pc := s.threads[t].pc; pc.Selected? || pc.MetaEnter? || pc.AwaitMeta? || pc.MetaFetching?
    ensures Told(Resume(s, t, ch), t, TellMeta(st, fl, s, s.threads[t].pc, ch))
  {
    assert ThreadOK(s, t);
    ResumeIsMetadata(s, t, ch);
    if s.threads[t].pc.Selected? {
      SelectedTold(s, t, ch, st, fl);
    } else if s.threads[t].pc.MetaEnter? {
      EnterTold(s, t, ch, st, fl);
    } else if s.threads[t].pc.AwaitMeta? {
      JoinTold(s, t, ch, st, fl);
    } else {
      FlightTold(s, t, ch, st, fl);
    }
  }

  /** Every step of a goroutine is told as it happens. */
  lemma OwnTold(s: Sys, t: Tid, ch: Choice, st: Story, fl: Flights)
    requires Inv(s) && Enabled(s, t, Continue(ch)) && Told(s, t, st) && FlightsTold(s, fl)
    ensures Told(Resume(s, t, ch), t, Tell(st, fl, s, s.threads[t].pc, ch))
  {
    var pc := s.threads[t].pc;
    if pc.Start? {
      if pc.cred.Valid? {
        RegisterTold(s, t, s.threads[t].auth, KeyFor(s, pc.cred), st);
      }
    } else if pc.Registered? || pc.LoadingCache? {
      assert ThreadOK(s, t);
      OpeningTold(s, t, ch, st, fl);
    } else if pc.Fetching? || pc.LoadingShared? || pc.AwaitPeers? {
      CatalogTold(s, t, ch, st, fl);
    } else if pc.Selected? || pc.MetaEnter? || pc.AwaitMeta? || pc.MetaFetching? {
      MetadataTold(s, t, ch, st, fl);
    } else {
      RestTold(s, t, ch, st, fl);
    }
  }

  lemma RestTold(s: Sys, t: Tid, ch: Choice, st: Story, fl: Flights)
    requires Enabled(s, t, Continue(ch))
    requires var pc := s.threads[t].pc; pc.AwaitAuth? || pc.ReadConfig? || pc.ReadSlot? || pc.ReadAgain? || pc.Finishing?
    ensures Told(Resume(s, t, ch), t, Tell(st, fl, s, s.threads[t].pc, ch))
  {
  }

  // ------------------------------------------------------------ steps of others, and the flights

  lemma FlightsStart(s: Sys)
    requires Init(s)
    ensures FlightsTold(s, Flights(map[], if s.meta.result.Some? then NoMeta(CacheRead) else MetaOpen, s.meta.cache))
  {
  }

  /** Outside of the end of a flight, the results of flights stay as they are. */
  predicate SameMeta(s: Sys, s': Sys) {
    s'.meta.cache == s.meta.cache && s'.meta.result == s.meta.result && s'.meta.done == s.meta.done && s'.storeUsable == s.storeUsable
  }

  lemma FetchingSame(s: Sys, t: Tid, pc: PC, ch: Choice)
    requires t in s.threads && pc.Fetching?
    ensures SameMeta(s, ResumeCatalog(s, t, pc, ch))
  {
  }

  lemma CatalogSame(s: Sys, t: Tid, pc: PC, ch: Choice)
    requires t in s.threads && (pc.Fetching? || pc.LoadingShared? || pc.AwaitPeers?)
    ensures SameMeta(s, ResumeCatalog(s, t, pc, ch))
  {
    if pc.Fetching? {
      FetchingSame(s, t, pc, ch);
    } else if pc.LoadingShared? {
      assert SameMeta(s, ResumeCatalog(s, t, pc, ch));
    } else {
      assert SameMeta(s, ResumeCatalog(s, t, pc, ch));
    }
  }

  lemma MetadataSame(s: Sys, t: Tid, pc: PC, ch: Choice)
    requires t in s.threads && (pc.Selected? || pc.MetaEnter? || pc.AwaitMeta?)
    ensures SameMeta(s, ResumeMetadata(s, t, pc, ch))
  {
  }

  lemma EnterSame(s: Sys, t: Tid, a: AuthID, key: Key)
    requires t in s.threads
    ensures SameMeta(s, Enter(s, t, a, key))
  {
  }

  lemma StepSame(s: Sys, m: Move)
    requires Enabled(s, m.tid, m.action)
    requires !(Steps(s, m) && s.threads[m.tid].pc.MetaFetching?)
    ensures SameMeta(s, Apply(s, m.tid, m.action))
  {
    if m.action.Continue? {
      var t, pc, ch := m.tid, s.threads[m.tid].pc, m.action.choice;
      if pc.Fetching? || pc.LoadingShared? || pc.AwaitPeers? {
        ResumeIsCatalog(s, t, ch);
        CatalogSame(s, t, pc, ch);
      } else if pc.Selected? || pc.MetaEnter? || pc.AwaitMeta? {
        ResumeIsMetadata(s, t, ch);
        MetadataSame(s, t, pc, ch);
      } else if pc.Start? && pc.cred.Valid? {
        EnterSame(s, t, s.threads[t].auth, KeyFor(s, pc.cred));
      }
    }
  }

  lemma LandTold(s: Sys, t: Tid, ch: Choice, st: Story, fl: Flights)
    requires t in s.threads && s.threads[t].pc.MetaFetching? && FlightsTold(s, fl) && PcTold(s, s.threads[t].pc, st)
    ensures var pc := s.threads[t].pc;
            var r := MetaOutcome(pc.cachedMeta, pc.readFailed, s.meta.version, ch.fetch, ch.save);
            var s' := CommitMetadata(s, t, pc, r, NewsOf(pc.cachedMeta, s.meta.version, ch.fetch, ch.save));
            FlightsTold(s', Land(fl, pc.chan, FlightFinds(st.known, st.knownFailed, s.meta.version, ch), st.knownFailed))
  {
    FoundIsOutcome(st.known, st.knownFailed, s.meta.version, ch);
  }

  lemma FlightsStep(s: Sys, m: Move, st: Story, fl: Flights)
    requires Inv(s) && Enabled(s, m.tid, m.action) && FlightsTold(s, fl) && Told(s, m.tid, st)
    ensures Apply(s, m.tid, m.action).storeUsable == s.storeUsable
    ensures FlightsTold(Apply(s, m.tid, m.action),
                        if Steps(s, m) && s.threads[m.tid].pc.MetaFetching? && KeptGeneration(s, s.threads[m.tid].pc.task)
                        then Land(fl, s.threads[m.tid].pc.chan, FlightFinds(st.known, st.knownFailed, s.meta.version, m.action.choice), st.knownFailed)
                        else fl)
  {
    if Steps(s, m) && s.threads[m.tid].pc.MetaFetching? {
      var t, pc, ch := m.tid, s.threads[m.tid].pc, m.action.choice;
      assert ThreadOK(s, t);
      ResumeIsMetadata(s, t, ch);
      FlightEnds(s, t, ch);
      CurrentIsKept(s, pc.task);
      if Current(s, pc.task) {
        LandTold(s, t, ch, st, fl);
      }
    } else {
      StepSame(s, m);
    }
  }

  lemma OtherTold(s: Sys, s': Sys, u: Tid, t: Tid, st: Story)
    requires Rely(s, s', u) && u != t && ThreadOK(s, t) && Told(s, t, st) && s'.storeUsable == s.storeUsable
    ensures Told(s', t, st)
  {
    if t in s.threads && s.threads[t].pc.Finishing? && !Current(s, s.threads[t].pc.task) {
      assert SlotGrows(s, s', u, s.threads[t].pc.task.auth);
      LostForGood(s, s', u, t, s.threads[t].pc.task);
    }
  }

  lemma StepOfOther(s: Sys, m: Move, t: Tid, st: Story)
    requires Inv(s) && Enabled(s, m.tid, m.action) && Told(s, t, st) && m.tid != t
    requires Apply(s, m.tid, m.action).storeUsable == s.storeUsable
    ensures Told(Apply(s, m.tid, m.action), t, st)
  {
    StepKeepsInvariant(s, m.tid, m.action);
    assert ThreadOK(s, t);
    OtherTold(s, Apply(s, m.tid, m.action), m.tid, t, st);
  }

  lemma StepTold(s: Sys, m: Move, t: Tid, st: Story, fl: Flights)
    requires Inv(s) && Enabled(s, m.tid, m.action) && Told(s, t, st) && FlightsTold(s, fl)
    requires Apply(s, m.tid, m.action).storeUsable == s.storeUsable
    ensures Told(Apply(s, m.tid, m.action), t,
                 if m.tid == t && Steps(s, m) then Tell(st, fl, s, s.threads[t].pc, m.action.choice) else st)
  {
    if m.tid != t {
      StepOfOther(s, m, t, st);
    } else if m.action.Continue? {
      OwnTold(s, t, m.action.choice, st, fl);
    }
  }

  /** The stories of all goroutines agree with the state, in every interleaving. */
  lemma {:induction false} RunIsTold(states: seq<Sys>, moves: seq<Move>, n: nat)
    requires IsRun(states, moves) && n <= |moves|
    ensures FlightsTold(states[n], FlightsOf(states, moves, n)) && states[n].storeUsable == states[0].storeUsable
    ensures forall t :: Told(states[n], t, StoryOf(states, moves, t, n))
  {
    if n == 0 {
      FlightsStart(states[0]);
    } else {
      RunIsTold(states, moves, n - 1);
      Reachable(states, moves, n - 1);
      assert StepAt(states, moves, n - 1);
      var s, m, fl := states[n - 1], moves[n - 1], FlightsOf(states, moves, n - 1);
      assert Told(s, m.tid, StoryOf(states, moves, m.tid, n - 1));
      FlightsStep(s, m, StoryOf(states, moves, m.tid, n - 1), fl);
      forall t ensures Told(states[n], t, StoryOf(states, moves, t, n)) {
        assert Told(s, t, StoryOf(states, moves, t, n - 1));
        StepTold(s, m, t, StoryOf(states, moves, t, n - 1), fl);
      }
    }
  }

  /** A call that ends with its generation kept publishes and returns a snapshot that is Ready,
      Stale or Failed exactly as its own fetch, its save, the disk and the metadata flights have
      turned out in the run. */
  lemma PublishedOutcome(states: seq<Sys>, moves: seq<Move>, i: nat, task: Task, final: Snapshot)
    requires IsRun(states, moves) && i < |moves| && Steps(states[i], moves[i])
    requires states[i].threads[moves[i].tid].pc == Finishing(task, final) && KeptGeneration(states[i], task)
    ensures var t, st := moves[i].tid, StoryOf(states, moves, moves[i].tid, i);
            && task.auth in states[i + 1].slots && states[i + 1].slots[task.auth].current.Some?
            && var sn := states[i + 1].slots[task.auth].current.value;
               && t in states[i + 1].threads && states[i + 1].threads[t].pc == Return(sn, states[i].config)
               && Publishable(sn, task, st, states[0].storeUsable)
  {
    RunIsTold(states, moves, i);
    assert StepAt(states, moves, i);
    assert Told(states[i], moves[i].tid, StoryOf(states, moves, moves[i].tid, i));
  }

  /** A call that has lost its generation publishes nothing. It returns what is published for its
      account under the config in force, if anything is. */
  lemma LostOutcome(states: seq<Sys>, moves: seq<Move>, i: nat, task: Task, final: Snapshot)
    requires IsRun(states, moves) && i < |moves| && Steps(states[i], moves[i])
    requires states[i].threads[moves[i].tid].pc == Finishing(task, final) && !KeptGeneration(states[i], task)
    ensures var s, s', t := states[i], states[i + 1], moves[i].tid;
            var current := SlotOf(s, task.auth).current;
            && SlotOf(s', task.auth).current == current
            && t in s'.threads && s'.threads[t].pc.Return? && s'.threads[t].pc.at == s.config
            && if current.Some? && current.value.config == s.config then s'.threads[t].pc.result == current.value
               else s'.threads[t].pc.result == Snapshot(NotStarted, Nothing, Nothing, NoError, s.config, 0, "", None, None)
  {
    Reachable(states, moves, i);
    assert StepAt(states, moves, i) && ThreadOK(states[i], moves[i].tid);
    CurrentIsKept(states[i], task);
  }

  // ------------------------------------------------------------ a bootstrap that runs alone

  const SMOOTH := Choice(true, FetchOK, Saved)

  ghost predicate AllReturned(s: Sys) {
    forall u :: u in s.threads ==> s.threads[u].pc.Return?
  }

  ghost predicate NoCalls(s: Sys) {
    forall a :: a in s.slots ==> s.slots[a].calls == map[]
  }

  lemma SomeoneWorks(s: Sys, c: Chan)
    requires ChanOK(s, c) && c < |s.owner| && c !in s.closes
    ensures !AllReturned(s)
  {
  }

  /** Nobody works on a call or a flight. */
  lemma IdleRuntime(s: Sys)
    requires Inv(s) && AllReturned(s)
    ensures s.meta.call.None? && NoCalls(s)
  {
    if s.meta.call.Some? {
      SomeoneWorks(s, s.meta.call.value);
    }
    forall a | a in s.slots ensures s.slots[a].calls == map[] {
      forall g ensures g !in s.slots[a].calls {
        assert CallOK(s, a, g);
      }
    }
  }

  /** The goroutine has come to `pc`; its generation is kept and the metadata still as it was. */
  predicate Alone(s: Sys, t: Tid, pc: PC, meta: Meta) {
    && t in s.threads && s.threads[t].pc == pc && HasTask(pc) && Current(s, pc.task) && s.storeUsable
    && s.meta == meta && meta.call.None? && !(meta.result.Some? && meta.result.value.metadata.Some?)
  }

  /** The first steps: a new generation registers its call. */
  lemma AloneRegisters(s: Sys, t: Tid, a: AuthID, cred: Credential) returns (task: Task)
    requires Inv(s) && t in s.threads && s.threads[t] == Thread(a, Start(cred)) && cred.Valid?
    requires s.meta.call.None? && NoCalls(s) && s.storeUsable
    requires !(s.meta.result.Some? && s.meta.result.value.metadata.Some?)
    requires SlotOf(s, a).key != ForAuth(s.config, cred.token, cred.identity)
    ensures var s' := Resume(s, t, SMOOTH);
            && Alone(s', t, Registered(task), s.meta) && s'.idents == s.idents && s'.store == s.store && s'.config == s.config
            && task.key == ForAuth(s.config, cred.token, cred.identity) && task.auth == a && task.configured == s.configured
  {
    assert SlotOK(s, a);
    var s' := Resume(s, t, SMOOTH);
    var key := KeyFor(s, cred);
    assert s' == Register(s, t, a, key);
    task := s'.threads[t].pc.task;
  }

  lemma AloneStartsCall(s: Sys, t: Tid, task: Task)
    requires Alone(s, t, Registered(task), s.meta) && !task.configured && task.key.ForAuth?
    ensures var s' := Resume(s, t, SMOOTH);
            var n := IdentOf(s, task.key.identity).nextSeq + 1;
            && Alone(s', t, LoadingCache(task, |s.owner|, n), s.meta) && s'.store == s.store && s'.config == s.config
            && IdentOf(s', task.key.identity).committed == IdentOf(s, task.key.identity).committed
  {
  }

  lemma AloneFetches(s: Sys, t: Tid, task: Task, call: Chan, n: nat)
    requires Alone(s, t, LoadingCache(task, call, n), s.meta) && task.key.ForAuth?
    ensures var s' := Resume(s, t, SMOOTH);
            && t in s'.threads && s'.threads[t].pc.Fetching? && s'.threads[t].pc.chan == call && s'.threads[t].pc.sequence == n
            && s'.threads[t].pc.task == task && Alone(s', t, s'.threads[t].pc, s.meta) && s'.store == s.store
            && s'.idents == s.idents && s'.config == s.config
  {
  }

  lemma AloneSaves(s: Sys, t: Tid, pc: PC)
    requires pc.Fetching? && Alone(s, t, pc, s.meta) && pc.task.key.ForAuth?
    requires IdentOf(s, pc.task.key.identity).committed.sequence < pc.sequence
    ensures var s', stamp := Resume(s, t, SMOOTH), Stamp(pc.task.key.config, pc.sequence);
            && Alone(s', t, Selected(pc.task, Selection(Fresh, NoError, Some(stamp))), s.meta) && s'.config == s.config
            && pc.task.key.identity in s'.store.disk && s'.store.disk[pc.task.key.identity] == stamp
  {
    ResumeIsCatalog(s, t, SMOOTH);
    assert Resume(s, t, SMOOTH) == SaveOwn(s, t, pc.task, pc.chan, pc.sequence, pc.cacheError, Saved);
    SavedAlone(s, t, pc);
  }

  lemma SavedAlone(s: Sys, t: Tid, pc: PC)
    requires pc.Fetching? && Alone(s, t, pc, s.meta) && pc.task.key.ForAuth?
    ensures var s', stamp := SaveOwn(s, t, pc.task, pc.chan, pc.sequence, pc.cacheError, Saved), Stamp(pc.task.key.config, pc.sequence);
            && Alone(s', t, Selected(pc.task, Selection(Fresh, NoError, Some(stamp))), s.meta) && s'.config == s.config
            && pc.task.key.identity in s'.store.disk && s'.store.disk[pc.task.key.identity] == stamp
  {
  }

  lemma AloneAsks(s: Sys, t: Tid, task: Task, sel: Selection)
    requires Alone(s, t, Selected(task, sel), s.meta)
    ensures var s' := Resume(s, t, SMOOTH);
            Alone(s', t, MetaEnter(task, sel), s.meta) && s'.store == s.store && s'.config == s.config
  {
    ResumeIsMetadata(s, t, SMOOTH);
  }

  lemma AloneFlies(s: Sys, t: Tid, task: Task, sel: Selection)
    requires Alone(s, t, MetaEnter(task, sel), s.meta)
    ensures var s' := Resume(s, t, SMOOTH);
            && t in s'.threads && s'.threads[t].pc.MetaFetching? && s'.threads[t].pc.task == task && s'.threads[t].pc.sel == sel
            && Current(s', task) && s'.meta.version == s.meta.version && s'.store == s.store && s'.config == s.config
  {
    ResumeIsMetadata(s, t, SMOOTH);
    assert EnterMetadata(s, t, task, sel) == StartMetadata(s, t, task, sel);
    FliesAlone(s, t, task, sel);
  }

  lemma FliesAlone(s: Sys, t: Tid, task: Task, sel: Selection)
    requires Alone(s, t, MetaEnter(task, sel), s.meta)
    ensures var s' := StartMetadata(s, t, task, sel);
            && t in s'.threads && s'.threads[t].pc.MetaFetching? && s'.threads[t].pc.task == task && s'.threads[t].pc.sel == sel
            && Current(s', task) && s'.meta.version == s.meta.version && s'.store == s.store && s'.config == s.config
  {
  }

  lemma AloneLands(s: Sys, t: Tid)
    requires t in s.threads && s.threads[t].pc.MetaFetching? && Current(s, s.threads[t].pc.task) && s.threads[t].pc.task.key.ForAuth?
    requires NewSelection(s.threads[t].pc.sel)
    ensures var s', pc := Resume(s, t, SMOOTH), s.threads[t].pc;
            && t in s'.threads && s'.threads[t].pc.Finishing? && s'.threads[t].pc.task == pc.task && Current(s', pc.task)
            && IsReady(s'.threads[t].pc.final, pc.task, pc.sel, s.meta.version) && s'.store.disk == s.store.disk && s'.config == s.config
  {
    ResumeIsMetadata(s, t, SMOOTH);
    FlightEnds(s, t, SMOOTH);
    var pc := s.threads[t].pc;
    LandsAlone(s, t, MetaOutcome(pc.cachedMeta, pc.readFailed, s.meta.version, FetchOK, Saved),
               NewsOf(pc.cachedMeta, s.meta.version, FetchOK, Saved));
  }

  lemma LandsAlone(s: Sys, t: Tid, r: MetaResult, news: News)
    requires t in s.threads && s.threads[t].pc.MetaFetching? && Current(s, s.threads[t].pc.task) && s.threads[t].pc.task.key.ForAuth?
    requires NewSelection(s.threads[t].pc.sel) && r == MetaResult(Fresh, NoError, Some(s.meta.version))
    ensures var s', pc := CommitMetadata(s, t, s.threads[t].pc, r, news), s.threads[t].pc;
            && t in s'.threads && s'.threads[t].pc.Finishing? && s'.threads[t].pc.task == pc.task && Current(s', pc.task)
            && IsReady(s'.threads[t].pc.final, pc.task, pc.sel, s.meta.version) && s'.store.disk == s.store.disk && s'.config == s.config
  {
  }

  predicate NewSelection(sel: Selection) {
    (sel.source == Fresh || sel.source == Config) && sel.error == NoError
  }

  /** The snapshot is Ready and carries exactly the given sources. */
  predicate IsReady(sn: Snapshot, task: Task, sel: Selection, version: nat) {
    task.key.ForAuth? &&
    sn == Snapshot(Ready, sel.source, Fresh, NoError, task.key.config, task.gen, task.key.identity, sel.catalog, Some(version))
  }

  lemma AloneReturns(s: Sys, t: Tid)
    requires t in s.threads && s.threads[t].pc.Finishing? && Current(s, s.threads[t].pc.task)
    ensures var s', pc := Resume(s, t, SMOOTH), s.threads[t].pc;
            && t in s'.threads && s'.threads[t].pc == Return(pc.final, s.config)
            && SlotOf(s', pc.task.auth).current == Some(pc.final) && s'.store == s.store
  {
  }

  /** The moves from `from` to `to` are steps of the goroutine, in which everything goes well. */
  ghost predicate Onward(moves: seq<Move>, t: Tid, from: nat, to: nat) {
    to <= |moves| && forall k :: from <= k < to ==> moves[k] == Move(t, Continue(SMOOTH))
  }

  lemma OnwardStep(states: seq<Sys>, moves: seq<Move>, t: Tid, k: nat)
    requires IsRun(states, moves) && k < |moves| && moves[k] == Move(t, Continue(SMOOTH))
    ensures t in states[k].threads && states[k + 1] == Resume(states[k], t, SMOOTH)
  {
    assert StepAt(states, moves, k);
  }

  lemma AsksAt(states: seq<Sys>, moves: seq<Move>, t: Tid, k: nat, task: Task, sel: Selection)
    requires IsRun(states, moves) && k < |moves| && moves[k] == Move(t, Continue(SMOOTH))
    requires Alone(states[k], t, Selected(task, sel), states[k].meta)
    ensures var s, s' := states[k], states[k + 1];
            Alone(s', t, MetaEnter(task, sel), s'.meta) && s'.meta == s.meta && s'.store == s.store && s'.config == s.config
  {
    OnwardStep(states, moves, t, k);
    AloneAsks(states[k], t, task, sel);
  }

  /** The goroutine's metadata flight is on its way. */
  predicate Flying(s: Sys, t: Tid, task: Task, sel: Selection, version: nat) {
    && t in s.threads && s.threads[t].pc.MetaFetching? && s.threads[t].pc.task == task && s.threads[t].pc.sel == sel
    && Current(s, task) && s.meta.version == version
  }

  lemma FliesAt(states: seq<Sys>, moves: seq<Move>, t: Tid, k: nat, task: Task, sel: Selection)
    requires IsRun(states, moves) && k < |moves| && moves[k] == Move(t, Continue(SMOOTH))
    requires Alone(states[k], t, MetaEnter(task, sel), states[k].meta)
    ensures var s, s' := states[k], states[k + 1];
            Flying(s', t, task, sel, s.meta.version) && s'.store == s.store && s'.config == s.config
  {
    OnwardStep(states, moves, t, k);
    AloneFlies(states[k], t, task, sel);
  }

  /** The goroutine is about to publish a Ready snapshot. */
  predicate Arrived(s: Sys, t: Tid, task: Task, sel: Selection, version: nat) {
    && t in s.threads && s.threads[t].pc.Finishing? && s.threads[t].pc.task == task
    && Current(s, task) && IsReady(s.threads[t].pc.final, task, sel, version)
  }

  lemma LandsAt(states: seq<Sys>, moves: seq<Move>, t: Tid, k: nat, task: Task, sel: Selection, version: nat)
    requires IsRun(states, moves) && k < |moves| && moves[k] == Move(t, Continue(SMOOTH))
    requires Flying(states[k], t, task, sel, version) && NewSelection(sel) && task.key.ForAuth?
    ensures var s, s' := states[k], states[k + 1];
            Arrived(s', t, task, sel, version) && s'.store.disk == s.store.disk && s'.config == s.config
  {
    OnwardStep(states, moves, t, k);
    AloneLands(states[k], t);
  }

  /** The goroutine has published a Ready snapshot with the given sources, and returned it. */
  predicate Published(s: Sys, t: Tid, task: Task, sel: Selection, version: nat, config: nat) {
    && t in s.threads && s.threads[t].pc.Return? && s.threads[t].pc.at == config
    && IsReady(s.threads[t].pc.result, task, sel, version)
    && SlotOf(s, task.auth).current == Some(s.threads[t].pc.result)
  }

  lemma ReturnsReadyAt(states: seq<Sys>, moves: seq<Move>, t: Tid, k: nat, task: Task, sel: Selection, version: nat)
    requires IsRun(states, moves) && k < |moves| && moves[k] == Move(t, Continue(SMOOTH))
    requires Arrived(states[k], t, task, sel, version)
    ensures var s, s' := states[k], states[k + 1];
            Published(s', t, task, sel, version, s.config) && s'.store.disk == s.store.disk
  {
    OnwardStep(states, moves, t, k);
    AloneReturns(states[k], t);
  }

  /** From a selection to the return. */
  lemma AloneFinishes(states: seq<Sys>, moves: seq<Move>, t: Tid, k: nat, task: Task, sel: Selection)
    requires IsRun(states, moves) && Onward(moves, t, k, k + 4)
    requires Alone(states[k], t, Selected(task, sel), states[k].meta) && NewSelection(sel) && task.key.ForAuth?
    ensures Published(states[k + 4], t, task, sel, states[k].meta.version, states[k].config)
    ensures states[k + 4].store.disk == states[k].store.disk
  {
    AsksAt(states, moves, t, k, task, sel);
    FliesAt(states, moves, t, k + 1, task, sel);
    LandsAt(states, moves, t, k + 2, task, sel, states[k].meta.version);
    ReturnsReadyAt(states, moves, t, k + 3, task, sel, states[k].meta.version);
  }

  /** A new generation of a valid credential starts while nobody else is at work, in a runtime
      that has a usable cache directory and no metadata yet. */
  ghost predicate StartsAlone(s: Sys, m: Move, cred: Credential) {
    && AllReturned(s) && s.storeUsable && !(s.meta.result.Some? && s.meta.result.value.metadata.Some?)
    && m.action.Bootstrap? && m.action.cred == cred && cred.Valid?
    && SlotOf(s, m.action.auth).key != ForAuth(s.config, cred.token, cred.identity)
  }

  lemma RegistersAt(states: seq<Sys>, moves: seq<Move>, k: nat, cred: Credential) returns (task: Task)
    requires IsRun(states, moves) && k + 2 <= |moves| && StartsAlone(states[k], moves[k], cred)
    requires moves[k + 1] == Move(moves[k].tid, Continue(SMOOTH))
    ensures var s, s' := states[k], states[k + 2];
            && Alone(s', moves[k].tid, Registered(task), s'.meta) && s'.meta == s.meta && s'.idents == s.idents && s'.config == s.config
            && task.key == ForAuth(s.config, cred.token, cred.identity) && task.auth == moves[k].action.auth && task.configured == s.configured
  {
    var t := moves[k].tid;
    Reachable(states, moves, k);
    IdleRuntime(states[k]);
    assert StepAt(states, moves, k);
    assert states[k + 1] == states[k].(threads := states[k].threads[t := Thread(moves[k].action.auth, Start(cred))]);
    Reachable(states, moves, k + 1);
    OnwardStep(states, moves, t, k + 1);
    assert NoCalls(states[k + 1]);
    task := AloneRegisters(states[k + 1], t, moves[k].action.auth, cred);
  }

  lemma StartsCallAt(states: seq<Sys>, moves: seq<Move>, t: Tid, k: nat, task: Task) returns (call: Chan)
    requires IsRun(states, moves) && k < |moves| && moves[k] == Move(t, Continue(SMOOTH))
    requires Alone(states[k], t, Registered(task), states[k].meta) && !task.configured && task.key.ForAuth?
    ensures var s, s', n := states[k], states[k + 1], IdentOf(states[k], task.key.identity).nextSeq + 1;
            && Alone(s', t, LoadingCache(task, call, n), s'.meta) && s'.meta == s.meta && s'.config == s.config
            && IdentOf(s', task.key.identity).committed.sequence < n
  {
    Reachable(states, moves, k);
    assert IdentOK(states[k], task.key.identity);
    OnwardStep(states, moves, t, k);
    AloneStartsCall(states[k], t, task);
    call := |states[k].owner|;
  }

  /** The goroutine's catalog fetch is on its way, and no later call has saved. */
  predicate CallFlying(s: Sys, t: Tid, task: Task, n: nat) {
    && t in s.threads && s.threads[t].pc.Fetching? && s.threads[t].pc.task == task && s.threads[t].pc.sequence == n
    && Alone(s, t, s.threads[t].pc, s.meta)
    && IdentOf(s, IdentityOf(task.key)).committed.sequence < n
  }

  lemma FetchesAt(states: seq<Sys>, moves: seq<Move>, t: Tid, k: nat, task: Task, call: Chan, n: nat)
    requires IsRun(states, moves) && k < |moves| && moves[k] == Move(t, Continue(SMOOTH))
    requires Alone(states[k], t, LoadingCache(task, call, n), states[k].meta) && task.key.ForAuth?
    requires IdentOf(states[k], task.key.identity).committed.sequence < n
    ensures var s, s' := states[k], states[k + 1]; CallFlying(s', t, task, n) && s'.meta == s.meta && s'.config == s.config
  {
    OnwardStep(states, moves, t, k);
    AloneFetches(states[k], t, task, call, n);
  }

  lemma SavesAt(states: seq<Sys>, moves: seq<Move>, t: Tid, k: nat, task: Task, n: nat)
    requires IsRun(states, moves) && k < |moves| && moves[k] == Move(t, Continue(SMOOTH))
    requires CallFlying(states[k], t, task, n) && task.key.ForAuth?
    ensures var s, s', stamp := states[k], states[k + 1], Stamp(task.key.config, n);
            && Alone(s', t, Selected(task, Selection(Fresh, NoError, Some(stamp))), s'.meta) && s'.meta == s.meta && s'.config == s.config
            && task.key.identity in s'.store.disk && s'.store.disk[task.key.identity] == stamp
  {
    OnwardStep(states, moves, t, k);
    AloneSaves(states[k], t, states[k].threads[t].pc);
  }

  /** A bootstrap of a new generation that runs alone, with both fetches successful and saved,
      returns and publishes a Ready snapshot that carries the stamp of its own call and its own
      metadata records, and leaves its catalog on disk. */
  lemma AloneIsReady(states: seq<Sys>, moves: seq<Move>, k: nat, cred: Credential) returns (task: Task)
    requires IsRun(states, moves) && k < |moves| && StartsAlone(states[k], moves[k], cred) && !states[k].configured
    requires Onward(moves, moves[k].tid, k + 1, k + 9)
    ensures var s, s', n := states[k], states[k + 9], IdentOf(states[k], cred.identity).nextSeq + 1;
            && task.auth == moves[k].action.auth && task.key == ForAuth(s.config, cred.token, cred.identity)
            && Published(s', moves[k].tid, task, Selection(Fresh, NoError, Some(Stamp(s.config, n))), s.meta.version, s.config)
            && cred.identity in s'.store.disk && s'.store.disk[cred.identity] == Stamp(s.config, n)
  {
    var t := moves[k].tid;
    task := RegistersAt(states, moves, k, cred);
    var n := IdentOf(states[k + 2], cred.identity).nextSeq + 1;
    var call := StartsCallAt(states, moves, t, k + 2, task);
    FetchesAt(states, moves, t, k + 3, task, call, n);
    SavesAt(states, moves, t, k + 4, task, n);
    AloneFinishes(states, moves, t, k + 5, task, Selection(Fresh, NoError, Some(Stamp(task.key.config, n))));
  }

  lemma SkipsCatalogAt(states: seq<Sys>, moves: seq<Move>, t: Tid, k: nat, task: Task)
    requires IsRun(states, moves) && k < |moves| && moves[k] == Move(t, Continue(SMOOTH))
    requires Alone(states[k], t, Registered(task), states[k].meta) && task.configured
    ensures var s, s' := states[k], states[k + 1];
            Alone(s', t, Selected(task, Selection(Config, NoError, None)), s'.meta) && s'.meta == s.meta && s'.config == s.config
  {
    OnwardStep(states, moves, t, k);
  }

  /** With configured models it does without a catalog. */
  lemma AloneIsReadyConfigured(states: seq<Sys>, moves: seq<Move>, k: nat, cred: Credential) returns (task: Task)
    requires IsRun(states, moves) && k < |moves| && StartsAlone(states[k], moves[k], cred) && states[k].configured
    requires Onward(moves, moves[k].tid, k + 1, k + 7)
    ensures var s := states[k];
            && task.auth == moves[k].action.auth && task.key == ForAuth(s.config, cred.token, cred.identity)
            && Published(states[k + 7], moves[k].tid, task, Selection(Config, NoError, None), s.meta.version, s.config)
  {
    task := RegistersAt(states, moves, k, cred);
    SkipsCatalogAt(states, moves, moves[k].tid, k + 2, task);
    AloneFinishes(states, moves, moves[k].tid, k + 3, task, Selection(Config, NoError, None));
  }
}
