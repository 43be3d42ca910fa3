/**
 The model-readiness protocol of plugin/model_readiness.go.

 Every critical section of the runtime is one atomic step of a state machine, and every
 goroutine inside `ensureForAuth` or `snapshotForAuthID` carries a program counter. What
 the environment decides (a reconfiguration, the outcome of a fetch or of a file
 operation, which goroutine moves next) is an explicit `Action`.
 */
module ModelReadiness {
  import opened Common

  type AuthID = string
  type Sha = string
  type Tid = nat
  type Chan = nat

  datatype State = NotStarted | Loading | Ready | Stale | Failed

  predicate Executable(st: State) {
    st == Ready || st == Stale
  }

  /** `Unset` is the zero value of a metadata result that was abandoned. */
  datatype Source = Unset | Fresh | Cache | Config | Nothing

  datatype ErrorCode =
    | NoError | AuthInvalid | WorkBuddyFailure | ModelsDevFailure | CacheRead | CacheWrite

  /** A fetched catalog, named by the config generation and call sequence that fetched it.
      (0, 0) names a catalog left on disk by an earlier process. */
  datatype Stamp = Stamp(config: nat, sequence: nat)

  predicate Before(a: Stamp, b: Stamp) {
    a.config < b.config || (a.config == b.config && a.sequence < b.sequence)
  }

  datatype Snapshot = Snapshot(
    state: State, modelSource: Source, metaSource: Source, error: ErrorCode,
    config: nat, auth: nat, identity: Sha, catalog: Option<Stamp>, metadata: Option<nat>)

  /** `NoAuth` is a generation key without token and identity. */
  datatype Key = NoAuth(config: nat) | ForAuth(config: nat, token: nat, identity: Sha)

  datatype Slot = Slot(key: Key, nextAuth: nat, current: Option<Snapshot>, calls: map<nat, Chan>)

  datatype Ident = Ident(nextSeq: nat, committed: Stamp, active: map<Chan, nat>)

  datatype MetaResult = MetaResult(source: Source, error: ErrorCode, metadata: Option<nat>)

  /** The metadata state; `done` keeps the results of committed flights. */
  datatype Meta = Meta(
    call: Option<Chan>, cache: Option<nat>, result: Option<MetaResult>, done: map<Chan, MetaResult>, version: nat)

  /** The cache directory, with the history of what was ever written to it. `confirmed` names
      the metadata records that this process has fetched, or that the upstream has told it are
      unchanged. */
  datatype Store = Store(
    disk: map<Sha, Stamp>, saves: map<Sha, seq<Stamp>>, written: set<(Sha, Stamp)>,
    metaWritten: set<nat>, confirmed: set<nat>)

  /** The three families of `done` channels. */
  datatype Kind = AuthDone | IdentityDone(identity: Sha) | MetadataDone

  datatype Owner = Owner(tid: Tid, kind: Kind)

  /** A call registered by `ensureForAuth`. */
  datatype Task = Task(auth: AuthID, key: Key, gen: nat, done: Chan, configured: bool)

  datatype Selection = Selection(source: Source, error: ErrorCode, catalog: Option<Stamp>)

  datatype Credential = Invalid | Valid(token: nat, identity: Sha)

  datatype PC =
    | Start(cred: Credential)
    | AwaitAuth(chan: Chan)
    | ReadConfig
    | ReadSlot(seen: nat)
    // `at` is the config generation in force when the pointer was loaded.
    | ReadAgain(seen: nat, snap: Option<Snapshot>, at: nat)
    | Return(result: Snapshot, at: nat)
    | Registered(task: Task)
    | LoadingCache(task: Task, chan: Chan, sequence: nat)
    | Fetching(task: Task, chan: Chan, sequence: nat, cached: Option<Stamp>, cacheError: bool)
    | LoadingShared(task: Task, cached: Option<Stamp>)
    | AwaitPeers(task: Task, waits: set<Chan>, failure: ErrorCode)
    | Selected(task: Task, sel: Selection)
    | MetaEnter(task: Task, sel: Selection)
    | AwaitMeta(task: Task, sel: Selection, chan: Chan)
    | MetaFetching(task: Task, sel: Selection, chan: Chan, cachedMeta: Option<nat>, readFailed: bool)
    | Finishing(task: Task, final: Snapshot)

  datatype Thread = Thread(auth: AuthID, pc: PC)

  /** The two upstream fetches that one registered call performs. */
  datatype Fetched = CatalogFetch(auth: AuthID, gen: nat) | MetadataFetch(auth: AuthID, gen: nat)

  /** `owner` lists the channels in creation order with the goroutine that must close each,
      `closes` the close operations in the order they happened. */
  datatype Sys = Sys(
    storeUsable: bool,
    config: nat,
    configured: bool,
    slots: map<AuthID, Slot>,
    idents: map<Sha, Ident>,
    meta: Meta,
    store: Store,
    threads: map<Tid, Thread>,
    owner: seq<Owner>,
    closes: seq<Chan>,
    fetched: set<Fetched>)

  /** Outcome of a file replacement: `FailedAfter` replaced the file and then reported an
      error (the directory sync failed). */
  datatype Save = Saved | FailedBefore | FailedAfter

  datatype Fetch = FetchError | NotModified | FetchOK

  datatype Choice = Choice(readable: bool, fetch: Fetch, save: Save)

  datatype Action =
    | Bootstrap(auth: AuthID, cred: Credential)
    | Read(auth: AuthID)
    | Reconfigure(configured: bool)
    | MarkNotStarted(auth: AuthID)
    | Continue(choice: Choice)

  // ---------------------------------------------------------------- state access

  function SlotOf(s: Sys, a: AuthID): Slot {
    if a in s.slots then s.slots[a] else Slot(NoAuth(0), 0, None, map[])
  }

  function IdentOf(s: Sys, id: Sha): Ident {
    if id in s.idents then s.idents[id] else Ident(0, Stamp(0, 0), map[])
  }

  function SavesOf(store: Store, id: Sha): seq<Stamp> {
    if id in store.saves then store.saves[id] else []
  }

  predicate Current(s: Sys, task: Task) {
    SlotOf(s, task.auth).key == task.key && SlotOf(s, task.auth).nextAuth == task.gen && s.config == task.key.config
  }

  function GoTo(s: Sys, t: Tid, pc: PC): Sys
    requires t in s.threads
  {
    s.(threads := s.threads[t := Thread(s.threads[t].auth, pc)])
  }

  function PutSlot(s: Sys, a: AuthID, slot: Slot): Sys {
    s.(slots := s.slots[a := slot])
  }

  function PutIdent(s: Sys, id: Sha, ident: Ident): Sys {
    s.(idents := s.idents[id := ident])
  }

  /** Makes a channel that goroutine `t` must close; its name is `|s.owner|`. */
  function Open(s: Sys, t: Tid, kind: Kind): Sys {
    s.(owner := s.owner + [Owner(t, kind)])
  }

  function Close(s: Sys, c: Chan): Sys {
    s.(closes := s.closes + [c])
  }

  function Advance(slot: Slot, key: Key): Slot {
    if slot.key == key then slot else slot.(key := key, nextAuth := slot.nextAuth + 1)
  }

  function Empty(state: State, error: ErrorCode, config: nat, auth: nat, identity: Sha): Snapshot {
    Snapshot(state, Nothing, Nothing, error, config, auth, identity, None, None)
  }

  function LoadDisk(s: Sys, key: Key, readable: bool): Option<Stamp> {
    if readable && IdentityOf(key) in s.store.disk then Some(s.store.disk[IdentityOf(key)]) else None
  }

  // ---------------------------------------------------------------- pure selection

  function SelectCatalog(latest: Option<Stamp>, cached: Option<Stamp>, failure: ErrorCode): Selection {
    if latest.Some? then Selection(Fresh, NoError, latest)
    else if cached.Some? then Selection(Cache, failure, cached)
    else Selection(Nothing, failure, None)
  }

  function SelectMetadata(latest: Option<nat>, cached: Option<nat>, failure: ErrorCode): MetaResult {
    if latest.Some? then MetaResult(Fresh, NoError, latest)
    else if cached.Some? then MetaResult(Cache, failure, cached)
    else MetaResult(Nothing, failure, None)
  }

  function IdentityOf(key: Key): Sha {
    if key.ForAuth? then key.identity else ""
  }

  /** The snapshot a call hands to `finishAuthCall` once both sources are known. */
  function BuildSnapshot(task: Task, sel: Selection, meta: MetaResult): Snapshot {
    var available := sel.source != Nothing && meta.metadata.Some?;
    var ready := available && meta.source == Fresh && (sel.source == Fresh || sel.source == Config);
    var error := if ready then NoError else if sel.error != NoError then sel.error else meta.error;
    Snapshot(
      if ready then Ready else if available then Stale else Failed,
      sel.source, meta.source, error, task.key.config, task.gen, IdentityOf(task.key),
      sel.catalog, meta.metadata)
  }

  // ---------------------------------------------------------------- critical sections

  /** A slot whose credential is invalid or was withdrawn (ensureForAuth's rejection and
      markAuthNotStarted). */
  function Withdrawn(s: Sys, a: AuthID, state: State, error: ErrorCode): Slot {
    var slot := Advance(SlotOf(s, a), NoAuth(s.config));
    slot.(current := Some(Empty(state, error, s.config, slot.nextAuth, "")))
  }

  function Reject(s: Sys, t: Tid, a: AuthID): Sys
    requires t in s.threads
  {
    var slot := Withdrawn(s, a, Failed, AuthInvalid);
    GoTo(PutSlot(s, a, slot), t, Return(slot.current.value, s.config))
  }

  function Mark(s: Sys, a: AuthID): Sys {
    PutSlot(s, a, Withdrawn(s, a, NotStarted, NoError))
  }

  function KeyFor(s: Sys, cred: Credential): Key
    requires cred.Valid?
  {
    ForAuth(s.config, cred.token, cred.identity)
  }

  /** ensureForAuth, first critical section: the call becomes the one flight of its generation. */
  function Register(s: Sys, t: Tid, a: AuthID, key: Key): Sys
    requires t in s.threads
  {
    var slot, done := Advance(SlotOf(s, a), key), |s.owner|;
    var slot' := slot.(
      calls := slot.calls[slot.nextAuth := done],
      current := Some(Empty(Loading, NoError, s.config, slot.nextAuth, IdentityOf(key))));
    GoTo(Open(PutSlot(s, a, slot'), t, AuthDone), t,
         Registered(Task(a, key, slot.nextAuth, done, s.configured)))
  }

  /** ensureForAuth, first critical section: reuse, wait, or register a call. */
  function Enter(s: Sys, t: Tid, a: AuthID, key: Key): Sys
    requires t in s.threads
  {
    var slot := Advance(SlotOf(s, a), key);
    if slot.current.Some? && slot.current.value.auth == slot.nextAuth && slot.current.value.state != Loading then
      GoTo(PutSlot(s, a, slot), t, Return(slot.current.value, s.config))
    else if slot.nextAuth in slot.calls then
      GoTo(PutSlot(s, a, slot), t, AwaitAuth(slot.calls[slot.nextAuth]))
    else
      Register(s, t, a, key)
  }

  /** startIdentityCall. */
  function StartIdentity(s: Sys, t: Tid, task: Task): Sys
    requires t in s.threads
  {
    var ident, call := IdentOf(s, IdentityOf(task.key)), |s.owner|;
    var n := ident.nextSeq + 1;
    var ident' := ident.(nextSeq := n, active := ident.active[call := n]);
    GoTo(Open(PutIdent(s, IdentityOf(task.key), ident'), t, IdentityDone(IdentityOf(task.key))), t,
         LoadingCache(task, call, n))
  }

  /** settleIdentityCallLocked: leave the active set and close the call's channel. */
  function Settle(s: Sys, id: Sha, call: Chan): Sys {
    Close(PutIdent(s, id, IdentOf(s, id).(active := IdentOf(s, id).active - {call})), call)
  }

  function Peers(s: Sys, key: Key, call: Chan): set<Chan> {
    IdentOf(s, IdentityOf(key)).active.Keys - {call}
  }

  /** saveModelsForGeneration when the generation is no longer current. */
  function SaveLost(s: Sys, t: Tid, task: Task, call: Chan): Sys
    requires t in s.threads
  {
    GoTo(Settle(s, IdentityOf(task.key), call), t,
         Finishing(task, Empty(Loading, NoError, task.key.config, task.gen, IdentityOf(task.key))))
  }

  /** saveModelsForGeneration when a later call of this config generation committed first. */
  function SaveShared(s: Sys, t: Tid, task: Task, call: Chan, cached: Option<Stamp>): Sys
    requires t in s.threads
  {
    GoTo(Settle(s, IdentityOf(task.key), call), t, LoadingShared(task, cached))
  }

  function StoreCatalog(store: Store, id: Sha, stamp: Stamp, save: Save): Store {
    match save
    case FailedBefore => store
    case FailedAfter => store.(disk := store.disk[id := stamp], written := store.written + {(id, stamp)})
    case Saved =>
      store.(disk := store.disk[id := stamp], written := store.written + {(id, stamp)},
             saves := store.saves[id := SavesOf(store, id) + [stamp]])
  }

  /** The new identity slot and cache directory after an attempted catalog save. */
  function CommitCatalog(s: Sys, id: Sha, stamp: Stamp, save: Save): Sys {
    var ident := if save == Saved then IdentOf(s, id).(committed := stamp) else IdentOf(s, id);
    PutIdent(s, id, ident).(store := StoreCatalog(s.store, id, stamp, save))
  }

  /** saveModelsForGeneration when the catalog is written. */
  function SaveOwn(s: Sys, t: Tid, task: Task, call: Chan, sequence: nat, cacheError: bool, save: Save): Sys
    requires t in s.threads
  {
    var id, stamp := IdentityOf(task.key), Stamp(task.key.config, sequence);
    GoTo(Settle(CommitCatalog(s, id, stamp, save), id, call), t,
         if save == Saved then Selected(task, SelectCatalog(Some(stamp), None, NoError))
         else AwaitPeers(task, Peers(s, task.key, call), if cacheError then CacheRead else CacheWrite))
  }

  /** A newer call of the same identity and config generation has committed. */
  predicate Superseded(s: Sys, task: Task, sequence: nat) {
    var committed := IdentOf(s, IdentityOf(task.key)).committed;
    committed.config == task.key.config && sequence < committed.sequence
  }

  /** The catalog fetch failed: settle and wait for the peers of the same identity. */
  function FailFetch(s: Sys, t: Tid, task: Task, call: Chan): Sys
    requires t in s.threads
  {
    GoTo(Settle(s, IdentityOf(task.key), call), t, AwaitPeers(task, Peers(s, task.key, call), WorkBuddyFailure))
  }

  /** metadataForAuth: become the one metadata flight. */
  function StartMetadata(s: Sys, t: Tid, task: Task, sel: Selection): Sys
    requires t in s.threads
  {
    var call := |s.owner|;
    var failed := s.meta.result.Some? && s.meta.result.value.error == CacheRead;
    GoTo(
      Open(s, t, MetadataDone).(
        meta := s.meta.(call := Some(call)), fetched := s.fetched + {MetadataFetch(task.auth, task.gen)}),
      t, MetaFetching(task, sel, call, s.meta.cache, failed))
  }

  /** metadataForAuth, the section under metadataMu. */
  function EnterMetadata(s: Sys, t: Tid, task: Task, sel: Selection): Sys
    requires t in s.threads
  {
    if s.meta.result.Some? && s.meta.result.value.metadata.Some? then
      GoTo(s, t, Finishing(task, BuildSnapshot(task, sel, s.meta.result.value)))
    else if s.meta.call.Some? then
      GoTo(s, t, AwaitMeta(task, sel, s.meta.call.value))
    else
      StartMetadata(s, t, task, sel)
  }

  /** The zero result of an abandoned metadata flight. */
  const ABANDONED := MetaResult(Unset, NoError, None)

  function Cleared(active: Option<Chan>, call: Chan): Option<Chan> {
    if active == Some(call) then None else active
  }

  /** What a metadata flight selects; `version` names the records it may have fetched. */
  function MetaOutcome(cached: Option<nat>, readFailed: bool, version: nat, fetch: Fetch, save: Save): MetaResult {
    match fetch
    case FetchError => SelectMetadata(None, cached, ModelsDevFailure)
    case NotModified => SelectMetadata(cached, cached, ModelsDevFailure)
    case FetchOK =>
      if save == Saved then SelectMetadata(Some(version), cached, NoError)
      else SelectMetadata(None, cached, if readFailed then CacheRead else CacheWrite)
  }

  /** What a metadata flight has written and what it has learned to be up to date. */
  datatype News = News(written: set<nat>, confirmed: set<nat>)

  function NewsOf(cached: Option<nat>, version: nat, fetch: Fetch, save: Save): News {
    match fetch
    case FetchError => News({}, {})
    case NotModified => News({}, if cached.Some? then {cached.value} else {})
    case FetchOK => News(if save == FailedBefore then {} else {version}, {version})
  }

  function SettledMeta(meta: Meta, call: Chan, r: MetaResult, readFailed: bool): Meta {
    Meta(
      Cleared(meta.call, call),
      if r.metadata.Some? then r.metadata else meta.cache,
      if r.metadata.Some? then Some(r) else if readFailed then Some(MetaResult(Nothing, CacheRead, None)) else None,
      meta.done[call := r],
      meta.version + 1)
  }

  /** metadataForAuth, the commit section of a flight whose generation is no longer current. */
  function AbandonMetadata(s: Sys, t: Tid, task: Task, sel: Selection, call: Chan): Sys
    requires t in s.threads
  {
    GoTo(Close(s, call).(meta := s.meta.(call := Cleared(s.meta.call, call))), t,
         Finishing(task, BuildSnapshot(task, sel, ABANDONED)))
  }

  /** metadataForAuth, the commit section. */
  function CommitMetadata(s: Sys, t: Tid, pc: PC, r: MetaResult, news: News): Sys
    requires t in s.threads && pc.MetaFetching?
  {
    GoTo(
      Close(s, pc.chan).(
        meta := SettledMeta(s.meta, pc.chan, r, pc.readFailed),
        store := s.store.(metaWritten := s.store.metaWritten + news.written, confirmed := s.store.confirmed + news.confirmed)),
      t, Finishing(pc.task, BuildSnapshot(pc.task, pc.sel, r)))
  }

  /** finishAuthCall: the slot it leaves behind. */
  function Finished(s: Sys, task: Task, snap: Snapshot): Slot {
    var slot := SlotOf(s, task.auth);
    slot.(
      current := if Current(s, task) then Some(snap) else slot.current,
      calls := if task.gen in slot.calls && slot.calls[task.gen] == task.done then slot.calls - {task.gen} else slot.calls)
  }

  function Visible(current: Option<Snapshot>, config: nat): Snapshot {
    if current.Some? && current.value.config == config then current.value
    else Empty(NotStarted, NoError, config, 0, "")
  }

  function Finish(s: Sys, t: Tid, task: Task, snap: Snapshot): Sys
    requires t in s.threads
  {
    var result := if Current(s, task) then snap else Visible(SlotOf(s, task.auth).current, s.config);
    GoTo(Close(PutSlot(s, task.auth, Finished(s, task, snap)), task.done), t, Return(result, s.config))
  }

  // ---------------------------------------------------------------- the step function

  /** A goroutine that receives from a channel is blocked until the channel is closed. */
  predicate Blocked(s: Sys, pc: PC) {
    match pc
    case AwaitAuth(c) => c !in s.closes
    case AwaitPeers(_, waits, _) => exists c :: c in waits && c !in s.closes
    case AwaitMeta(_, _, c) => c !in s.closes
    case _ => false
  }

  predicate Enabled(s: Sys, t: Tid, a: Action) {
    match a
    case Continue(_) => t in s.threads && !s.threads[t].pc.Return? && !Blocked(s, s.threads[t].pc)
    case _ => t !in s.threads
  }

  function ResumeReader(s: Sys, t: Tid, pc: PC): Sys
    requires t in s.threads
  {
    match pc
    case ReadSlot(c) => GoTo(s, t, ReadAgain(c, SlotOf(s, s.threads[t].auth).current, s.config))
    case ReadAgain(c, snap, _) =>
      if s.config != c then GoTo(s, t, ReadConfig) else GoTo(s, t, Return(Visible(snap, c), c))
    case _ => GoTo(s, t, ReadSlot(s.config))
  }

  function ResumeCatalog(s: Sys, t: Tid, pc: PC, ch: Choice): Sys
    requires t in s.threads
  {
    match pc
    case Fetching(task, c, n, cached, cacheError) =>
      if ch.fetch != FetchOK then FailFetch(s, t, task, c)
      else if !Current(s, task) then SaveLost(s, t, task, c)
      else if Superseded(s, task, n) then SaveShared(s, t, task, c, cached)
      else SaveOwn(s, t, task, c, n, cacheError, ch.save)
    case LoadingShared(task, cached) =>
      GoTo(s, t, Selected(task, SelectCatalog(LoadDisk(s, task.key, ch.readable), cached, CacheRead)))
    case AwaitPeers(task, _, failure) =>
      GoTo(s, t, Selected(task, SelectCatalog(None, LoadDisk(s, task.key, ch.readable),
                                              if ch.readable then failure else CacheRead)))
    case _ => s
  }

  function ResumeMetadata(s: Sys, t: Tid, pc: PC, ch: Choice): Sys
    requires t in s.threads
  {
    match pc
    case Selected(task, sel) =>
      if Current(s, task) then GoTo(s, t, MetaEnter(task, sel))
      else GoTo(s, t, Finishing(task, BuildSnapshot(task, sel, ABANDONED)))
    case MetaEnter(task, sel) => EnterMetadata(s, t, task, sel)
    case AwaitMeta(task, sel, c) =>
      if c in s.meta.done then GoTo(s, t, Finishing(task, BuildSnapshot(task, sel, s.meta.done[c])))
      else GoTo(s, t, Selected(task, sel))
    case MetaFetching(task, sel, c, cached, failed) =>
      if !Current(s, task) then AbandonMetadata(s, t, task, sel, c)
      else CommitMetadata(s, t, pc, MetaOutcome(cached, failed, s.meta.version, ch.fetch, ch.save),
                          NewsOf(cached, s.meta.version, ch.fetch, ch.save))
    case _ => s
  }

  /** What ensureForAuth does right after registering its call. */
  function Proceed(s: Sys, t: Tid, task: Task): Sys
    requires t in s.threads
  {
    if !s.storeUsable then
      GoTo(s, t, Finishing(task, Empty(Failed, CacheRead, task.key.config, task.gen, IdentityOf(task.key))
                                 .(modelSource := if task.configured then Config else Nothing)))
    else if task.configured then GoTo(s, t, Selected(task, Selection(Config, NoError, None)))
    else StartIdentity(s, t, task)
  }

  /** LoadingCache: read the cached catalog, then start the upstream fetch. */
  function StartFetch(s: Sys, t: Tid, task: Task, call: Chan, sequence: nat, readable: bool): Sys
    requires t in s.threads
  {
    GoTo(s.(fetched := s.fetched + {CatalogFetch(task.auth, task.gen)}), t,
         Fetching(task, call, sequence, LoadDisk(s, task.key, readable), !readable))
  }

  function Resume(s: Sys, t: Tid, ch: Choice): Sys
    requires t in s.threads
  {
    var pc := s.threads[t].pc;
    match pc
    case Start(cred) =>
      if cred.Invalid? then Reject(s, t, s.threads[t].auth) else Enter(s, t, s.threads[t].auth, KeyFor(s, cred))
    case AwaitAuth(_) => GoTo(s, t, ReadConfig)
    case Return(_, _) => s
    case Registered(task) => Proceed(s, t, task)
    case LoadingCache(task, c, n) => StartFetch(s, t, task, c, n, ch.readable)
    case Finishing(task, snap) => Finish(s, t, task, snap)
    case _ =>
      if pc.ReadConfig? || pc.ReadSlot? || pc.ReadAgain? then ResumeReader(s, t, pc)
      else if pc.Fetching? || pc.LoadingShared? || pc.AwaitPeers? then ResumeCatalog(s, t, pc, ch)
      else ResumeMetadata(s, t, pc, ch)
  }

  function Apply(s: Sys, t: Tid, a: Action): Sys
    requires Enabled(s, t, a)
  {
    match a
    case Bootstrap(auth, cred) => s.(threads := s.threads[t := Thread(auth, Start(cred))])
    case Read(auth) => s.(threads := s.threads[t := Thread(auth, ReadConfig)])
    case Reconfigure(configured) => s.(config := s.config + 1, configured := configured)
    case MarkNotStarted(auth) => Mark(s, auth)
    case Continue(choice) => Resume(s, t, choice)
  }

  /** A runtime freshly built over some directory of cached catalogs. */
  ghost predicate Init(s: Sys) {
    && s.config == 0 && s.slots == map[] && s.idents == map[] && s.threads == map[]
    && s.owner == [] && s.closes == [] && s.store.saves == map[] && s.fetched == {}
    && (forall id :: id in s.store.disk ==> s.store.disk[id] == Stamp(0, 0) && (id, s.store.disk[id]) in s.store.written)
    && s.meta.call == None && s.meta.done == map[]
    && (s.meta.cache.Some? ==> s.meta.cache.value in s.store.metaWritten)
    && s.store.confirmed == {} && (forall v :: v in s.store.metaWritten ==> v < s.meta.version)
    && (s.meta.result.Some? ==> s.meta.result.value == MetaResult(Nothing, CacheRead, None))
  }
}
