/**
 The inductive invariant of the readiness protocol, and what each step of one goroutine
 guarantees to all the others.
 */
module ReadinessInvariant {
  import opened Common
  import opened ModelReadiness

  /** Ready and Stale snapshots have both sources available; Ready means both were fresh
      and had reached the cache directory. */
  predicate SnapshotOK(st: Store, sn: Snapshot) {
    && (Executable(sn.state) ==>
          && (sn.metaSource == Fresh || sn.metaSource == Cache)
          && sn.metadata.Some? && sn.metadata.value in st.metaWritten
          && (sn.modelSource == Config
              || ((sn.modelSource == Fresh || sn.modelSource == Cache) && sn.catalog.Some?
                  && (sn.identity, sn.catalog.value) in st.written)))
    && (sn.metaSource == Fresh ==> sn.metadata.Some? && sn.metadata.value in st.confirmed)
    && (sn.state == Ready ==> sn.metaSource == Fresh && sn.modelSource != Cache && sn.error == NoError)
  }

  /** A catalog is fresh for a config generation: some call of this process fetched it under
      that generation. */
  predicate FreshFor(config: nat, source: Source, catalog: Option<Stamp>) {
    source == Fresh ==> catalog.Some? && catalog.value.config == config && catalog.value.sequence > 0
  }

  /** As far as a call can know before it publishes: fetched under its generation, or under
      a later one that has come into force since. */
  predicate FreshSince(s: Sys, config: nat, source: Source, catalog: Option<Stamp>) {
    source == Fresh ==> catalog.Some? && config <= catalog.value.config <= s.config && catalog.value.sequence > 0
  }

  predicate HasTask(pc: PC) {
    || pc.Registered? || pc.LoadingCache? || pc.Fetching? || pc.LoadingShared? || pc.AwaitPeers?
    || pc.Selected? || pc.MetaEnter? || pc.AwaitMeta? || pc.MetaFetching? || pc.Finishing?
  }

  /** The goroutine at `pc` still has to close channel `c` of family `k`. */
  predicate Holds(pc: PC, c: Chan, k: Kind) {
    match k
    case AuthDone => HasTask(pc) && pc.task.done == c
    case IdentityDone(id) => (pc.LoadingCache? || pc.Fetching?) && pc.chan == c && IdentityOf(pc.task.key) == id
    case MetadataDone => pc.MetaFetching? && pc.chan == c
  }

  predicate Known(s: Sys, c: Chan, k: Kind) {
    c < |s.owner| && s.owner[c].kind == k
  }

  predicate Owns(s: Sys, t: Tid, c: Chan, k: Kind) {
    Known(s, c, k) && s.owner[c].tid == t && c !in s.closes
  }

  /** An unclosed channel has a live goroutine that will close it. */
  predicate ChanOK(s: Sys, c: Chan) {
    c < |s.owner| && c !in s.closes ==>
      s.owner[c].tid in s.threads && Holds(s.threads[s.owner[c].tid].pc, c, s.owner[c].kind)
  }

  ghost predicate ClosesOK(s: Sys) {
    NoDuplicates(s.closes) && forall c :: c in s.closes ==> c < |s.owner|
  }

  /** A registered call belongs to a live goroutine working on exactly that generation. */
  predicate CallOK(s: Sys, a: AuthID, g: nat) {
    var slot := SlotOf(s, a);
    g in slot.calls ==>
      && g <= slot.nextAuth
      && Known(s, slot.calls[g], AuthDone) && slot.calls[g] !in s.closes
      && WorksOn(s, s.owner[slot.calls[g]].tid, a, g, slot.calls[g])
  }

  predicate WorksOn(s: Sys, t: Tid, a: AuthID, g: nat, c: Chan) {
    && t in s.threads && HasTask(s.threads[t].pc)
    && s.threads[t].pc.task.auth == a && s.threads[t].pc.task.gen == g && s.threads[t].pc.task.done == c
  }

  predicate SlotOK(s: Sys, a: AuthID) {
    var slot := SlotOf(s, a);
    && slot.key.config <= s.config
    && (slot.current.None? ==> slot.nextAuth == 0 && slot.key == NoAuth(0))
    && (slot.current.Some? ==>
          var sn := slot.current.value;
          && sn.auth == slot.nextAuth && sn.config == slot.key.config && sn.identity == IdentityOf(slot.key)
          && SnapshotOK(s.store, sn) && FreshFor(sn.config, sn.modelSource, sn.catalog) && sn.metaSource != Unset
          && (sn.state == Loading && sn.config == s.config ==> slot.nextAuth in slot.calls))
  }

  ghost predicate Increasing(log: seq<Stamp>) {
    forall i, j :: 0 <= i < j < |log| ==> Before(log[i], log[j])
  }

  /** Commits of one identity grow, and the directory never holds less than the last one. */
  ghost predicate LogOK(s: Sys, id: Sha) {
    var committed, log := IdentOf(s, id).committed, SavesOf(s.store, id);
    && committed.config <= s.config
    && Increasing(log)
    && (log == [] ==> committed == Stamp(0, 0))
    && (log != [] ==> log[|log| - 1] == committed && id in s.store.disk && !Before(s.store.disk[id], committed))
    && (id in s.store.disk ==> (id, s.store.disk[id]) in s.store.written && StampOK(s, s.store.disk[id]))
  }

  /** Written by this process under a generation so far, or left by an earlier one. */
  predicate StampOK(s: Sys, stamp: Stamp) {
    stamp.config <= s.config && (stamp.sequence > 0 || stamp.config == 0)
  }

  predicate ActiveOK(s: Sys, id: Sha, c: Chan) {
    var ident := IdentOf(s, id);
    c in ident.active ==>
      && 0 < ident.active[c] <= ident.nextSeq && ident.active[c] != ident.committed.sequence
      && Known(s, c, IdentityDone(id)) && c !in s.closes
  }

  ghost predicate IdentOK(s: Sys, id: Sha) {
    var ident := IdentOf(s, id);
    && ident.committed.sequence <= ident.nextSeq
    && (forall c :: ActiveOK(s, id, c))
    && (forall c, d :: c in ident.active && d in ident.active && c != d ==> ident.active[c] != ident.active[d])
  }

  predicate ResultOK(st: Store, r: MetaResult) {
    && (r.metadata.None? ==> r.source == Nothing)
    && (r.metadata.Some? ==> (r.source == Fresh || r.source == Cache) && r.metadata.value in st.metaWritten)
    && (r.metadata.Some? && r.source == Fresh ==> r.metadata.value in st.confirmed)
  }

  ghost predicate MetaOK(s: Sys) {
    && (s.meta.call.Some? ==> Known(s, s.meta.call.value, MetadataDone) && s.meta.call.value !in s.closes)
    && (s.meta.cache.Some? ==> s.meta.cache.value in s.store.metaWritten)
    && (forall v :: v in s.store.metaWritten ==> v < s.meta.version)
    && (s.meta.result.Some? ==> ResultOK(s.store, s.meta.result.value))
    && (forall c :: c in s.meta.done ==> ResultOK(s.store, s.meta.done[c]))
  }

  predicate TaskOK(s: Sys, t: Tid, task: Task) {
    var slot := SlotOf(s, task.auth);
    && task.key.ForAuth? && task.key.config <= s.config
    && task.gen <= slot.nextAuth && (task.gen == slot.nextAuth ==> slot.key == task.key)
    && task.gen in slot.calls && slot.calls[task.gen] == task.done
    && Owns(s, t, task.done, AuthDone)
  }

  predicate SelectionOK(s: Sys, task: Task, sel: Selection) {
    && sel.source != Unset && FreshSince(s, task.key.config, sel.source, sel.catalog)
    && (sel.source == Fresh || sel.source == Cache ==>
          sel.catalog.Some? && (IdentityOf(task.key), sel.catalog.value) in s.store.written)
  }

  predicate CachedOK(s: Sys, task: Task, cached: Option<Stamp>) {
    cached.Some? ==> (IdentityOf(task.key), cached.value) in s.store.written
  }

  /** Some call of the identity has committed under this config generation or a later one. */
  predicate SharedOK(s: Sys, task: Task) {
    var committed := IdentOf(s, IdentityOf(task.key)).committed;
    task.key.config <= committed.config && committed.sequence > 0
  }

  /** Neither upstream fetch of the call has started, or only the catalog fetch has. */
  predicate Unfetched(s: Sys, pc: PC)
    requires HasTask(pc)
  {
    && (pc.Registered? || pc.LoadingCache? ==> CatalogFetch(pc.task.auth, pc.task.gen) !in s.fetched)
    && (!pc.MetaFetching? && !pc.Finishing? ==> MetadataFetch(pc.task.auth, pc.task.gen) !in s.fetched)
  }

  predicate ActiveCall(s: Sys, t: Tid, pc: PC)
    requires pc.LoadingCache? || pc.Fetching?
  {
    var ident := IdentOf(s, IdentityOf(pc.task.key));
    Owns(s, t, pc.chan, IdentityDone(IdentityOf(pc.task.key))) && pc.chan in ident.active && ident.active[pc.chan] == pc.sequence
  }

  ghost predicate PcOK(s: Sys, t: Tid, pc: PC) {
    match pc
    case AwaitAuth(c) => Known(s, c, AuthDone)
    case ReadSlot(c) => c <= s.config
    case ReadAgain(c, snap, at) =>
      && c <= at <= s.config
      && (snap.Some? ==>
            var sn := snap.value;
            sn.config <= at && SnapshotOK(s.store, sn) && FreshFor(sn.config, sn.modelSource, sn.catalog))
    case Return(r, at) =>
      && (Executable(r.state) ==> r.config == at) && at <= s.config
      && SnapshotOK(s.store, r) && FreshFor(r.config, r.modelSource, r.catalog)
    case LoadingCache(_, _, _) => ActiveCall(s, t, pc)
    case Fetching(task, _, _, cached, _) => ActiveCall(s, t, pc) && CachedOK(s, task, cached)
    case LoadingShared(task, cached) => CachedOK(s, task, cached) && SharedOK(s, task)
    case AwaitPeers(task, waits, _) => forall c :: c in waits ==> c < |s.owner| && s.owner[c].kind.IdentityDone?
    case Selected(task, sel) => SelectionOK(s, task, sel)
    case MetaEnter(task, sel) => SelectionOK(s, task, sel)
    case AwaitMeta(task, sel, c) => SelectionOK(s, task, sel) && Known(s, c, MetadataDone)
    case MetaFetching(task, sel, c, cached, _) =>
      && SelectionOK(s, task, sel) && Owns(s, t, c, MetadataDone) && s.meta.call == Some(c)
      && (cached.Some? ==> cached.value in s.store.metaWritten)
    case Finishing(task, sn) =>
      && sn.config == task.key.config && sn.auth == task.gen && sn.identity == IdentityOf(task.key) && SnapshotOK(s.store, sn)
      && FreshSince(s, sn.config, sn.modelSource, sn.catalog)
      && (sn.state == Loading || sn.metaSource == Unset ==> !Current(s, task))
    case _ => true
  }

  ghost predicate ThreadOK(s: Sys, t: Tid) {
    t in s.threads ==>
      && PcOK(s, t, s.threads[t].pc)
      && (HasTask(s.threads[t].pc) ==> TaskOK(s, t, s.threads[t].pc.task) && Unfetched(s, s.threads[t].pc))
  }

  ghost predicate FetchedOK(s: Sys) {
    forall f :: f in s.fetched ==> f.gen <= SlotOf(s, f.auth).nextAuth
  }

  ghost predicate Inv(s: Sys) {
    && (forall a :: SlotOK(s, a))
    && (forall a, g :: CallOK(s, a, g))
    && (forall id :: LogOK(s, id))
    && (forall id :: IdentOK(s, id))
    && (forall c :: ChanOK(s, c))
    && ClosesOK(s)
    && MetaOK(s)
    && FetchedOK(s)
    && (forall t :: ThreadOK(s, t))
  }

  // ------------------------------------------------------------ what a step of t may do

  predicate StoreGrows(x: Store, y: Store) {
    x.written <= y.written && x.metaWritten <= y.metaWritten && x.confirmed <= y.confirmed
  }

  ghost predicate SlotGrows(s: Sys, s': Sys, t: Tid, a: AuthID) {
    var x, y := SlotOf(s, a), SlotOf(s', a);
    && x.nextAuth <= y.nextAuth && (x.nextAuth == y.nextAuth ==> x.key == y.key)
    && (forall g :: g in x.calls && !(x.calls[g] < |s.owner| && s.owner[x.calls[g]].tid == t) ==>
                      g in y.calls && y.calls[g] == x.calls[g])
  }

  ghost predicate IdentGrows(s: Sys, s': Sys, t: Tid, id: Sha) {
    && (forall c :: c in IdentOf(s, id).active && c < |s.owner| && s.owner[c].tid != t ==>
          c in IdentOf(s', id).active && IdentOf(s', id).active[c] == IdentOf(s, id).active[c])
    && Commits(IdentOf(s, id).committed, IdentOf(s', id).committed)
  }

  /** The committed stamp stays or becomes a newer one. */
  predicate Commits(a: Stamp, b: Stamp) {
    b == a || (Before(a, b) && b.sequence > 0)
  }

  predicate MyFetch(s: Sys, t: Tid, f: Fetched) {
    t in s.threads && HasTask(s.threads[t].pc) && f.auth == s.threads[t].pc.task.auth && f.gen == s.threads[t].pc.task.gen
  }

  /** The guarantee of every step of goroutine `t`, on which all others rely. */
  ghost predicate Rely(s: Sys, s': Sys, t: Tid) {
    && s.config <= s'.config && s.owner <= s'.owner && s.closes <= s'.closes && StoreGrows(s.store, s'.store)
    && (forall u :: u != t ==> (u in s.threads <==> u in s'.threads) && (u in s.threads ==> s'.threads[u] == s.threads[u]))
    && (forall c :: c in s'.closes && c !in s.closes ==> c < |s.owner| && s.owner[c].tid == t)
    && (forall a :: SlotGrows(s, s', t, a))
    && (forall id :: IdentGrows(s, s', t, id))
    && (s.meta.call.Some? && s.meta.call.value < |s.owner| && s.owner[s.meta.call.value].tid != t ==> s'.meta.call == s.meta.call)
    && (forall f :: f in s'.fetched && f !in s.fetched ==> MyFetch(s, t, f))
  }

  /** Once a registered generation has lost currency it never regains it. */
  lemma LostForGood(s: Sys, s': Sys, t: Tid, u: Tid, task: Task)
    requires SlotGrows(s, s', t, task.auth) && s.config <= s'.config
    requires TaskOK(s, u, task) && !Current(s, task)
    ensures !Current(s', task)
  {
  }

  lemma TaskStable(s: Sys, s': Sys, t: Tid, u: Tid, task: Task)
    requires Rely(s, s', t) && u != t && TaskOK(s, u, task)
    ensures TaskOK(s', u, task)
  {
    assert SlotGrows(s, s', t, task.auth);
  }

  lemma UnfetchedStable(s: Sys, s': Sys, t: Tid, u: Tid)
    requires Rely(s, s', t) && u != t && ThreadOK(s, u) && ThreadOK(s, t)
    requires u in s.threads && HasTask(s.threads[u].pc)
    ensures Unfetched(s', s.threads[u].pc)
  {
    if HasTask(s.threads[u].pc) && t in s.threads && HasTask(s.threads[t].pc) {
      assert TaskOK(s, u, s.threads[u].pc.task);
    }
  }

  lemma PcStable(s: Sys, s': Sys, t: Tid, u: Tid, pc: PC)
    requires Rely(s, s', t) && u != t && PcOK(s, u, pc)
    requires HasTask(pc) ==> TaskOK(s, u, pc.task)
    ensures PcOK(s', u, pc)
  {
    if pc.Finishing? && !Current(s, pc.task) {
      assert SlotGrows(s, s', t, pc.task.auth);
      LostForGood(s, s', t, u, pc.task);
    }
    if pc.LoadingCache? || pc.Fetching? || pc.LoadingShared? {
      assert IdentGrows(s, s', t, IdentityOf(pc.task.key));
    }
  }

  lemma OthersStable(s: Sys, s': Sys, t: Tid, u: Tid)
    requires Rely(s, s', t) && u != t && ThreadOK(s, u) && ThreadOK(s, t)
    ensures ThreadOK(s', u)
  {
    if u in s.threads {
      PcStable(s, s', t, u, s.threads[u].pc);
      if HasTask(s.threads[u].pc) {
        TaskStable(s, s', t, u, s.threads[u].pc.task);
        UnfetchedStable(s, s', t, u);
      }
    }
  }

  // ------------------------------------------------------------ invariants a step leaves alone

  /** Goroutine `t` keeps every channel it does not close and holds the one it makes. */
  ghost predicate Hands(s: Sys, s': Sys, t: Tid) {
    && (t in s.threads ==> t in s'.threads)
    && (t in s.threads ==>
          forall c, k :: Holds(s.threads[t].pc, c, k) && c !in s'.closes ==> Holds(s'.threads[t].pc, c, k))
    && (forall c :: |s.owner| <= c < |s'.owner| ==>
          s'.owner[c].tid == t && t in s'.threads && Holds(s'.threads[t].pc, c, s'.owner[c].kind))
  }

  /** No channel of family `k` is closed by the step. */
  ghost predicate KeepsOpen(s: Sys, s': Sys, k: Kind) {
    forall c :: c in s'.closes && c !in s.closes ==> !Known(s, c, k)
  }

  ghost predicate SameTask(s: Sys, s': Sys, t: Tid) {
    t in s.threads && HasTask(s.threads[t].pc) ==>
      t in s'.threads && HasTask(s'.threads[t].pc) && s'.threads[t].pc.task == s.threads[t].pc.task
  }

  lemma ChansKept(s: Sys, s': Sys, t: Tid)
    requires Rely(s, s', t) && Hands(s, s', t) && forall c :: ChanOK(s, c)
    ensures forall c :: ChanOK(s', c)
  {
    forall c ensures ChanOK(s', c) {
      assert ChanOK(s, c);
    }
  }

  lemma CallsKept(s: Sys, s': Sys, t: Tid)
    requires Rely(s, s', t) && KeepsOpen(s, s', AuthDone) && SameTask(s, s', t)
    requires forall a :: SlotOf(s', a).calls == SlotOf(s, a).calls
    requires forall a, g :: CallOK(s, a, g)
    ensures forall a, g :: CallOK(s', a, g)
  {
    forall a, g ensures CallOK(s', a, g) {
      assert CallOK(s, a, g);
      assert SlotGrows(s, s', t, a);
    }
  }

  lemma SlotsKept(s: Sys, s': Sys)
    requires s'.slots == s.slots && s'.config == s.config && StoreGrows(s.store, s'.store)
    requires forall a :: SlotOK(s, a)
    ensures forall a :: SlotOK(s', a)
  {
    forall a ensures SlotOK(s', a) {
      assert SlotOK(s, a);
    }
  }

  lemma LogsKept(s: Sys, s': Sys)
    requires s.config <= s'.config && StoreGrows(s.store, s'.store)
    requires s'.store.disk == s.store.disk && s'.store.saves == s.store.saves
    requires forall id :: IdentOf(s', id).committed == IdentOf(s, id).committed
    requires forall id :: LogOK(s, id)
    ensures forall id :: LogOK(s', id)
  {
    forall id ensures LogOK(s', id) {
      assert LogOK(s, id);
    }
  }

  lemma IdentsKept(s: Sys, s': Sys)
    requires s'.idents == s.idents && s.owner <= s'.owner && forall id :: KeepsOpen(s, s', IdentityDone(id))
    requires forall id :: IdentOK(s, id)
    ensures forall id :: IdentOK(s', id)
  {
    forall id ensures IdentOK(s', id) {
      assert IdentOK(s, id) && KeepsOpen(s, s', IdentityDone(id));
      forall c ensures ActiveOK(s', id, c) {
        assert ActiveOK(s, id, c);
      }
    }
  }

  lemma MetaKept(s: Sys, s': Sys)
    requires s'.meta == s.meta && s.owner <= s'.owner && StoreGrows(s.store, s'.store)
    requires s'.store.metaWritten == s.store.metaWritten && KeepsOpen(s, s', MetadataDone) && MetaOK(s)
    ensures MetaOK(s')
  {
  }

  /** A step that leaves the shared structures alone and only moves goroutine `t` on. */
  ghost predicate Quiet(s: Sys, s': Sys) {
    && s'.slots == s.slots && s'.idents == s.idents && s'.meta == s.meta && s'.store == s.store
    && s'.config == s.config && s'.owner == s.owner && s'.closes == s.closes
  }

  lemma FetchedKept(s: Sys, s': Sys, t: Tid)
    requires Rely(s, s', t) && ThreadOK(s, t) && FetchedOK(s)
    ensures FetchedOK(s')
  {
    forall f | f in s'.fetched ensures f.gen <= SlotOf(s', f.auth).nextAuth {
      assert SlotGrows(s, s', t, f.auth);
      if f !in s.fetched {
        assert MyFetch(s, t, f);
      }
    }
  }

  lemma Others(s: Sys, s': Sys, t: Tid)
    requires Rely(s, s', t) && (forall u :: ThreadOK(s, u)) && ThreadOK(s', t) && FetchedOK(s)
    ensures (forall u :: ThreadOK(s', u)) && FetchedOK(s')
  {
    FetchedKept(s, s', t);
    forall u ensures ThreadOK(s', u) {
      assert ThreadOK(s, u) && ThreadOK(s, t);
      if u != t {
        OthersStable(s, s', t, u);
      }
    }
  }

  lemma QuietStep(s: Sys, s': Sys, t: Tid)
    requires Inv(s) && Quiet(s, s') && Rely(s, s', t) && Hands(s, s', t) && SameTask(s, s', t) && ThreadOK(s', t)
    ensures Inv(s')
  {
    ChansKept(s, s', t);
    CallsKept(s, s', t);
    SlotsKept(s, s');
    LogsKept(s, s');
    IdentsKept(s, s');
    MetaKept(s, s');
    Others(s, s', t);
  }

  lemma Move(s: Sys, t: Tid, pc: PC)
    requires Inv(s) && t in s.threads
    requires PcOK(s, t, pc)
    requires HasTask(s.threads[t].pc) <==> HasTask(pc)
    requires HasTask(pc) ==> pc.task == s.threads[t].pc.task && Unfetched(s, pc)
    requires forall c, k :: Holds(s.threads[t].pc, c, k) ==> Holds(pc, c, k)
    ensures Inv(GoTo(s, t, pc)) && Rely(s, GoTo(s, t, pc), t)
  {
    assert ThreadOK(s, t);
    MoveThread(s, t, pc);
    QuietStep(s, GoTo(s, t, pc), t);
  }

  lemma MoveThread(s: Sys, t: Tid, pc: PC)
    requires ThreadOK(s, t) && t in s.threads && PcOK(s, t, pc)
    requires HasTask(s.threads[t].pc) <==> HasTask(pc)
    requires HasTask(pc) ==> pc.task == s.threads[t].pc.task && Unfetched(s, pc)
    requires forall c, k :: Holds(s.threads[t].pc, c, k) ==> Holds(pc, c, k)
    ensures var s' := GoTo(s, t, pc);
            ThreadOK(s', t) && Quiet(s, s') && Rely(s, s', t) && Hands(s, s', t) && SameTask(s, s', t)
  {
  }

  // ------------------------------------------------------------ steps that only move the goroutine

  lemma ReaderStep(s: Sys, t: Tid)
    requires Inv(s) && t in s.threads
    requires var pc := s.threads[t].pc; pc.ReadConfig? || pc.ReadSlot? || pc.ReadAgain?
    ensures var s' := ResumeReader(s, t, s.threads[t].pc); Inv(s') && Rely(s, s', t)
  {
    assert ThreadOK(s, t) && SlotOK(s, s.threads[t].auth);
    match s.threads[t].pc
    case ReadSlot(c) => Move(s, t, ReadAgain(c, SlotOf(s, s.threads[t].auth).current, s.config));
    case ReadAgain(c, snap, _) =>
      Move(s, t, if s.config != c then ReadConfig else Return(Visible(snap, c), c));
    case ReadConfig => Move(s, t, ReadSlot(s.config));
  }

  lemma BuildOK(s: Sys, t: Tid, task: Task, sel: Selection, r: MetaResult)
    requires TaskOK(s, t, task) && SelectionOK(s, task, sel)
    requires ResultOK(s.store, r) || (r == ABANDONED && !Current(s, task))
    ensures PcOK(s, t, Finishing(task, BuildSnapshot(task, sel, r)))
  {
  }

  /** What is on disk was written; once a call has committed it is fresh since then. */
  lemma LoadedOK(s: Sys, task: Task, readable: bool)
    requires forall id :: LogOK(s, id)
    ensures CachedOK(s, task, LoadDisk(s, task.key, readable))
    ensures SharedOK(s, task) && LoadDisk(s, task.key, readable).Some? ==>
              FreshSince(s, task.key.config, Fresh, LoadDisk(s, task.key, readable))
  {
    assert LogOK(s, IdentityOf(task.key));
  }

  lemma SelectStep(s: Sys, t: Tid, ch: Choice)
    requires Inv(s) && t in s.threads
    requires var pc := s.threads[t].pc; pc.LoadingShared? || pc.AwaitPeers?
    ensures var s' := ResumeCatalog(s, t, s.threads[t].pc, ch); Inv(s') && Rely(s, s', t)
  {
    assert ThreadOK(s, t);
    var pc := s.threads[t].pc;
    LoadedOK(s, pc.task, ch.readable);
    var disk := LoadDisk(s, pc.task.key, ch.readable);
    Move(s, t, Selected(pc.task,
                        if pc.LoadingShared? then SelectCatalog(disk, pc.cached, CacheRead)
                        else SelectCatalog(None, disk, if ch.readable then pc.failure else CacheRead)));
  }

  lemma MetadataStep(s: Sys, t: Tid, ch: Choice)
    requires Inv(s) && t in s.threads
    requires var pc := s.threads[t].pc; pc.Selected? || pc.AwaitMeta?
    ensures var s' := ResumeMetadata(s, t, s.threads[t].pc, ch); Inv(s') && Rely(s, s', t)
  {
    assert ThreadOK(s, t);
    var pc := s.threads[t].pc;
    if pc.Selected? && Current(s, pc.task) {
      Move(s, t, MetaEnter(pc.task, pc.sel));
    } else if pc.Selected? || pc.chan in s.meta.done {
      var r := if pc.Selected? then ABANDONED else s.meta.done[pc.chan];
      BuildOK(s, t, pc.task, pc.sel, r);
      Move(s, t, Finishing(pc.task, BuildSnapshot(pc.task, pc.sel, r)));
    } else {
      Move(s, t, Selected(pc.task, pc.sel));
    }
  }

  lemma ProceedStep(s: Sys, t: Tid)
    requires Inv(s) && t in s.threads && s.threads[t].pc.Registered?
    requires var task := s.threads[t].pc.task; !s.storeUsable || task.configured
    ensures var s' := Proceed(s, t, s.threads[t].pc.task); Inv(s') && Rely(s, s', t)
  {
    assert ThreadOK(s, t);
    var task := s.threads[t].pc.task;
    if !s.storeUsable {
      Move(s, t, Finishing(task, Empty(Failed, CacheRead, task.key.config, task.gen, IdentityOf(task.key))
                                 .(modelSource := if task.configured then Config else Nothing)));
    } else {
      Move(s, t, Selected(task, Selection(Config, NoError, None)));
    }
  }

  lemma FetchStep(s: Sys, t: Tid, readable: bool)
    requires Inv(s) && t in s.threads && s.threads[t].pc.LoadingCache?
    ensures var pc := s.threads[t].pc;
            var s' := StartFetch(s, t, pc.task, pc.chan, pc.sequence, readable); Inv(s') && Rely(s, s', t)
  {
    var pc := s.threads[t].pc;
    var s' := StartFetch(s, t, pc.task, pc.chan, pc.sequence, readable);
    assert ThreadOK(s, t);
    LoadedOK(s, pc.task, readable);
    assert ThreadOK(s', t);
    QuietStep(s, s', t);
  }

  // ------------------------------------------------------------ steps on an auth slot

  /** A slot update by `t` that neither removes another goroutine's call nor reuses a generation. */
  lemma SlotRely(s: Sys, s': Sys, t: Tid, a: AuthID, slot: Slot)
    requires s'.slots == s.slots[a := slot] && s'.config == s.config
    requires s.owner <= s'.owner && s.closes <= s'.closes && s'.store == s.store
    requires s'.idents == s.idents && s'.meta == s.meta && s'.fetched == s.fetched
    requires forall u :: u != t ==> (u in s.threads <==> u in s'.threads) && (u in s.threads ==> s'.threads[u] == s.threads[u])
    requires forall c :: c in s'.closes && c !in s.closes ==> c < |s.owner| && s.owner[c].tid == t
    requires SlotGrows(s, s', t, a)
    ensures Rely(s, s', t)
  {
    forall b ensures SlotGrows(s, s', t, b) {
      if b == a {
        assert SlotGrows(s, s', t, a);
      }
    }
  }

  lemma SlotPut(s: Sys, s': Sys, a: AuthID, slot: Slot)
    requires s'.slots == s.slots[a := slot] && s'.config == s.config && s'.store == s.store
    requires (forall b :: SlotOK(s, b)) && SlotOK(s', a)
    ensures forall b :: SlotOK(s', b)
  {
    forall b ensures SlotOK(s', b) {
      assert SlotOK(s, b);
    }
  }

  /** The slot update of a rejected or withdrawn credential, and of a reader's `Enter`. */
  lemma SlotStep(s: Sys, s': Sys, t: Tid, a: AuthID, slot: Slot)
    requires Inv(s) && s' == PutSlot(s, a, slot).(threads := s'.threads)
    requires forall u :: u != t ==> (u in s.threads <==> u in s'.threads) && (u in s.threads ==> s'.threads[u] == s.threads[u])
    requires SlotGrows(s, s', t, a) && Hands(s, s', t) && SameTask(s, s', t) && ThreadOK(s', t)
    requires slot.calls == SlotOf(s, a).calls && SlotOK(s', a)
    ensures Inv(s') && Rely(s, s', t)
  {
    SlotRely(s, s', t, a, slot);
    ChansKept(s, s', t);
    CallsKept(s, s', t);
    SlotPut(s, s', a, slot);
    LogsKept(s, s');
    IdentsKept(s, s');
    MetaKept(s, s');
    Others(s, s', t);
  }

  lemma MarkStep(s: Sys, t: Tid, a: AuthID)
    requires Inv(s) && t !in s.threads
    ensures Inv(Mark(s, a)) && Rely(s, Mark(s, a), t)
  {
    var s' := Mark(s, a);
    assert SlotOK(s, a);
    assert SlotGrows(s, s', t, a);
    SlotStep(s, s', t, a, s'.slots[a]);
  }

  lemma RejectStep(s: Sys, t: Tid, a: AuthID)
    requires Inv(s) && t in s.threads && s.threads[t].pc.Start?
    ensures Inv(Reject(s, t, a)) && Rely(s, Reject(s, t, a), t)
  {
    var s' := Reject(s, t, a);
    assert SlotOK(s, a);
    RejectSlot(s, t, a);
    SlotStep(s, s', t, a, s'.slots[a]);
  }

  lemma RejectSlot(s: Sys, t: Tid, a: AuthID)
    requires SlotOK(s, a) && t in s.threads && s.threads[t].pc.Start?
    ensures var s' := Reject(s, t, a);
            SlotGrows(s, s', t, a) && SlotOK(s', a) && ThreadOK(s', t) && Hands(s, s', t) && SameTask(s, s', t)
  {
  }

  /** Entering with a key the slot already has leaves the slot as it is. */
  lemma EnterKept(s: Sys, a: AuthID, key: Key)
    requires (forall b :: SlotOK(s, b)) && (forall b, g :: CallOK(s, b, g))
    ensures var slot := Advance(SlotOf(s, a), key);
            ((slot.current.Some? && slot.current.value.auth == slot.nextAuth) || slot.nextAuth in slot.calls) ==>
              slot == SlotOf(s, a) && slot.key == key
  {
    assert SlotOK(s, a);
    assert CallOK(s, a, Advance(SlotOf(s, a), key).nextAuth);
  }

  lemma ReuseStep(s: Sys, t: Tid, a: AuthID, pc: PC, key: Key)
    requires Inv(s) && t in s.threads && s.threads[t].pc.Start? && key.config == s.config
    requires var slot := Advance(SlotOf(s, a), key);
             || (slot.current.Some? && slot.current.value.auth == slot.nextAuth && pc == Return(slot.current.value, s.config))
             || (slot.nextAuth in slot.calls && pc == AwaitAuth(slot.calls[slot.nextAuth]))
    ensures var s' := GoTo(PutSlot(s, a, Advance(SlotOf(s, a), key)), t, pc); Inv(s') && Rely(s, s', t)
  {
    var slot := Advance(SlotOf(s, a), key);
    EnterKept(s, a, key);
    assert SlotOK(s, a) && CallOK(s, a, slot.nextAuth);
    ReuseSlot(s, t, a, pc);
    SlotStep(s, GoTo(PutSlot(s, a, slot), t, pc), t, a, slot);
  }

  lemma ReuseSlot(s: Sys, t: Tid, a: AuthID, pc: PC)
    requires SlotOK(s, a) && CallOK(s, a, SlotOf(s, a).nextAuth) && t in s.threads && s.threads[t].pc.Start?
    requires var slot := SlotOf(s, a);
             || (slot.current.Some? && slot.key.config == s.config && pc == Return(slot.current.value, s.config))
             || (slot.nextAuth in slot.calls && pc == AwaitAuth(slot.calls[slot.nextAuth]))
    ensures var s' := GoTo(PutSlot(s, a, SlotOf(s, a)), t, pc);
            SlotGrows(s, s', t, a) && SlotOK(s', a) && ThreadOK(s', t) && Hands(s, s', t) && SameTask(s, s', t)
  {
  }

  lemma RegisterRely(s: Sys, t: Tid, a: AuthID, key: Key)
    requires Inv(s) && t in s.threads && s.threads[t].pc.Start? && key.ForAuth? && key.config == s.config
    requires var slot := Advance(SlotOf(s, a), key); slot.nextAuth !in slot.calls
    ensures var s' := Register(s, t, a, key); Rely(s, s', t) && Hands(s, s', t) && s'.config == s.config
  {
    var s' := Register(s, t, a, key);
    assert SlotOK(s, a);
    assert SlotGrows(s, s', t, a);
    SlotRely(s, s', t, a, s'.slots[a]);
  }

  /** A new registration always belongs to a generation no call had before. */
  lemma RegisterFresh(s: Sys, a: AuthID, key: Key)
    requires Inv(s) && key.ForAuth? && key.config == s.config
    requires !(var slot := Advance(SlotOf(s, a), key);
               slot.current.Some? && slot.current.value.auth == slot.nextAuth && slot.current.value.state != Loading)
    requires var slot := Advance(SlotOf(s, a), key); slot.nextAuth !in slot.calls
    ensures Advance(SlotOf(s, a), key).nextAuth == SlotOf(s, a).nextAuth + 1
  {
    assert SlotOK(s, a);
  }

  lemma RegisterCalls(s: Sys, t: Tid, a: AuthID, key: Key)
    requires Inv(s) && t in s.threads && s.threads[t].pc.Start? && key.ForAuth? && key.config == s.config
    requires var slot := Advance(SlotOf(s, a), key); slot.nextAuth !in slot.calls
    ensures forall b, g :: CallOK(Register(s, t, a, key), b, g)
  {
    var s' := Register(s, t, a, key);
    forall b, g ensures CallOK(s', b, g) {
      assert CallOK(s, b, g);
      assert ClosesOK(s);
    }
  }

  lemma RegisterThread(s: Sys, t: Tid, a: AuthID, key: Key)
    requires Inv(s) && t in s.threads && s.threads[t].pc.Start? && key.ForAuth? && key.config == s.config
    requires Advance(SlotOf(s, a), key).nextAuth == SlotOf(s, a).nextAuth + 1
    ensures ThreadOK(Register(s, t, a, key), t)
  {
    assert ClosesOK(s) && FetchedOK(s);
  }

  lemma RegisterStep(s: Sys, t: Tid, a: AuthID, key: Key)
    requires Inv(s) && t in s.threads && s.threads[t].pc.Start? && key.ForAuth? && key.config == s.config
    requires !(var slot := Advance(SlotOf(s, a), key);
               slot.current.Some? && slot.current.value.auth == slot.nextAuth && slot.current.value.state != Loading)
    requires var slot := Advance(SlotOf(s, a), key); slot.nextAuth !in slot.calls
    ensures var s' := Register(s, t, a, key); Inv(s') && Rely(s, s', t)
  {
    var s' := Register(s, t, a, key);
    RegisterFresh(s, a, key);
    RegisterRely(s, t, a, key);
    RegisterCalls(s, t, a, key);
    RegisterThread(s, t, a, key);
    ChansKept(s, s', t);
    SlotPut(s, s', a, s'.slots[a]);
    LogsKept(s, s');
    IdentsKept(s, s');
    MetaKept(s, s');
    Others(s, s', t);
  }

  lemma FinishRely(s: Sys, t: Tid)
    requires Inv(s) && t in s.threads && s.threads[t].pc.Finishing?
    ensures var s' := Finish(s, t, s.threads[t].pc.task, s.threads[t].pc.final);
            Rely(s, s', t) && Hands(s, s', t) && ClosesOK(s')
  {
    var task := s.threads[t].pc.task;
    var s' := Finish(s, t, task, s.threads[t].pc.final);
    assert ThreadOK(s, t) && ClosesOK(s);
    assert SlotGrows(s, s', t, task.auth);
    SlotRely(s, s', t, task.auth, s'.slots[task.auth]);
  }

  lemma FinishCalls(s: Sys, t: Tid)
    requires Inv(s) && t in s.threads && s.threads[t].pc.Finishing?
    ensures forall b, g :: CallOK(Finish(s, t, s.threads[t].pc.task, s.threads[t].pc.final), b, g)
  {
    var s' := Finish(s, t, s.threads[t].pc.task, s.threads[t].pc.final);
    assert ThreadOK(s, t);
    forall b, g ensures CallOK(s', b, g) {
      assert CallOK(s, b, g);
    }
  }

  lemma FinishSlot(s: Sys, t: Tid)
    requires t in s.threads && s.threads[t].pc.Finishing?
    requires ThreadOK(s, t) && SlotOK(s, s.threads[t].pc.task.auth)
    ensures var s' := Finish(s, t, s.threads[t].pc.task, s.threads[t].pc.final);
            SlotOK(s', s.threads[t].pc.task.auth) && ThreadOK(s', t)
  {
  }

  lemma FinishStep(s: Sys, t: Tid)
    requires Inv(s) && t in s.threads && s.threads[t].pc.Finishing?
    ensures var s' := Finish(s, t, s.threads[t].pc.task, s.threads[t].pc.final); Inv(s') && Rely(s, s', t)
  {
    var task := s.threads[t].pc.task;
    var s' := Finish(s, t, task, s.threads[t].pc.final);
    assert ThreadOK(s, t);
    FinishRely(s, t);
    FinishCalls(s, t);
    assert SlotOK(s, task.auth);
    FinishSlot(s, t);
    ChansKept(s, s', t);
    SlotPut(s, s', task.auth, s'.slots[task.auth]);
    LogsKept(s, s');
    IdentsKept(s, s');
    MetaKept(s, s');
    Others(s, s', t);
  }

  lemma ReconfigureStep(s: Sys, t: Tid, configured: bool)
    requires Inv(s) && t !in s.threads
    ensures var s' := s.(config := s.config + 1, configured := configured); Inv(s') && Rely(s, s', t)
  {
    var s' := s.(config := s.config + 1, configured := configured);
    forall a ensures SlotOK(s', a) {
      assert SlotOK(s, a);
    }
    ChansKept(s, s', t);
    CallsKept(s, s', t);
    LogsKept(s, s');
    IdentsKept(s, s');
    MetaKept(s, s');
    Others(s, s', t);
  }

  lemma SpawnStep(s: Sys, t: Tid, th: Thread)
    requires Inv(s) && t !in s.threads && (th.pc.Start? || th.pc.ReadConfig?)
    ensures var s' := s.(threads := s.threads[t := th]); Inv(s') && Rely(s, s', t)
  {
    QuietStep(s, s.(threads := s.threads[t := th]), t);
  }

  // ------------------------------------------------------------ steps on an identity slot

  lemma IdentRely(s: Sys, s': Sys, t: Tid, id: Sha, ident: Ident)
    requires s'.idents == s.idents[id := ident] && s'.config == s.config && s'.slots == s.slots
    requires s.owner <= s'.owner && s.closes <= s'.closes && StoreGrows(s.store, s'.store)
    requires s'.meta == s.meta && s'.fetched == s.fetched
    requires t in s.threads && t in s'.threads && s'.threads == s.threads[t := s'.threads[t]]
    requires forall c :: c in s'.closes && c !in s.closes ==> c < |s.owner| && s.owner[c].tid == t
    requires IdentGrows(s, s', t, id)
    ensures Rely(s, s', t)
  {
    forall i ensures IdentGrows(s, s', t, i) {
      if i == id {
        assert IdentGrows(s, s', t, id);
      }
    }
  }

  /** Everything but the identity slots and their logs, for a step on one identity. */
  lemma IdentStep(s: Sys, s': Sys, t: Tid)
    requires Inv(s) && s'.slots == s.slots && s'.config == s.config && s'.meta == s.meta && t in s.threads
    requires Rely(s, s', t) && Hands(s, s', t) && SameTask(s, s', t) && ThreadOK(s', t)
    requires KeepsOpen(s, s', AuthDone) && KeepsOpen(s, s', MetadataDone) && ClosesOK(s')
    requires s'.store.metaWritten == s.store.metaWritten
    requires (forall id :: IdentOK(s', id)) && (forall id :: LogOK(s', id))
    ensures Inv(s')
  {
    ChansKept(s, s', t);
    CallsKept(s, s', t);
    SlotsKept(s, s');
    MetaKept(s, s');
    Others(s, s', t);
  }

  lemma StartIdents(s: Sys, t: Tid, task: Task)
    requires Inv(s) && t in s.threads
    ensures forall id :: IdentOK(StartIdentity(s, t, task), id)
  {
    var s' := StartIdentity(s, t, task);
    forall id ensures IdentOK(s', id) {
      assert IdentOK(s, id) && ClosesOK(s);
      forall c ensures ActiveOK(s', id, c) {
        assert ActiveOK(s, id, c);
      }
      forall c, d | c in IdentOf(s', id).active && d in IdentOf(s', id).active && c != d
        ensures IdentOf(s', id).active[c] != IdentOf(s', id).active[d]
      {
        assert ActiveOK(s, id, c) && ActiveOK(s, id, d);
      }
    }
  }

  lemma StartThread(s: Sys, t: Tid)
    requires Inv(s) && t in s.threads && s.threads[t].pc.Registered?
    ensures ThreadOK(StartIdentity(s, t, s.threads[t].pc.task), t)
  {
    assert ThreadOK(s, t) && ClosesOK(s);
  }

  lemma StartGrows(s: Sys, t: Tid, task: Task)
    requires IdentOK(s, IdentityOf(task.key)) && t in s.threads
    ensures IdentGrows(s, StartIdentity(s, t, task), t, IdentityOf(task.key))
  {
    var id := IdentityOf(task.key);
    forall c: Chan ensures c in IdentOf(s, id).active ==> c < |s.owner| {
      assert ActiveOK(s, id, c);
    }
  }

  lemma StartStep(s: Sys, t: Tid)
    requires Inv(s) && t in s.threads && s.threads[t].pc.Registered?
    ensures var s' := StartIdentity(s, t, s.threads[t].pc.task); Inv(s') && Rely(s, s', t)
  {
    var task := s.threads[t].pc.task;
    var s' := StartIdentity(s, t, task);
    var id := IdentityOf(task.key);
    assert IdentOK(s, id);
    StartGrows(s, t, task);
    IdentRely(s, s', t, id, s'.idents[id]);
    StartIdents(s, t, task);
    StartThread(s, t);
    LogsKept(s, s');
    IdentStep(s, s', t);
  }

  /** The identity slot after `call` has settled, having committed or not. */
  predicate Settled(ident: Ident, ident': Ident, call: Chan) {
    && call in ident.active
    && ident'.active == ident.active - {call} && ident'.nextSeq == ident.nextSeq
    && (ident'.committed == ident.committed
        || (Before(ident.committed, ident'.committed) && ident'.committed.sequence == ident.active[call]))
  }

  lemma SettleIdents(s: Sys, s': Sys, id: Sha, call: Chan)
    requires s'.owner == s.owner && s'.closes == s.closes + [call]
    requires s'.idents == s.idents[id := IdentOf(s', id)] && Settled(IdentOf(s, id), IdentOf(s', id), call)
    requires forall i :: IdentOK(s, i)
    ensures forall i :: IdentOK(s', i)
  {
    assert IdentOK(s, id) && ActiveOK(s, id, call);
    forall i ensures IdentOK(s', i) {
      assert IdentOK(s, i);
      forall c ensures ActiveOK(s', i, c) {
        assert ActiveOK(s, i, c);
      }
    }
  }

  lemma SettleRely(s: Sys, s': Sys, t: Tid, call: Chan)
    requires Inv(s) && t in s.threads && s.threads[t].pc.Fetching? && s.threads[t].pc.chan == call
    requires var id := IdentityOf(s.threads[t].pc.task.key);
             s'.idents == s.idents[id := IdentOf(s', id)] && Settled(IdentOf(s, id), IdentOf(s', id), call)
    requires s'.config == s.config && s'.slots == s.slots && s'.owner == s.owner && s'.closes == s.closes + [call]
    requires StoreGrows(s.store, s'.store) && s'.meta == s.meta && s'.fetched == s.fetched
    requires t in s'.threads && s'.threads == s.threads[t := s'.threads[t]] && SameTask(s, s', t)
    ensures Rely(s, s', t) && Hands(s, s', t) && ClosesOK(s')
    ensures KeepsOpen(s, s', AuthDone) && KeepsOpen(s, s', MetadataDone)
    ensures forall i :: IdentOK(s', i)
  {
    var id := IdentityOf(s.threads[t].pc.task.key);
    assert ThreadOK(s, t) && ClosesOK(s);
    assert IdentOK(s, id) && ActiveOK(s, id, call);
    assert IdentGrows(s, s', t, id);
    IdentRely(s, s', t, id, IdentOf(s', id));
    SettleIdents(s, s', id, call);
  }

  lemma PeersKnown(s: Sys, key: Key, call: Chan)
    requires forall id :: IdentOK(s, id)
    ensures forall c :: c in Peers(s, key, call) ==> c < |s.owner| && s.owner[c].kind.IdentityDone?
  {
    assert IdentOK(s, IdentityOf(key));
    forall c | c in Peers(s, key, call) ensures c < |s.owner| && s.owner[c].kind.IdentityDone? {
      assert ActiveOK(s, IdentityOf(key), c);
    }
  }

  /** Settling without a save: the fetch failed, the generation is lost, or a newer call committed. */
  lemma SettleStep(s: Sys, t: Tid, pc: PC)
    requires Inv(s) && t in s.threads && s.threads[t].pc.Fetching?
    requires var here := s.threads[t].pc;
             || pc == AwaitPeers(here.task, Peers(s, here.task.key, here.chan), WorkBuddyFailure)
             || (pc == LoadingShared(here.task, here.cached) && Superseded(s, here.task, here.sequence))
             || (!Current(s, here.task) && pc == Finishing(here.task, Empty(Loading, NoError, here.task.key.config, here.task.gen, IdentityOf(here.task.key))))
    ensures var here := s.threads[t].pc;
            var s' := GoTo(Settle(s, IdentityOf(here.task.key), here.chan), t, pc); Inv(s') && Rely(s, s', t)
  {
    var here := s.threads[t].pc;
    var s' := GoTo(Settle(s, IdentityOf(here.task.key), here.chan), t, pc);
    assert ThreadOK(s, t);
    SettleRely(s, s', t, here.chan);
    SettleThread(s, t, pc);
    LogsKept(s, s');
    IdentStep(s, s', t);
  }

  lemma SettleThread(s: Sys, t: Tid, pc: PC)
    requires ThreadOK(s, t) && (forall id :: IdentOK(s, id)) && t in s.threads && s.threads[t].pc.Fetching?
    requires var here := s.threads[t].pc;
             || pc == AwaitPeers(here.task, Peers(s, here.task.key, here.chan), WorkBuddyFailure)
             || (pc == LoadingShared(here.task, here.cached) && Superseded(s, here.task, here.sequence))
             || (!Current(s, here.task) && pc == Finishing(here.task, Empty(Loading, NoError, here.task.key.config, here.task.gen, IdentityOf(here.task.key))))
    ensures var here := s.threads[t].pc;
            ThreadOK(GoTo(Settle(s, IdentityOf(here.task.key), here.chan), t, pc), t)
  {
    PeersKnown(s, s.threads[t].pc.task.key, s.threads[t].pc.chan);
  }

  /** A catalog save that is attempted is newer than every committed one. */
  lemma SaveIsNewer(s: Sys, t: Tid)
    requires Inv(s) && t in s.threads && s.threads[t].pc.Fetching?
    requires var pc := s.threads[t].pc; Current(s, pc.task) && !Superseded(s, pc.task, pc.sequence)
    ensures var pc := s.threads[t].pc;
            Before(IdentOf(s, IdentityOf(pc.task.key)).committed, Stamp(pc.task.key.config, pc.sequence))
  {
    var pc := s.threads[t].pc;
    assert ThreadOK(s, t) && LogOK(s, IdentityOf(pc.task.key)) && IdentOK(s, IdentityOf(pc.task.key));
    assert ActiveOK(s, IdentityOf(pc.task.key), pc.chan);
  }

  lemma SaveLogs(s: Sys, s': Sys, id: Sha, stamp: Stamp, save: Save)
    requires (forall i :: LogOK(s, i)) && Before(IdentOf(s, id).committed, stamp) && stamp.config <= s.config && stamp.sequence > 0
    requires s'.config == s.config && s'.store == StoreCatalog(s.store, id, stamp, save)
    requires forall i :: i != id ==> IdentOf(s', i).committed == IdentOf(s, i).committed
    requires IdentOf(s', id).committed == if save == Saved then stamp else IdentOf(s, id).committed
    ensures forall i :: LogOK(s', i)
  {
    forall i ensures LogOK(s', i) {
      assert LogOK(s, i);
      if i == id && save == Saved {
        AppendIncreasing(SavesOf(s.store, id), stamp);
      }
    }
  }

  lemma AppendIncreasing(log: seq<Stamp>, stamp: Stamp)
    requires Increasing(log) && (log != [] ==> Before(log[|log| - 1], stamp))
    ensures Increasing(log + [stamp])
  {
    forall i | 0 <= i < |log| ensures Before(log[i], stamp) {
      assert i < |log| - 1 ==> Before(log[i], log[|log| - 1]);
    }
  }

  lemma SequenceIsPositive(s: Sys, t: Tid)
    requires ThreadOK(s, t) && t in s.threads && s.threads[t].pc.Fetching? && forall id :: IdentOK(s, id)
    ensures s.threads[t].pc.sequence > 0
  {
    var id := IdentityOf(s.threads[t].pc.task.key);
    assert IdentOK(s, id) && ActiveOK(s, id, s.threads[t].pc.chan);
  }

  lemma SaveThread(s: Sys, t: Tid, save: Save)
    requires t in s.threads && s.threads[t].pc.Fetching? && ThreadOK(s, t) && forall id :: IdentOK(s, id)
    requires var pc := s.threads[t].pc; Current(s, pc.task)
    ensures var pc := s.threads[t].pc;
            ThreadOK(SaveOwn(s, t, pc.task, pc.chan, pc.sequence, pc.cacheError, save), t)
  {
    PeersKnown(s, s.threads[t].pc.task.key, s.threads[t].pc.chan);
    SequenceIsPositive(s, t);
  }

  lemma SaveStep(s: Sys, t: Tid, save: Save)
    requires Inv(s) && t in s.threads && s.threads[t].pc.Fetching?
    requires var pc := s.threads[t].pc; Current(s, pc.task) && !Superseded(s, pc.task, pc.sequence)
    ensures var pc := s.threads[t].pc;
            var s' := SaveOwn(s, t, pc.task, pc.chan, pc.sequence, pc.cacheError, save); Inv(s') && Rely(s, s', t)
  {
    var pc := s.threads[t].pc;
    var id, stamp := IdentityOf(pc.task.key), Stamp(pc.task.key.config, pc.sequence);
    var s' := SaveOwn(s, t, pc.task, pc.chan, pc.sequence, pc.cacheError, save);
    assert ThreadOK(s, t);
    SaveIsNewer(s, t);
    SequenceIsPositive(s, t);
    SettleRely(s, s', t, pc.chan);
    SaveThread(s, t, save);
    SaveLogs(s, s', id, stamp, save);
    IdentStep(s, s', t);
  }

  // ------------------------------------------------------------ steps on the metadata flight

  /** Everything but the metadata state, for a step that changes only that. */
  lemma MetaStep(s: Sys, s': Sys, t: Tid)
    requires Inv(s) && t in s.threads && s'.slots == s.slots && s'.idents == s.idents && s'.config == s.config
    requires s'.store.disk == s.store.disk && s'.store.saves == s.store.saves && StoreGrows(s.store, s'.store)
    requires Rely(s, s', t) && Hands(s, s', t) && SameTask(s, s', t) && ThreadOK(s', t)
    requires KeepsOpen(s, s', AuthDone) && (forall id :: KeepsOpen(s, s', IdentityDone(id)))
    requires ClosesOK(s') && MetaOK(s')
    ensures Inv(s')
  {
    ChansKept(s, s', t);
    CallsKept(s, s', t);
    SlotsKept(s, s');
    LogsKept(s, s');
    IdentsKept(s, s');
    Others(s, s', t);
  }

  lemma StartMetadataRely(s: Sys, t: Tid)
    requires ThreadOK(s, t) && ClosesOK(s) && MetaOK(s)
    requires t in s.threads && s.threads[t].pc.MetaEnter? && s.meta.call.None?
    ensures var s' := StartMetadata(s, t, s.threads[t].pc.task, s.threads[t].pc.sel);
            Rely(s, s', t) && MetaOK(s') && ThreadOK(s', t)
  {
  }

  lemma StartMetadataStep(s: Sys, t: Tid)
    requires Inv(s) && t in s.threads && s.threads[t].pc.MetaEnter? && s.meta.call.None?
    ensures var s' := StartMetadata(s, t, s.threads[t].pc.task, s.threads[t].pc.sel); Inv(s') && Rely(s, s', t)
  {
    assert ThreadOK(s, t);
    StartMetadataRely(s, t);
    MetaStep(s, StartMetadata(s, t, s.threads[t].pc.task, s.threads[t].pc.sel), t);
  }

  lemma EnterMetadataStep(s: Sys, t: Tid)
    requires Inv(s) && t in s.threads && s.threads[t].pc.MetaEnter?
    ensures var s' := EnterMetadata(s, t, s.threads[t].pc.task, s.threads[t].pc.sel); Inv(s') && Rely(s, s', t)
  {
    assert ThreadOK(s, t);
    var pc := s.threads[t].pc;
    if s.meta.result.Some? && s.meta.result.value.metadata.Some? {
      BuildOK(s, t, pc.task, pc.sel, s.meta.result.value);
      Move(s, t, Finishing(pc.task, BuildSnapshot(pc.task, pc.sel, s.meta.result.value)));
    } else if s.meta.call.Some? {
      Move(s, t, AwaitMeta(pc.task, pc.sel, s.meta.call.value));
    } else {
      StartMetadataStep(s, t);
    }
  }

  /** A flight closes its own channel on its way to `finishAuthCall`. */
  lemma FlightCloses(s: Sys, s': Sys, t: Tid)
    requires ThreadOK(s, t) && ClosesOK(s) && t in s.threads && s.threads[t].pc.MetaFetching?
    requires s'.owner == s.owner && s'.closes == s.closes + [s.threads[t].pc.chan]
    requires t in s'.threads && s'.threads[t].pc.Finishing? && s'.threads[t].pc.task == s.threads[t].pc.task
    ensures Hands(s, s', t) && SameTask(s, s', t) && ClosesOK(s')
    ensures KeepsOpen(s, s', AuthDone) && (forall id :: KeepsOpen(s, s', IdentityDone(id)))
  {
  }

  lemma AbandonRely(s: Sys, t: Tid)
    requires ThreadOK(s, t) && ClosesOK(s) && MetaOK(s)
    requires t in s.threads && s.threads[t].pc.MetaFetching?
    ensures var pc := s.threads[t].pc;
            var s' := AbandonMetadata(s, t, pc.task, pc.sel, pc.chan); Rely(s, s', t) && MetaOK(s')
  {
  }

  lemma AbandonThread(s: Sys, t: Tid)
    requires ThreadOK(s, t)
    requires t in s.threads && s.threads[t].pc.MetaFetching? && !Current(s, s.threads[t].pc.task)
    ensures var pc := s.threads[t].pc; ThreadOK(AbandonMetadata(s, t, pc.task, pc.sel, pc.chan), t)
  {
    var pc := s.threads[t].pc;
    BuildOK(s, t, pc.task, pc.sel, ABANDONED);
  }

  lemma AbandonStep(s: Sys, t: Tid)
    requires Inv(s) && t in s.threads && s.threads[t].pc.MetaFetching? && !Current(s, s.threads[t].pc.task)
    ensures var pc := s.threads[t].pc;
            var s' := AbandonMetadata(s, t, pc.task, pc.sel, pc.chan); Inv(s') && Rely(s, s', t)
  {
    var pc := s.threads[t].pc;
    var s' := AbandonMetadata(s, t, pc.task, pc.sel, pc.chan);
    assert ThreadOK(s, t) && ClosesOK(s);
    AbandonRely(s, t);
    AbandonThread(s, t);
    FlightCloses(s, s', t);
    MetaStep(s, s', t);
  }

  lemma OutcomeOK(st: Store, cached: Option<nat>, failed: bool, version: nat, fetch: Fetch, save: Save)
    requires cached.Some? ==> cached.value in st.metaWritten
    requires var news := NewsOf(cached, version, fetch, save); news.written <= st.metaWritten && news.confirmed <= st.confirmed
    ensures ResultOK(st, MetaOutcome(cached, failed, version, fetch, save))
  {
  }

  lemma CommitRely(s: Sys, t: Tid, r: MetaResult, news: News)
    requires ThreadOK(s, t) && ClosesOK(s) && MetaOK(s)
    requires t in s.threads && s.threads[t].pc.MetaFetching? && news.written <= {s.meta.version}
    requires ResultOK(CommitMetadata(s, t, s.threads[t].pc, r, news).store, r)
    ensures var s' := CommitMetadata(s, t, s.threads[t].pc, r, news); Rely(s, s', t) && MetaOK(s')
  {
  }

  lemma CommitThread(s: Sys, t: Tid, r: MetaResult, news: News)
    requires ThreadOK(s, t) && t in s.threads && s.threads[t].pc.MetaFetching?
    requires ResultOK(CommitMetadata(s, t, s.threads[t].pc, r, news).store, r)
    ensures ThreadOK(CommitMetadata(s, t, s.threads[t].pc, r, news), t)
  {
    var pc := s.threads[t].pc;
    BuildOK(CommitMetadata(s, t, pc, r, news), t, pc.task, pc.sel, r);
  }

  lemma CommitWith(s: Sys, t: Tid, r: MetaResult, news: News)
    requires Inv(s) && t in s.threads && s.threads[t].pc.MetaFetching? && news.written <= {s.meta.version}
    requires ResultOK(CommitMetadata(s, t, s.threads[t].pc, r, news).store, r)
    ensures var s' := CommitMetadata(s, t, s.threads[t].pc, r, news); Inv(s') && Rely(s, s', t)
  {
    var s' := CommitMetadata(s, t, s.threads[t].pc, r, news);
    assert ThreadOK(s, t) && ClosesOK(s);
    CommitRely(s, t, r, news);
    CommitThread(s, t, r, news);
    FlightCloses(s, s', t);
    MetaStep(s, s', t);
  }

  lemma CommitStep(s: Sys, t: Tid, fetch: Fetch, save: Save)
    requires Inv(s) && t in s.threads && s.threads[t].pc.MetaFetching?
    ensures var pc := s.threads[t].pc;
            var r := MetaOutcome(pc.cachedMeta, pc.readFailed, s.meta.version, fetch, save);
            var s' := CommitMetadata(s, t, pc, r, NewsOf(pc.cachedMeta, s.meta.version, fetch, save));
            Inv(s') && Rely(s, s', t)
  {
    var pc := s.threads[t].pc;
    var r := MetaOutcome(pc.cachedMeta, pc.readFailed, s.meta.version, fetch, save);
    var news := NewsOf(pc.cachedMeta, s.meta.version, fetch, save);
    assert ThreadOK(s, t);
    OutcomeOK(CommitMetadata(s, t, pc, r, news).store, pc.cachedMeta, pc.readFailed, s.meta.version, fetch, save);
    CommitWith(s, t, r, news);
  }

  // ------------------------------------------------------------ every step

  lemma EnterStep(s: Sys, t: Tid, key: Key)
    requires Inv(s) && t in s.threads && s.threads[t].pc.Start? && key.ForAuth? && key.config == s.config
    ensures var s' := Enter(s, t, s.threads[t].auth, key); Inv(s') && Rely(s, s', t)
  {
    var a := s.threads[t].auth;
    var slot := Advance(SlotOf(s, a), key);
    if slot.current.Some? && slot.current.value.auth == slot.nextAuth && slot.current.value.state != Loading {
      ReuseStep(s, t, a, Return(slot.current.value, s.config), key);
    } else if slot.nextAuth in slot.calls {
      ReuseStep(s, t, a, AwaitAuth(slot.calls[slot.nextAuth]), key);
    } else {
      RegisterStep(s, t, a, key);
    }
  }

  lemma CatalogStep(s: Sys, t: Tid, ch: Choice)
    requires Inv(s) && t in s.threads && s.threads[t].pc.Fetching?
    ensures var s' := ResumeCatalog(s, t, s.threads[t].pc, ch); Inv(s') && Rely(s, s', t)
  {
    var pc := s.threads[t].pc;
    if ch.fetch != FetchOK {
      SettleStep(s, t, AwaitPeers(pc.task, Peers(s, pc.task.key, pc.chan), WorkBuddyFailure));
    } else if !Current(s, pc.task) {
      SettleStep(s, t, Finishing(pc.task, Empty(Loading, NoError, pc.task.key.config, pc.task.gen, IdentityOf(pc.task.key))));
    } else if Superseded(s, pc.task, pc.sequence) {
      SettleStep(s, t, LoadingShared(pc.task, pc.cached));
    } else {
      SaveStep(s, t, ch.save);
    }
  }

  /** The two ends of a metadata flight. */
  lemma FlightEnds(s: Sys, t: Tid, ch: Choice)
    requires t in s.threads && s.threads[t].pc.MetaFetching?
    ensures var pc := s.threads[t].pc;
            ResumeMetadata(s, t, pc, ch) ==
              if Current(s, pc.task) then
                CommitMetadata(s, t, pc, MetaOutcome(pc.cachedMeta, pc.readFailed, s.meta.version, ch.fetch, ch.save),
                               NewsOf(pc.cachedMeta, s.meta.version, ch.fetch, ch.save))
              else AbandonMetadata(s, t, pc.task, pc.sel, pc.chan)
  {
  }

  lemma FlightStep(s: Sys, t: Tid, ch: Choice)
    requires Inv(s) && t in s.threads && s.threads[t].pc.MetaFetching?
    ensures var s' := ResumeMetadata(s, t, s.threads[t].pc, ch); Inv(s') && Rely(s, s', t)
  {
    FlightEnds(s, t, ch);
    if Current(s, s.threads[t].pc.task) {
      CommitStep(s, t, ch.fetch, ch.save);
    } else {
      AbandonStep(s, t);
    }
  }

  lemma ResumeIsCatalog(s: Sys, t: Tid, ch: Choice)
    requires t in s.threads
    requires var pc := s.threads[t].pc; pc.Fetching? || pc.LoadingShared? || pc.AwaitPeers?
    ensures Resume(s, t, ch) == ResumeCatalog(s, t, s.threads[t].pc, ch)
  {
  }

  lemma ResumeIsMetadata(s: Sys, t: Tid, ch: Choice)
    requires t in s.threads
    requires var pc := s.threads[t].pc; pc.Selected? || pc.MetaEnter? || pc.AwaitMeta? || pc.MetaFetching?
    ensures Resume(s, t, ch) == ResumeMetadata(s, t, s.threads[t].pc, ch)
  {
  }

  lemma BeforeCatalog(s: Sys, t: Tid, ch: Choice)
    requires Inv(s) && Enabled(s, t, Continue(ch))
    requires var pc := s.threads[t].pc; pc.Registered? || pc.LoadingCache?
    ensures Inv(Resume(s, t, ch)) && Rely(s, Resume(s, t, ch), t)
  {
    match s.threads[t].pc
    case Registered(task) => if !s.storeUsable || task.configured { ProceedStep(s, t); } else { StartStep(s, t); }
    case LoadingCache(_, _, _) => FetchStep(s, t, ch.readable);
  }

  lemma FromCatalog(s: Sys, t: Tid, ch: Choice)
    requires Inv(s) && Enabled(s, t, Continue(ch))
    requires var pc := s.threads[t].pc; pc.Fetching? || pc.LoadingShared? || pc.AwaitPeers?
    ensures Inv(Resume(s, t, ch)) && Rely(s, Resume(s, t, ch), t)
  {
    ResumeIsCatalog(s, t, ch);
    if s.threads[t].pc.Fetching? {
      CatalogStep(s, t, ch);
    } else {
      SelectStep(s, t, ch);
    }
  }

  lemma FromMetadata(s: Sys, t: Tid, ch: Choice)
    requires Inv(s) && Enabled(s, t, Continue(ch))
    requires var pc := s.threads[t].pc; pc.Selected? || pc.MetaEnter? || pc.AwaitMeta? || pc.MetaFetching?
    ensures Inv(Resume(s, t, ch)) && Rely(s, Resume(s, t, ch), t)
  {
    ResumeIsMetadata(s, t, ch);
    if s.threads[t].pc.MetaEnter? {
      EnterMetadataStep(s, t);
    } else if s.threads[t].pc.MetaFetching? {
      FlightStep(s, t, ch);
    } else {
      MetadataStep(s, t, ch);
    }
  }

  lemma ReadStep(s: Sys, t: Tid, ch: Choice)
    requires Inv(s) && Enabled(s, t, Continue(ch))
    requires var pc := s.threads[t].pc; pc.AwaitAuth? || pc.ReadConfig? || pc.ReadSlot? || pc.ReadAgain?
    ensures Inv(Resume(s, t, ch)) && Rely(s, Resume(s, t, ch), t)
  {
    if s.threads[t].pc.AwaitAuth? {
      Move(s, t, ReadConfig);
    } else {
      ReaderStep(s, t);
    }
  }

  lemma StartsStep(s: Sys, t: Tid, ch: Choice)
    requires Inv(s) && Enabled(s, t, Continue(ch)) && s.threads[t].pc.Start?
    ensures Inv(Resume(s, t, ch)) && Rely(s, Resume(s, t, ch), t)
  {
    var cred := s.threads[t].pc.cred;
    if cred.Invalid? {
      RejectStep(s, t, s.threads[t].auth);
    } else {
      EnterStep(s, t, KeyFor(s, cred));
    }
  }

  lemma ResumeStep(s: Sys, t: Tid, ch: Choice)
    requires Inv(s) && Enabled(s, t, Continue(ch))
    ensures Inv(Resume(s, t, ch)) && Rely(s, Resume(s, t, ch), t)
  {
    var pc := s.threads[t].pc;
    if pc.Start? {
      StartsStep(s, t, ch);
    } else if pc.AwaitAuth? || pc.ReadConfig? || pc.ReadSlot? || pc.ReadAgain? {
      ReadStep(s, t, ch);
    } else if pc.Selected? || pc.MetaEnter? || pc.AwaitMeta? || pc.MetaFetching? {
      FromMetadata(s, t, ch);
    } else if pc.Fetching? || pc.LoadingShared? || pc.AwaitPeers? {
      FromCatalog(s, t, ch);
    } else if pc.Finishing? {
      FinishStep(s, t);
    } else {
      BeforeCatalog(s, t, ch);
    }
  }

  /** Every step keeps the invariant and the guarantee of the goroutine that takes it. */
  lemma StepKeepsInvariant(s: Sys, t: Tid, a: Action)
    requires Inv(s) && Enabled(s, t, a)
    ensures Inv(Apply(s, t, a)) && Rely(s, Apply(s, t, a), t)
  {
    match a
    case Bootstrap(auth, cred) => SpawnStep(s, t, Thread(auth, Start(cred)));
    case Read(auth) => SpawnStep(s, t, Thread(auth, ReadConfig));
    case Reconfigure(configured) => ReconfigureStep(s, t, configured);
    case MarkNotStarted(auth) => MarkStep(s, t, auth);
    case Continue(ch) => ResumeStep(s, t, ch);
  }

  lemma InitHolds(s: Sys)
    requires Init(s)
    ensures Inv(s)
  {
    forall a ensures SlotOK(s, a) {}
    forall id ensures LogOK(s, id) && IdentOK(s, id) {
      forall c ensures ActiveOK(s, id, c) {}
    }
  }
}
