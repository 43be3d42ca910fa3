/** Streamed tool-call fragments and the calls they add up to (internal/upstream/sse.go). */
module SseToolCalls {
  import opened Common

  /** A fragment; a missing string is "", a missing name key is None. */
  datatype Fragment = Fragment(index: Option<int>, id: string, kind: string, name: Option<string>, arguments: string)

  /** What has been put together for one call. */
  datatype Merged = Merged(id: string, kind: string, name: string, arguments: string)

  const NOTHING := Merged("", "", "", "")

  /** The calls by slot, the slots in the order they were opened, where to look for the next
      free slot, and the slot of each id. */
  datatype Slots = Slots(calls: map<int, Merged>, order: seq<int>, next: nat, slotOf: map<string, int>)

  const NO_SLOTS := Slots(map[], [], 0, map[])

  // ------------------------------------------------------------ one fragment

  function Over(new': string, was: string): string {
    if new' != "" then new' else was
  }

  function MergeDelta(m: Merged, f: Fragment): Merged {
    Merged(Over(f.id, m.id), Over(f.kind, m.kind), Over(if f.name.Some? then f.name.value else "", m.name),
           m.arguments + f.arguments)
  }

  ghost function Above(calls: map<int, Merged>, k: nat): set<int> {
    set j | j in calls && j >= k
  }

  function NextFree(calls: map<int, Merged>, k: nat): (r: nat)
    ensures k <= r && r !in calls && forall j :: k <= j < r ==> j in calls
    decreases Above(calls, k)
  {
    if k in calls then
      assert k in Above(calls, k) && k !in Above(calls, k + 1);
      NextFree(calls, k + 1)
    else k
  }

  /** Whether a fragment opens a slot that has to be looked for. */
  predicate NeedsSlot(s: Slots, f: Fragment) {
    f.index.None? && (if f.id != "" then f.id !in s.slotOf else s.order == [])
  }

  /** The slot a fragment belongs to: by its index, else by its id, else the slot that was
      opened last. */
  function SlotFor(s: Slots, f: Fragment): int {
    if f.index.Some? then f.index.value
    else if NeedsSlot(s, f) then NextFree(s.calls, s.next)
    else if f.id != "" then s.slotOf[f.id]
    else s.order[|s.order| - 1]
  }

  function MergedAt(s: Slots, k: int): Merged {
    if k in s.calls then s.calls[k] else NOTHING
  }

  function Learn(slotOf: map<string, int>, id: string, k: int): map<string, int> {
    if id == "" then slotOf else slotOf[id := k]
  }

  function Take(s: Slots, f: Fragment): Slots {
    var k := SlotFor(s, f);
    Slots(
      s.calls[k := MergeDelta(MergedAt(s, k), f)],
      if k in s.calls then s.order else s.order + [k],
      if NeedsSlot(s, f) then NextFree(s.calls, s.next) + 1 else s.next,
      Learn(Learn(s.slotOf, f.id, k), MergedAt(s, k).id, k))
  }

  function TakeAll(s: Slots, fs: seq<Fragment>): Slots {
    if fs == [] then s else Take(TakeAll(s, fs[..|fs| - 1]), fs[|fs| - 1])
  }

  // ------------------------------------------------------------ what adds up

  /** The slot of the i-th fragment of a stream. */
  function SlotAt(fs: seq<Fragment>, i: nat): int
    requires i < |fs|
  {
    SlotFor(TakeAll(NO_SLOTS, fs[..i]), fs[i])
  }

  /** The arguments of the fragments of a slot, in order. */
  function ArgumentsOf(fs: seq<Fragment>, k: int): string {
    if fs == [] then ""
    else
      var n := |fs| - 1;
      ArgumentsOf(fs[..n], k) + if SlotAt(fs, n) == k then fs[n].arguments else ""
  }

  lemma SlotAtFront(fs: seq<Fragment>, n: nat, i: nat)
    requires i < n <= |fs|
    ensures SlotAt(fs[..n], i) == SlotAt(fs, i)
  {
    assert fs[..n][..i] == fs[..i];
  }

  lemma TakeAdds(s: Slots, f: Fragment, k: int)
    ensures MergedAt(Take(s, f), k).arguments == MergedAt(s, k).arguments + if SlotFor(s, f) == k then f.arguments else ""
    ensures k in Take(s, f).calls <==> k in s.calls || SlotFor(s, f) == k
  {
    assert MergedAt(s, k).arguments + "" == MergedAt(s, k).arguments;
  }

  /** Whatever the stream looks like, a call's arguments are those of its fragments, one
      after the other. */
  lemma {:induction false} ArgumentsAddUp(fs: seq<Fragment>, k: int)
    ensures MergedAt(TakeAll(NO_SLOTS, fs), k).arguments == ArgumentsOf(fs, k)
  {
    if fs != [] {
      ArgumentsAddUp(fs[..|fs| - 1], k);
      TakeAdds(TakeAll(NO_SLOTS, fs[..|fs| - 1]), fs[|fs| - 1], k);
    }
  }

  /** The last value that is not empty among those of the slot's fragments. */
  function LastOf(fs: seq<Fragment>, k: int, part: Fragment -> string): string {
    if fs == [] then ""
    else
      var n := |fs| - 1;
      if SlotAt(fs, n) == k && part(fs[n]) != "" then part(fs[n]) else LastOf(fs[..n], k, part)
  }

  function NameIn(f: Fragment): string {
    if f.name.Some? then f.name.value else ""
  }

  /** A call's id, type and name are the last ones that its fragments carry. */
  lemma {:induction false} IdentityIsLast(fs: seq<Fragment>, k: int)
    ensures var m := MergedAt(TakeAll(NO_SLOTS, fs), k);
            && m.id == LastOf(fs, k, (f: Fragment) => f.id)
            && m.kind == LastOf(fs, k, (f: Fragment) => f.kind)
            && m.name == LastOf(fs, k, NameIn)
  {
    if fs != [] {
      IdentityIsLast(fs[..|fs| - 1], k);
    }
  }

  predicate Lands(fs: seq<Fragment>, i: int, k: int) {
    0 <= i < |fs| && SlotAt(fs, i) == k
  }

  /** The fragment at some position belongs to the slot. */
  ghost predicate Reached(fs: seq<Fragment>, k: int) {
    exists i :: Lands(fs, i, k)
  }

  lemma LandsFront(fs: seq<Fragment>, i: int, k: int)
    requires fs != []
    ensures Lands(fs, i, k) <==> Lands(fs[..|fs| - 1], i, k) || (i == |fs| - 1 && Lands(fs, |fs| - 1, k))
  {
    if 0 <= i < |fs| - 1 {
      SlotAtFront(fs, |fs| - 1, i);
    }
  }

  lemma ReachedLast(fs: seq<Fragment>, k: int)
    requires fs != []
    ensures Reached(fs, k) <==> Reached(fs[..|fs| - 1], k) || Lands(fs, |fs| - 1, k)
  {
    var front := fs[..|fs| - 1];
    if Reached(fs, k) {
      var i :| Lands(fs, i, k);
      LandsFront(fs, i, k);
    }
    if Reached(front, k) {
      var i :| Lands(front, i, k);
      LandsFront(fs, i, k);
    }
  }

  /** The calls are exactly the slots that fragments belong to. */
  lemma {:induction false} CallsAreReached(fs: seq<Fragment>, k: int)
    ensures k in TakeAll(NO_SLOTS, fs).calls <==> Reached(fs, k)
  {
    if fs != [] {
      CallsAreReached(fs[..|fs| - 1], k);
      TakeAdds(TakeAll(NO_SLOTS, fs[..|fs| - 1]), fs[|fs| - 1], k);
      ReachedLast(fs, k);
    }
  }

  // ------------------------------------------------------------ streams with indices

  predicate AllIndexed(fs: seq<Fragment>) {
    forall i :: 0 <= i < |fs| ==> fs[i].index.Some?
  }

  function ArgumentsAt(fs: seq<Fragment>, k: int): string {
    if fs == [] then ""
    else ArgumentsAt(fs[..|fs| - 1], k) + if fs[|fs| - 1].index == Some(k) then fs[|fs| - 1].arguments else ""
  }

  lemma {:induction false} IndexedArguments(fs: seq<Fragment>, k: int)
    requires AllIndexed(fs)
    ensures ArgumentsOf(fs, k) == ArgumentsAt(fs, k)
  {
    if fs != [] {
      IndexedArguments(fs[..|fs| - 1], k);
    }
  }

  /** When every fragment has an index, the arguments of call k are the concatenation of the
      fragments with index k, in order. */
  lemma IndexedAddUp(fs: seq<Fragment>, k: int)
    requires AllIndexed(fs)
    ensures MergedAt(TakeAll(NO_SLOTS, fs), k).arguments == ArgumentsAt(fs, k)
    ensures k in TakeAll(NO_SLOTS, fs).calls <==> exists i :: 0 <= i < |fs| && fs[i].index == Some(k)
  {
    ArgumentsAddUp(fs, k);
    CallsAreReached(fs, k);
    IndexedArguments(fs, k);
    forall i | 0 <= i < |fs| ensures Lands(fs, i, k) <==> fs[i].index == Some(k) {
    }
  }

  // ------------------------------------------------------------ streams without indices

  predicate NoneIndexed(fs: seq<Fragment>) {
    forall i :: 0 <= i < |fs| ==> fs[i].index.None?
  }

  /** The slots are 0, 1, 2, ... in the order of opening, and each id has one of its own. */
  ghost predicate Tidy(s: Slots) {
    && s.next == |s.order| && (forall i :: 0 <= i < |s.order| ==> s.order[i] == i)
    && (forall k :: k in s.calls <==> 0 <= k < s.next)
    && (forall id :: id in s.slotOf ==> id != "" && s.slotOf[id] in s.calls && s.calls[s.slotOf[id]].id == id)
    && (forall k :: k in s.calls && s.calls[k].id != "" ==> s.calls[k].id in s.slotOf && s.slotOf[s.calls[k].id] == k)
  }

  /** What a step keeps of the ids' slots. */
  ghost predicate Extends(s: Slots, f: Fragment, s': Slots) {
    && (f.id != "" ==> f.id in s'.slotOf && s'.slotOf[f.id] == SlotFor(s, f))
    && (forall id :: id in s.slotOf ==> id in s'.slotOf && s'.slotOf[id] == s.slotOf[id])
  }

  lemma TidyOpens(s: Slots, f: Fragment)
    requires Tidy(s) && f.index.None? && NeedsSlot(s, f)
    ensures Tidy(Take(s, f))
  {
  }

  lemma OpensExtends(s: Slots, f: Fragment)
    requires Tidy(s) && f.index.None? && NeedsSlot(s, f)
    ensures Extends(s, f, Take(s, f))
  {
  }

  lemma TidyContinues(s: Slots, f: Fragment)
    requires Tidy(s) && f.index.None? && !NeedsSlot(s, f)
    ensures Tidy(Take(s, f)) && Extends(s, f, Take(s, f))
  {
  }

  lemma TidyStep(s: Slots, f: Fragment)
    requires Tidy(s) && f.index.None?
    ensures Tidy(Take(s, f)) && Extends(s, f, Take(s, f))
  {
    if NeedsSlot(s, f) {
      TidyOpens(s, f);
      OpensExtends(s, f);
    } else {
      TidyContinues(s, f);
    }
  }

  lemma {:induction false} TidyRun(fs: seq<Fragment>)
    requires NoneIndexed(fs)
    ensures Tidy(TakeAll(NO_SLOTS, fs))
  {
    if fs != [] {
      TidyRun(fs[..|fs| - 1]);
      TidyStep(TakeAll(NO_SLOTS, fs[..|fs| - 1]), fs[|fs| - 1]);
    }
  }

  /** The stream has put the id into the slot. */
  ghost predicate Owns(fs: seq<Fragment>, id: string, k: int) {
    var s := TakeAll(NO_SLOTS, fs);
    id in s.slotOf && s.slotOf[id] == k
  }

  lemma {:induction false} IdKeepsSlot(fs: seq<Fragment>, i: nat, j: nat)
    requires NoneIndexed(fs) && i < j <= |fs| && fs[i].id != ""
    ensures Owns(fs[..j], fs[i].id, SlotAt(fs, i))
    decreases j
  {
    TidyRun(fs[..j - 1]);
    TidyStep(TakeAll(NO_SLOTS, fs[..j - 1]), fs[j - 1]);
    assert fs[..j][..j - 1] == fs[..j - 1];
    if i < j - 1 {
      IdKeepsSlot(fs, i, j - 1);
    }
  }

  lemma OwnersDiffer(fs: seq<Fragment>, a: string, ka: int, b: string, kb: int)
    requires NoneIndexed(fs) && Owns(fs, a, ka) && Owns(fs, b, kb)
    ensures ka == kb <==> a == b
  {
    TidyRun(fs);
  }

  /** Without indices, two fragments with ids share a slot exactly when the ids are equal. */
  lemma IdsHaveOwnSlots(fs: seq<Fragment>, i: nat, j: nat)
    requires NoneIndexed(fs) && i < j < |fs| && fs[i].id != "" && fs[j].id != ""
    ensures SlotAt(fs, i) == SlotAt(fs, j) <==> fs[i].id == fs[j].id
  {
    IdKeepsSlot(fs, i, j + 1);
    IdKeepsSlot(fs, j, j + 1);
    OwnersDiffer(fs[..j + 1], fs[i].id, SlotAt(fs, i), fs[j].id, SlotAt(fs, j));
  }

  /** Without indices, a fragment without an id goes to the slot that was opened last: the
      highest slot that any earlier fragment belongs to. */
  lemma NamelessJoinLast(fs: seq<Fragment>, i: nat, j: nat)
    requires NoneIndexed(fs) && i < j < |fs| && fs[j].id == ""
    ensures SlotAt(fs, i) <= SlotAt(fs, j) && Reached(fs[..j], SlotAt(fs, j))
  {
    TidyRun(fs[..j]);
    SlotAtFront(fs, j, i);
    CallsAreReached(fs[..j], SlotAt(fs, i));
    CallsAreReached(fs[..j], SlotAt(fs, j));
    assert Lands(fs[..j], i, SlotAt(fs, i));
  }

  // ------------------------------------------------------------ the call of the fragment before

  /** The first position with the element at position `i`. */
  function First<T(==)>(xs: seq<T>, i: nat): (r: nat)
    requires i < |xs|
    ensures r <= i && xs[r] == xs[i] && forall g :: 0 <= g < r ==> xs[g] != xs[i]
  {
    FirstFrom(xs, i, 0)
  }

  function FirstFrom<T(==)>(xs: seq<T>, i: nat, h: nat): (r: nat)
    requires h <= i < |xs| && forall g :: 0 <= g < h ==> xs[g] != xs[i]
    ensures r <= i && xs[r] == xs[i] && forall g :: 0 <= g < r ==> xs[g] != xs[i]
    decreases i - h
  {
    if xs[h] == xs[i] then h else FirstFrom(xs, i, h + 1)
  }

  /** Of the first `n` elements, none comes up for the first time after position `o`. */
  ghost predicate LastNew(ks: seq<int>, n: nat, o: nat)
    requires n <= |ks|
  {
    o < n && First(ks, o) == o && forall i :: 0 <= i < n ==> First(ks, i) <= o
  }

  lemma LastNewKnown(ks: seq<int>, n: nat, o: nat)
    requires n < |ks| && LastNew(ks, n, o) && ks[n] in ks[..n]
    ensures LastNew(ks, n + 1, o)
  {
    var i :| 0 <= i < n && ks[..n][i] == ks[n];
    assert First(ks, n) == First(ks, i);
  }

  lemma LastNewHere(ks: seq<int>, n: nat)
    requires n < |ks| && ks[n] !in ks[..n]
    ensures LastNew(ks, n + 1, n)
  {
    forall i | 0 <= i < n ensures ks[i] != ks[n] {
      assert ks[..n][i] == ks[i];
    }
  }

  lemma PreviousIsLastNew(ks: seq<int>, j: nat, o: nat)
    requires 0 < j <= |ks| && LastNew(ks, j, o)
    ensures ks[o] == ks[j - 1] <==> forall i :: 0 <= i < j ==> First(ks, i) <= First(ks, j - 1)
  {
    if ks[o] == ks[j - 1] {
      assert First(ks, j - 1) == o;
    }
  }

  /** The slots of the fragments, and their ids. */
  function SlotsOf(fs: seq<Fragment>): (ks: seq<int>)
    ensures |ks| == |fs|
  {
    seq(|fs|, i requires 0 <= i < |fs| => SlotAt(fs, i))
  }

  function IdsOf(fs: seq<Fragment>): (ids: seq<string>)
    ensures |ids| == |fs|
  {
    seq(|fs|, i requires 0 <= i < |fs| => fs[i].id)
  }

  lemma SlotsAt(fs: seq<Fragment>, i: nat)
    requires i < |fs|
    ensures SlotsOf(fs)[i] == SlotAt(fs, i)
  {
  }

  /** The slots that the first `n` fragments have opened, by the slots they belong to. */
  lemma OpenSlots(fs: seq<Fragment>, n: nat, k: int)
    requires n <= |fs|
    ensures k in TakeAll(NO_SLOTS, fs[..n]).calls <==> k in SlotsOf(fs)[..n]
  {
    CallsAreReached(fs[..n], k);
    var ks := SlotsOf(fs);
    if Reached(fs[..n], k) {
      var i :| Lands(fs[..n], i, k);
      SlotAtFront(fs, n, i);
      SlotsAt(fs, i);
      assert ks[..n][i] == k;
    }
    if k in ks[..n] {
      var i :| 0 <= i < n && ks[..n][i] == k;
      SlotsAt(fs, i);
      SlotAtFront(fs, n, i);
      assert Lands(fs[..n], i, k);
    }
  }

  function LastSlot(fs: seq<Fragment>, n: nat): Option<int>
    requires n <= |fs|
  {
    var order := TakeAll(NO_SLOTS, fs[..n]).order;
    if order == [] then None else Some(order[|order| - 1])
  }

  lemma LastSlotStep(fs: seq<Fragment>, n: nat)
    requires n < |fs|
    ensures LastSlot(fs, n + 1) == if SlotsOf(fs)[n] in SlotsOf(fs)[..n] then LastSlot(fs, n) else Some(SlotsOf(fs)[n])
  {
    assert fs[..n + 1][..n] == fs[..n] && fs[..n + 1][n] == fs[n];
    SlotsAt(fs, n);
    OpenSlots(fs, n, SlotsOf(fs)[n]);
  }

  /** The slot that is remembered as the last one is that of the last fragment that opened one. */
  lemma {:induction false} LastOpened(fs: seq<Fragment>, n: nat) returns (o: nat)
    requires 0 < n <= |fs|
    ensures LastNew(SlotsOf(fs), n, o) && LastSlot(fs, n) == Some(SlotsOf(fs)[o])
    decreases n
  {
    var m, ks := n - 1, SlotsOf(fs);
    LastSlotStep(fs, m);
    if ks[m] in ks[..m] {
      o := LastOpened(fs, m);
      LastNewKnown(ks, m, o);
    } else {
      o := m;
      LastNewHere(ks, m);
    }
  }

  /** A fragment without index and id, but not the first, goes to the last slot. */
  lemma NamelessSlot(fs: seq<Fragment>, j: nat, k: int)
    requires j < |fs| && fs[j].index.None? && fs[j].id == "" && LastSlot(fs, j) == Some(k)
    ensures SlotsOf(fs)[j] == k
  {
    SlotsAt(fs, j);
  }

  /** In every stream, a fragment without index and id joins the call of the fragment before it
      exactly when no call was opened after that one. */
  lemma NamelessJoinsPrevious(fs: seq<Fragment>, j: nat)
    requires 0 < j < |fs| && fs[j].index.None? && fs[j].id == ""
    ensures var ks := SlotsOf(fs);
            ks[j] == ks[j - 1] <==> forall i :: 0 <= i < j ==> First(ks, i) <= First(ks, j - 1)
  {
    var o := LastOpened(fs, j);
    NamelessSlot(fs, j, SlotsOf(fs)[o]);
    PreviousIsLastNew(SlotsOf(fs), j, o);
  }

  // ------------------------------------------------------------ in terms of the ids

  lemma {:induction false} KnownIds(fs: seq<Fragment>, id: string)
    requires NoneIndexed(fs) && id in TakeAll(NO_SLOTS, fs).slotOf
    ensures exists h :: 0 <= h < |fs| && fs[h].id == id
  {
    if fs != [] {
      var n := |fs| - 1;
      TidyRun(fs[..n]);
      if fs[n].id != id {
        KnownIds(fs[..n], id);
        var h :| 0 <= h < n && fs[..n][h].id == id;
        assert fs[h].id == id;
      }
    }
  }

  /** Without indices, the first fragment with an id opens a slot. */
  lemma NewIdOpens(fs: seq<Fragment>, f: nat)
    requires NoneIndexed(fs) && f < |fs| && fs[f].id != "" && forall g :: 0 <= g < f ==> fs[g].id != fs[f].id
    ensures SlotAt(fs, f) !in TakeAll(NO_SLOTS, fs[..f]).calls
  {
    TidyRun(fs[..f]);
    if fs[f].id in TakeAll(NO_SLOTS, fs[..f]).slotOf {
      KnownIds(fs[..f], fs[f].id);
    }
  }

  /** Without indices a call with an id is opened by the first fragment with that id. */
  lemma IdOpens(fs: seq<Fragment>, i: nat)
    requires NoneIndexed(fs) && i < |fs| && fs[i].id != ""
    ensures First(SlotsOf(fs), i) == First(IdsOf(fs), i)
  {
    var f, ks := First(IdsOf(fs), i), SlotsOf(fs);
    if f < i {
      IdsHaveOwnSlots(fs, f, i);
    }
    SlotsAt(fs, f);
    SlotsAt(fs, i);
    forall g | 0 <= g < f ensures fs[g].id != fs[f].id {
      assert IdsOf(fs)[g] != IdsOf(fs)[i];
    }
    NewIdOpens(fs, f);
    OpenSlots(fs, f, ks[f]);
    forall g | 0 <= g < f ensures ks[g] != ks[f] {
      assert ks[..f][g] == ks[g];
    }
  }

  /** Every call was opened by a fragment with an id, or by the very first fragment. */
  lemma {:induction false} OpenedByName(fs: seq<Fragment>, i: nat, bound: nat)
    requires NoneIndexed(fs) && i < |fs|
    requires forall h :: 0 <= h <= i && fs[h].id != "" ==> First(IdsOf(fs), h) <= bound
    ensures First(SlotsOf(fs), i) <= bound
    decreases i
  {
    if fs[i].id != "" {
      IdOpens(fs, i);
    } else if i > 0 {
      var o := LastOpened(fs, i);
      NamelessSlot(fs, i, SlotsOf(fs)[o]);
      OpenedByName(fs, o, bound);
    }
  }

  /** The first fragment with the id of the fragment before `j` comes after the first ones with
      all other ids. */
  ghost predicate NewestId(fs: seq<Fragment>, j: nat)
    requires 0 < j <= |fs|
  {
    forall i :: 0 <= i < j && fs[i].id != "" ==> First(IdsOf(fs), i) <= First(IdsOf(fs), j - 1)
  }

  lemma NewestIsLast(fs: seq<Fragment>, j: nat)
    requires NoneIndexed(fs) && 0 < j <= |fs| && fs[j - 1].id != ""
    ensures NewestId(fs, j) <==> forall i :: 0 <= i < j ==> First(SlotsOf(fs), i) <= First(SlotsOf(fs), j - 1)
  {
    IdOpens(fs, j - 1);
    forall i | 0 <= i < j && fs[i].id != "" ensures First(SlotsOf(fs), i) == First(IdsOf(fs), i) {
      IdOpens(fs, i);
    }
    if NewestId(fs, j) {
      forall i | 0 <= i < j ensures First(SlotsOf(fs), i) <= First(SlotsOf(fs), j - 1) {
        OpenedByName(fs, i, First(IdsOf(fs), j - 1));
      }
    }
  }

  lemma NamelessAfterNameless(fs: seq<Fragment>, j: nat)
    requires NoneIndexed(fs) && 0 < j < |fs| && fs[j].id == "" && fs[j - 1].id == ""
    ensures SlotsOf(fs)[j] == SlotsOf(fs)[j - 1]
  {
    var k := SlotsOf(fs)[j - 1];
    LastSlotStep(fs, j - 1);
    if j > 1 {
      var o := LastOpened(fs, j - 1);
      NamelessSlot(fs, j - 1, SlotsOf(fs)[o]);
    }
    NamelessSlot(fs, j, k);
  }

  /** Without indices: a nameless fragment joins the call of the fragment before it exactly when
      that is nameless too, or its id is the one that came up last. */
  lemma NamelessFollowsIds(fs: seq<Fragment>, j: nat)
    requires NoneIndexed(fs) && 0 < j < |fs| && fs[j].id == ""
    ensures SlotAt(fs, j) == SlotAt(fs, j - 1) <==> fs[j - 1].id == "" || NewestId(fs, j)
  {
    SlotsAt(fs, j);
    SlotsAt(fs, j - 1);
    if fs[j - 1].id == "" {
      NamelessAfterNameless(fs, j);
    } else {
      NamelessJoinsPrevious(fs, j);
      NewestIsLast(fs, j);
    }
  }

  /** The failing case: after the ids a, b, a a nameless fragment does not join a. */
  lemma NamelessMissesPrevious(a: Fragment, b: Fragment, none: Fragment)
    requires a.index.None? && b.index.None? && none.index.None? && a.id == "a" && b.id == "b" && none.id == ""
    ensures SlotAt([a, b, a, none], 3) != SlotAt([a, b, a, none], 2)
  {
    var fs := [a, b, a, none];
    assert IdsOf(fs) == ["a", "b", "a", ""];
    NamelessFollowsIds(fs, 3);
    assert First(IdsOf(fs), 1) == 1 && First(IdsOf(fs), 2) == 0 && fs[1].id == "b";
  }

  // ------------------------------------------------------------ names once only

  function IndexOf(f: Fragment): int {
    if f.index.Some? then f.index.value else 0
  }

  function Seen(fs: seq<Fragment>): set<int> {
    set i | 0 <= i < |fs| :: IndexOf(fs[i])
  }

  /** Each fragment, without its name if its index has been seen before. */
  function Strip(seen: set<int>, fs: seq<Fragment>): (r: seq<Fragment>)
    ensures |r| == |fs|
  {
    if fs == [] then []
    else
      var n := |fs| - 1;
      Strip(seen, fs[..n]) + [if IndexOf(fs[n]) in seen + Seen(fs[..n]) then fs[n].(name := None) else fs[n]]
  }

  /** Three ways in which clients build the name of a call: adding up, overwriting with what
      is not empty, overwriting with what is there. */
  datatype Reader = Adding | OverwritingText | OverwritingKey

  function ReadOne(r: Reader, was: string, name: Option<string>): string {
    match r
    case Adding => was + if name.Some? then name.value else ""
    case OverwritingText => Over(if name.Some? then name.value else "", was)
    case OverwritingKey => if name.Some? then name.value else was
  }

  function NameOf(r: Reader, fs: seq<Fragment>, k: int): string {
    if fs == [] then ""
    else
      var n := |fs| - 1;
      var was := NameOf(r, fs[..n], k);
      if IndexOf(fs[n]) == k then ReadOne(r, was, fs[n].name) else was
  }

  /** The name that the first fragment of an index carries. */
  function FirstName(fs: seq<Fragment>, k: int): string {
    if fs == [] then ""
    else if k in Seen(fs[..|fs| - 1]) then FirstName(fs[..|fs| - 1], k)
    else if IndexOf(fs[|fs| - 1]) == k && fs[|fs| - 1].name.Some? then fs[|fs| - 1].name.value
    else ""
  }

  lemma SeenLast(fs: seq<Fragment>)
    requires fs != []
    ensures Seen(fs) == Seen(fs[..|fs| - 1]) + {IndexOf(fs[|fs| - 1])}
  {
    var n := |fs| - 1;
    forall i | 0 <= i < n ensures IndexOf(fs[..n][i]) == IndexOf(fs[i]) {
    }
    forall k | k in Seen(fs) ensures k in Seen(fs[..n]) + {IndexOf(fs[n])} {
      var i :| 0 <= i < |fs| && IndexOf(fs[i]) == k;
      assert i < n ==> IndexOf(fs[..n][i]) == k;
    }
    forall k | k in Seen(fs[..n]) ensures k in Seen(fs) {
      var i :| 0 <= i < n && IndexOf(fs[..n][i]) == k;
      assert IndexOf(fs[i]) == k;
    }
  }

  lemma StripLast(seen: set<int>, fs: seq<Fragment>)
    requires fs != []
    ensures var n := |fs| - 1;
            && Strip(seen, fs)[..n] == Strip(seen, fs[..n])
            && Strip(seen, fs)[n] == if IndexOf(fs[n]) in seen + Seen(fs[..n]) then fs[n].(name := None) else fs[n]
  {
  }

  /** The same index; a missing one is 0. */
  predicate SameIndex(f: Fragment, g: Fragment) {
    (if f.index.None? then 0 else f.index.value) == (if g.index.None? then 0 else g.index.value)
  }

  /** A fragment loses its name exactly if an earlier one of the stream has the same index, and
      nothing else changes. */
  lemma {:induction false} StripsRepeated(fs: seq<Fragment>, i: nat)
    requires i < |fs|
    ensures Strip({}, fs)[i] ==
              if exists j :: 0 <= j < i && SameIndex(fs[j], fs[i]) then fs[i].(name := None) else fs[i]
    decreases |fs|
  {
    var n := |fs| - 1;
    StripLast({}, fs);
    if i < n {
      StripsRepeated(fs[..n], i);
      assert Strip({}, fs)[..n][i] == Strip({}, fs)[i];
      assert forall j :: 0 <= j <= i ==> fs[..n][j] == fs[j];
    } else {
      assert forall j :: 0 <= j < n ==> fs[..n][j] == fs[j];
    }
  }

  lemma {:induction false} UnseenHasNoName(r: Reader, fs: seq<Fragment>, k: int)
    requires k !in Seen(fs)
    ensures NameOf(r, Strip({}, fs), k) == ""
  {
    if fs != [] {
      SeenLast(fs);
      UnseenHasNoName(r, fs[..|fs| - 1], k);
      StripLast({}, fs);
    }
  }

  /** After stripping, every reader builds the name of the first fragment. */
  lemma {:induction false} ReadersAgree(r: Reader, fs: seq<Fragment>, k: int)
    ensures NameOf(r, Strip({}, fs), k) == FirstName(fs, k)
  {
    if fs != [] {
      var n := |fs| - 1;
      StripLast({}, fs);
      ReadersAgree(r, fs[..n], k);
      SeenLast(fs);
      if k !in Seen(fs[..n]) {
        UnseenHasNoName(r, fs[..n], k);
      }
    }
  }

  /** Stripping touches nothing but names, and leaves each index at most one. */
  lemma {:induction false} NamesComeOnce(seen: set<int>, fs: seq<Fragment>, j: nat)
    requires j < |fs|
    ensures Strip(seen, fs)[j] == if IndexOf(fs[j]) in seen + Seen(fs[..j]) then fs[j].(name := None) else fs[j]
  {
    StripLast(seen, fs);
    var n := |fs| - 1;
    if j < n {
      NamesComeOnce(seen, fs[..n], j);
      assert fs[..n][..j] == fs[..j] && Strip(seen, fs)[..n][j] == Strip(seen, fs)[j];
    }
  }

  lemma {:induction false} SeenAppend(a: seq<Fragment>, b: seq<Fragment>)
    ensures Seen(a + b) == Seen(a) + Seen(b)
    decreases |b|
  {
    if b == [] {
      assert a + b == a;
    } else {
      SeenAppend(a, b[..|b| - 1]);
      assert (a + b)[..|a + b| - 1] == a + b[..|b| - 1];
      SeenLast(a + b);
      SeenLast(b);
    }
  }

  /** Stripping a stream frame by frame, remembering the indices seen, is stripping it whole. */
  lemma {:induction false} StripFrames(seen: set<int>, a: seq<Fragment>, b: seq<Fragment>)
    ensures Strip(seen, a + b) == Strip(seen, a) + Strip(seen + Seen(a), b)
    decreases |b|
  {
    if b == [] {
      assert a + b == a;
    } else {
      var n := |b| - 1;
      assert (a + b)[..|a + b| - 1] == a + b[..n];
      StripFrames(seen, a, b[..n]);
      SeenAppend(a, b[..n]);
      assert (seen + Seen(a)) + Seen(b[..n]) == seen + (Seen(a) + Seen(b[..n]));
      StripLast(seen, a + b);
      StripLast(seen + Seen(a), b);
    }
  }

  // ------------------------------------------------------------ the loops

  class Aggregator {
    var calls: map<int, Merged>
    var order: seq<int>
    var next: nat
    var slotOf: map<string, int>

    function Value(): Slots
      reads this
    {
      Slots(calls, order, next, slotOf)
    }

    constructor ()
      ensures Value() == NO_SLOTS
    {
      calls, order, next, slotOf := map[], [], 0, map[];
    }

    method NextToolIndex() returns (k: nat)
      modifies this`next
      ensures k == NextFree(calls, old(next)) && next == k + 1
    {
      while next in calls
        invariant NextFree(calls, next) == NextFree(calls, old(next))
        decreases Above(calls, next)
      {
        assert next in Above(calls, next) && next !in Above(calls, next + 1);
        next := next + 1;
      }
      k := next;
      next := next + 1;
    }

    /** One fragment. */
    method MergeFragment(f: Fragment)
      modifies this
      ensures Value() == Take(old(Value()), f)
    {
      var k: int;
      if f.index.Some? {
        k := f.index.value;
      } else if f.id != "" {
        if f.id in slotOf {
          k := slotOf[f.id];
        } else {
          k := NextToolIndex();
        }
      } else if order != [] {
        k := order[|order| - 1];
      } else {
        k := NextToolIndex();
      }
      if k !in calls {
        calls := calls[k := NOTHING];
        order := order + [k];
      }
      var merged := calls[k];
      if f.id != "" {
        slotOf := slotOf[f.id := k];
      }
      if merged.id != "" {
        slotOf := slotOf[merged.id := k];
      }
      calls := calls[k := MergeDelta(merged, f)];
    }

    /** A list of fragments, as one frame carries them. */
    method MergeToolCallsChunk(fs: seq<Fragment>)
      modifies this
      ensures Value() == TakeAll(old(Value()), fs)
    {
      for i := 0 to |fs|
        invariant Value() == TakeAll(old(Value()), fs[..i])
      {
        assert fs[..i + 1][..i] == fs[..i];
        MergeFragment(fs[i]);
      }
      assert fs[..|fs|] == fs;
    }
  }

  /** The names of one frame, given the indices seen in earlier ones. */
  method StripToolCallNames(fs: seq<Fragment>, seen: set<int>) returns (r: seq<Fragment>, now: set<int>)
    ensures r == Strip(seen, fs) && now == seen + Seen(fs)
  {
    r, now := [], seen;
    for i := 0 to |fs|
      invariant r == Strip(seen, fs[..i]) && now == seen + Seen(fs[..i])
    {
      assert fs[..i + 1][..i] == fs[..i];
      SeenLast(fs[..i + 1]);
      var k := IndexOf(fs[i]);
      if k in now {
        r := r + [fs[i].(name := None)];
      } else {
        r := r + [fs[i]];
        now := now + {k};
      }
    }
    assert fs[..|fs|] == fs;
  }
}
