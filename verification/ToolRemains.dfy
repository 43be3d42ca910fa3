/**
 What the clean-up of tool calls and results leaves of a message list, told by the fields of
 its messages and by positions (internal/upstream/tool_pairing.go).
 */
module ToolRemains {
  import opened Common
  import opened ToolPairing
  import opened ToolCleanup

  /** The call at position `k` of the message at `i` has the id. */
  ghost predicate Declared(ms: seq<Message>, i: int, k: int, id: Id) {
    && 0 <= i < |ms| && ms[i].Message? && ms[i].role == Assistant && ms[i].calls.List?
    && 0 <= k < |ms[i].calls.calls| && ms[i].calls.calls[k].Call? && ms[i].calls.calls[k].id == id
  }

  ghost predicate Named(ms: seq<Message>, i: int, k: int) {
    && 0 <= i < |ms| && ms[i].Message? && ms[i].calls.List?
    && 0 <= k < |ms[i].calls.calls| && ms[i].calls.calls[k].Call? && !ms[i].calls.calls[k].nameEmpty
  }

  ghost predicate AnsweredAt(ms: seq<Message>, i: int, id: Id) {
    0 <= i < |ms| && ms[i].Message? && ms[i].role == Tool && ms[i].callId == id
  }

  /** The id has a call and a result, and no call of it lacks a name. */
  ghost predicate BothSides(ms: seq<Message>, id: Id) {
    && id != "" && (exists i, k :: Declared(ms, i, k, id)) && (exists i :: AnsweredAt(ms, i, id))
    && forall i, k :: Declared(ms, i, k, id) ==> Named(ms, i, k)
  }

  /** Some call or some result has an id at all. */
  ghost predicate HasIds(ms: seq<Message>) {
    || (exists i, k, id :: id != "" && Declared(ms, i, k, id))
    || (exists i, id :: id != "" && AnsweredAt(ms, i, id))
  }

  ghost predicate Increasing(f: seq<nat>) {
    forall a, b :: 0 <= a < b < |f| ==> f[a] < f[b]
  }

  /** `r` holds the calls at the positions `f`, which are those of the calls with an id to keep. */
  ghost predicate PicksCalls(calls: seq<Call>, r: seq<Call>, f: seq<nat>, keep: set<Id>) {
    && Increasing(f) && |f| == |r|
    && (forall a :: 0 <= a < |f| ==> f[a] < |calls| && r[a] == calls[f[a]])
    && (forall j :: 0 <= j < |calls| ==> (j in f <==> calls[j].Call? && calls[j].id in keep))
  }

  ghost predicate CutTo(m: Message, r: Message, f: seq<nat>, calls: seq<Call>, keep: set<Id>)
    requires m.Message? && m.calls.List?
  {
    && PicksCalls(m.calls.calls, calls, f, keep)
    && r == m.(calls := if calls == [] && m.calls.calls != [] then NoKey else List(calls))
  }

  /** What a message becomes: its calls are cut down to those to keep, the list of calls is
      dropped when none remains of it, and nothing else changes. */
  ghost predicate CutDown(m: Message, r: Message, keep: set<Id>) {
    if !(m.Message? && m.role == Assistant && m.calls.List?) then r == m
    else exists f, calls :: CutTo(m, r, f, calls, keep)
  }

  ghost predicate Dropped(m: Message, keep: set<Id>) {
    m.Message? && m.role == Tool && m.callId !in keep
  }

  /** `r` holds what is left of the messages at the positions `f`, which are all but those of
      results that are dropped. */
  ghost predicate PicksMessages(ms: seq<Message>, r: seq<Message>, f: seq<nat>, keep: set<Id>) {
    && Increasing(f) && |f| == |r|
    && (forall a :: 0 <= a < |f| ==> f[a] < |ms| && CutDown(ms[f[a]], r[a], keep))
    && (forall j :: 0 <= j < |ms| ==> (j in f <==> !Dropped(ms[j], keep)))
  }

  // ------------------------------------------------------------ ids

  lemma {:induction false} CallIdsOnFields(ms: seq<Message>, id: Id)
    ensures id in CallIds(ms) <==> id != "" && exists i, k :: Declared(ms, i, k, id)
  {
    if ms != [] {
      var front, m := ms[..|ms| - 1], ms[|ms| - 1];
      CallIdsOnFields(front, id);
      forall i, k ensures Declared(ms, i, k, id) <==> Declared(front, i, k, id) || (i == |ms| - 1 && Declared([m], 0, k, id)) {
      }
      if id in IdsOf(CallsOf(m)) {
        var c :| c in CallsOf(m) && c.Call? && c.id == id;
        var k :| 0 <= k < |CallsOf(m)| && CallsOf(m)[k] == c;
        assert Declared(ms, |ms| - 1, k, id);
      } else if id in CallIds(front) {
        var i, k :| Declared(front, i, k, id);
        assert Declared(ms, i, k, id);
      }
    }
  }

  lemma {:induction false} NamelessIdsOnFields(ms: seq<Message>, id: Id)
    ensures id in NamelessIds(ms) <==> id != "" && exists i, k :: Declared(ms, i, k, id) && !Named(ms, i, k)
  {
    if ms != [] {
      var front, m := ms[..|ms| - 1], ms[|ms| - 1];
      NamelessIdsOnFields(front, id);
      forall i, k ensures Declared(ms, i, k, id) <==> Declared(front, i, k, id) || (i == |ms| - 1 && Declared([m], 0, k, id)) {
      }
      if id in NamelessOf(CallsOf(m)) {
        var c :| c in CallsOf(m) && c.Call? && c.id == id && c.nameEmpty;
        var k :| 0 <= k < |CallsOf(m)| && CallsOf(m)[k] == c;
        assert Declared(ms, |ms| - 1, k, id) && !Named(ms, |ms| - 1, k);
      } else if id in NamelessIds(front) {
        var i, k :| Declared(front, i, k, id) && !Named(front, i, k);
        assert Declared(ms, i, k, id) && !Named(ms, i, k);
      } else if id != "" {
        forall i, k | Declared(ms, i, k, id) ensures Named(ms, i, k) {
          if i < |front| {
            assert Declared(front, i, k, id);
          } else {
            assert m.calls.calls[k] in CallsOf(m);
          }
        }
      }
    }
  }

  lemma {:induction false} ResultIdsOnFields(ms: seq<Message>, id: Id)
    ensures id in ResultIds(ms) <==> id != "" && exists i :: AnsweredAt(ms, i, id)
  {
    if ms != [] {
      var front, m := ms[..|ms| - 1], ms[|ms| - 1];
      ResultIdsOnFields(front, id);
      forall i ensures AnsweredAt(ms, i, id) <==> AnsweredAt(front, i, id) || (i == |ms| - 1 && AnsweredAt([m], 0, id)) {
      }
      if id in ResultOf(m) {
        assert AnsweredAt(ms, |ms| - 1, id);
      } else if id in ResultIds(front) {
        var i :| AnsweredAt(front, i, id);
        assert AnsweredAt(ms, i, id);
      }
    }
  }

  lemma PairedIsBothSides(ms: seq<Message>, id: Id)
    ensures id in Paired(ms) <==> BothSides(ms, id)
  {
    CallIdsOnFields(ms, id);
    NamelessIdsOnFields(ms, id);
    ResultIdsOnFields(ms, id);
  }

  lemma TrafficIsHasIds(ms: seq<Message>)
    ensures Traffic(ms) <==> HasIds(ms)
  {
    forall id: Id ensures id in CallIds(ms) <==> id != "" && exists i, k :: Declared(ms, i, k, id) {
      CallIdsOnFields(ms, id);
    }
    forall id: Id ensures id in ResultIds(ms) <==> id != "" && exists i :: AnsweredAt(ms, i, id) {
      ResultIdsOnFields(ms, id);
    }
    if Traffic(ms) {
      var id :| id in CallIds(ms) || id in ResultIds(ms);
    }
    if i, k, id :| id != "" && Declared(ms, i, k, id) {
      assert id in CallIds(ms);
    }
    if i, id :| id != "" && AnsweredAt(ms, i, id) {
      assert id in ResultIds(ms);
    }
  }

  // ------------------------------------------------------------ positions

  lemma OneMorePosition(g: seq<nat>, n: nat)
    requires Increasing(g) && forall a :: 0 <= a < |g| ==> g[a] < n
    ensures Increasing(g + [n]) && n !in g && forall j :: j in g + [n] <==> j in g || j == n
  {
  }

  lemma CallTaken(calls: seq<Call>, c: Call, r: seq<Call>, g: seq<nat>, keep: set<Id>)
    requires PicksCalls(calls, r, g, keep) && c.Call? && c.id in keep
    ensures PicksCalls(calls + [c], r + [c], g + [|calls|], keep)
  {
    OneMorePosition(g, |calls|);
    var cs, f := calls + [c], g + [|calls|];
    forall j | 0 <= j < |cs| ensures j in f <==> cs[j].Call? && cs[j].id in keep {
      assert j < |calls| ==> cs[j] == calls[j];
    }
  }

  lemma CallPassed(calls: seq<Call>, c: Call, r: seq<Call>, g: seq<nat>, keep: set<Id>)
    requires PicksCalls(calls, r, g, keep) && !(c.Call? && c.id in keep)
    ensures PicksCalls(calls + [c], r, g, keep)
  {
    OneMorePosition(g, |calls|);
    var cs := calls + [c];
    forall j | 0 <= j < |cs| ensures j in g <==> cs[j].Call? && cs[j].id in keep {
      assert j < |calls| ==> cs[j] == calls[j];
    }
  }

  lemma {:induction false} KeptPicks(calls: seq<Call>, keep: set<Id>) returns (f: seq<nat>)
    ensures PicksCalls(calls, Kept(calls, keep), f, keep)
  {
    f := [];
    if calls != [] {
      var front, c := calls[..|calls| - 1], calls[|calls| - 1];
      f := KeptPicks(front, keep);
      assert calls == front + [c];
      if c.Call? && c.id in keep {
        CallTaken(front, c, Kept(front, keep), f, keep);
        f := f + [|front|];
      } else {
        CallPassed(front, c, Kept(front, keep), f, keep);
        assert Kept(calls, keep) == Kept(front, keep);
      }
    }
  }

  lemma CutIsCutDown(m: Message, keep: set<Id>)
    ensures CutDown(m, CleanCalls(m, keep), keep)
  {
    if m.Message? && m.role == Assistant && m.calls.List? {
      var f := KeptPicks(CallsOf(m), keep);
      KeptSame(CallsOf(m), keep);
      var calls := Kept(CallsOf(m), keep);
      assert CutTo(m, CleanCalls(m, keep), f, calls, keep);
    }
  }

  lemma MessageTaken(ms: seq<Message>, m: Message, r: seq<Message>, r': Message, g: seq<nat>, keep: set<Id>)
    requires PicksMessages(ms, r, g, keep) && !Dropped(m, keep) && CutDown(m, r', keep)
    ensures PicksMessages(ms + [m], r + [r'], g + [|ms|], keep)
  {
    OneMorePosition(g, |ms|);
    var all, f := ms + [m], g + [|ms|];
    forall j | 0 <= j < |all| ensures j in f <==> !Dropped(all[j], keep) {
      assert j < |ms| ==> all[j] == ms[j];
    }
  }

  lemma MessagePassed(ms: seq<Message>, m: Message, r: seq<Message>, g: seq<nat>, keep: set<Id>)
    requires PicksMessages(ms, r, g, keep) && Dropped(m, keep)
    ensures PicksMessages(ms + [m], r, g, keep)
  {
    OneMorePosition(g, |ms|);
    var all := ms + [m];
    forall j | 0 <= j < |all| ensures j in g <==> !Dropped(all[j], keep) {
      assert j < |ms| ==> all[j] == ms[j];
    }
  }

  lemma {:induction false} CleanAllPicks(ms: seq<Message>, keep: set<Id>) returns (f: seq<nat>)
    ensures PicksMessages(ms, CleanAll(ms, keep), f, keep)
  {
    f := [];
    if ms != [] {
      var front, m := ms[..|ms| - 1], ms[|ms| - 1];
      f := CleanAllPicks(front, keep);
      assert ms == front + [m];
      if Dropped(m, keep) {
        MessagePassed(front, m, CleanAll(front, keep), f, keep);
        assert CleanAll(ms, keep) == CleanAll(front, keep);
      } else {
        CutIsCutDown(m, keep);
        MessageTaken(front, m, CleanAll(front, keep), CleanCalls(m, keep), f, keep);
        f := f + [|front|];
      }
    }
  }

  /** A list with ids keeps, in order, every message but the results whose id lacks a side, and
      of its calls exactly those whose id has both; a list without ids is left alone. */
  lemma CleanLeavesBothSides(ms: seq<Message>) returns (keep: set<Id>, f: seq<nat>)
    ensures forall id: Id :: id in keep <==> BothSides(ms, id)
    ensures if HasIds(ms) then PicksMessages(ms, Clean(ms), f, keep) else Clean(ms) == ms
  {
    keep := Paired(ms);
    forall id: Id ensures id in keep <==> BothSides(ms, id) {
      PairedIsBothSides(ms, id);
    }
    TrafficIsHasIds(ms);
    f := CleanAllPicks(ms, keep);
  }

  lemma FoundAgain(m: Message, r: Message, k: nat, keep: set<Id>) returns (k': nat)
    requires CutDown(m, r, keep) && m.Message? && m.role == Assistant && m.calls.List?
    requires k < |m.calls.calls| && m.calls.calls[k].Call? && m.calls.calls[k].id in keep
    ensures r.Message? && r.role == Assistant && r.calls.List?
    ensures k' < |r.calls.calls| && r.calls.calls[k'] == m.calls.calls[k]
  {
    var f, calls :| CutTo(m, r, f, calls, keep);
    assert k in f;
    k' :| 0 <= k' < |f| && f[k'] == k;
  }

  /** Where a message that is not dropped comes to stand. */
  lemma StandsAgain(ms: seq<Message>, r: seq<Message>, f: seq<nat>, keep: set<Id>, i: nat) returns (i': nat)
    requires PicksMessages(ms, r, f, keep) && i < |ms| && !Dropped(ms[i], keep)
    ensures i' < |r| && CutDown(ms[i], r[i'], keep)
  {
    i' :| 0 <= i' < |f| && f[i'] == i;
  }

  lemma CallStays(ms: seq<Message>, i: nat, k: nat, id: Id) returns (i': nat, k': nat)
    requires BothSides(ms, id) && Declared(ms, i, k, id)
    ensures Declared(Clean(ms), i', k', id) && Named(Clean(ms), i', k')
    ensures Clean(ms)[i'].calls.calls[k'] == ms[i].calls.calls[k]
  {
    var keep, f := CleanLeavesBothSides(ms);
    assert HasIds(ms) && Named(ms, i, k);
    i' := StandsAgain(ms, Clean(ms), f, keep, i);
    k' := FoundAgain(ms[i], Clean(ms)[i'], k, keep);
  }

  lemma ResultStays(ms: seq<Message>, j: nat, id: Id) returns (j': nat)
    requires BothSides(ms, id) && AnsweredAt(ms, j, id)
    ensures AnsweredAt(Clean(ms), j', id) && Clean(ms)[j'] == ms[j]
  {
    var keep, f := CleanLeavesBothSides(ms);
    assert HasIds(ms);
    j' := StandsAgain(ms, Clean(ms), f, keep, j);
  }

  /** A call and a result whose id has both sides are both still there. */
  lemma BothSidesStay(ms: seq<Message>, i: nat, k: nat, j: nat, id: Id) returns (i': nat, k': nat, j': nat)
    requires BothSides(ms, id) && Declared(ms, i, k, id) && AnsweredAt(ms, j, id)
    ensures Declared(Clean(ms), i', k', id) && Named(Clean(ms), i', k') && AnsweredAt(Clean(ms), j', id)
    ensures Clean(ms)[i'].calls.calls[k'] == ms[i].calls.calls[k] && Clean(ms)[j'] == ms[j]
  {
    i', k' := CallStays(ms, i, k, id);
    j' := ResultStays(ms, j, id);
  }
}
