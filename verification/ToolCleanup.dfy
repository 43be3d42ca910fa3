/** Removing calls without results and results without calls (internal/upstream/tool_pairing.go). */
module ToolCleanup {
  import opened ToolPairing

  function NamelessOf(calls: seq<Call>): set<Id> {
    set c | c in calls && c.Call? && c.id != "" && c.nameEmpty :: c.id
  }

  function ResultOf(m: Message): set<Id> {
    if IsTool(m) && m.callId != "" then {m.callId} else {}
  }

  /** The ids of all calls, of the calls without a name, and of all results. */
  function CallIds(ms: seq<Message>): set<Id> {
    if ms == [] then {} else CallIds(ms[..|ms| - 1]) + IdsOf(CallsOf(ms[|ms| - 1]))
  }

  function NamelessIds(ms: seq<Message>): set<Id> {
    if ms == [] then {} else NamelessIds(ms[..|ms| - 1]) + NamelessOf(CallsOf(ms[|ms| - 1]))
  }

  function ResultIds(ms: seq<Message>): set<Id> {
    if ms == [] then {} else ResultIds(ms[..|ms| - 1]) + ResultOf(ms[|ms| - 1])
  }

  /** The ids that have a call with a name, and a result. */
  function Paired(ms: seq<Message>): set<Id> {
    CallIds(ms) * ResultIds(ms) - NamelessIds(ms)
  }

  function Kept(calls: seq<Call>, keep: set<Id>): (r: seq<Call>)
    ensures |r| <= |calls|
  {
    if calls == [] then []
    else
      var c := calls[|calls| - 1];
      Kept(calls[..|calls| - 1], keep) + if c.Call? && c.id in keep then [c] else []
  }

  function CleanCalls(m: Message, keep: set<Id>): Message {
    var kept := Kept(CallsOf(m), keep);
    if |kept| == |CallsOf(m)| then m
    else m.(calls := if kept == [] then NoKey else List(kept))
  }

  function CleanOne(m: Message, keep: set<Id>): seq<Message> {
    if IsTool(m) && m.callId !in keep then [] else [CleanCalls(m, keep)]
  }

  function CleanAll(ms: seq<Message>, keep: set<Id>): seq<Message> {
    if ms == [] then [] else CleanAll(ms[..|ms| - 1], keep) + CleanOne(ms[|ms| - 1], keep)
  }

  predicate Traffic(ms: seq<Message>) {
    CallIds(ms) != {} || ResultIds(ms) != {}
  }

  function Clean(ms: seq<Message>): seq<Message> {
    if Traffic(ms) then CleanAll(ms, Paired(ms)) else ms
  }

  // ------------------------------------------------------------ one message

  lemma {:induction false} KeptSame(calls: seq<Call>, keep: set<Id>)
    ensures |Kept(calls, keep)| == |calls| ==> Kept(calls, keep) == calls
  {
    if calls != [] {
      KeptSame(calls[..|calls| - 1], keep);
      assert calls == calls[..|calls| - 1] + [calls[|calls| - 1]];
    }
  }

  lemma {:induction false} KeptMembers(calls: seq<Call>, keep: set<Id>)
    ensures forall c :: c in Kept(calls, keep) <==> c in calls && c.Call? && c.id in keep
  {
    if calls != [] {
      KeptMembers(calls[..|calls| - 1], keep);
      assert calls == calls[..|calls| - 1] + [calls[|calls| - 1]];
    }
  }

  lemma CleanCallsKeeps(m: Message, keep: set<Id>)
    ensures CallsOf(CleanCalls(m, keep)) == Kept(CallsOf(m), keep)
    ensures IsTool(CleanCalls(m, keep)) == IsTool(m) && ResultOf(CleanCalls(m, keep)) == ResultOf(m)
  {
    KeptSame(CallsOf(m), keep);
  }

  lemma {:induction false} KeptTwice(calls: seq<Call>, keep: set<Id>)
    ensures Kept(Kept(calls, keep), keep) == Kept(calls, keep)
  {
    if calls != [] {
      var front, c := calls[..|calls| - 1], calls[|calls| - 1];
      KeptTwice(front, keep);
      if c.Call? && c.id in keep {
        var k := Kept(front, keep);
        assert (k + [c])[..|k|] == k;
      } else {
        assert Kept(front, keep) + [] == Kept(front, keep);
      }
    }
  }

  /** The ids of what remains of a message. */
  lemma CleanOneIds(m: Message, keep: set<Id>)
    requires "" !in keep
    ensures CallIds(CleanOne(m, keep)) == IdsOf(CallsOf(m)) * keep
    ensures NamelessIds(CleanOne(m, keep)) == NamelessOf(CallsOf(m)) * keep
    ensures ResultIds(CleanOne(m, keep)) == ResultOf(m) * keep
  {
    CleanCallsKeeps(m, keep);
    OneIds(CleanCalls(m, keep));
    KeptIds(CallsOf(m), keep);
  }

  lemma OneIds(m: Message)
    ensures CallIds([m]) == IdsOf(CallsOf(m)) && NamelessIds([m]) == NamelessOf(CallsOf(m)) && ResultIds([m]) == ResultOf(m)
  {
    var none: seq<Message> := [];
    assert [m][..0] == none && CallIds(none) == {} && NamelessIds(none) == {} && ResultIds(none) == {};
  }

  lemma KeptIds(calls: seq<Call>, keep: set<Id>)
    ensures IdsOf(Kept(calls, keep)) == IdsOf(calls) * keep
    ensures NamelessOf(Kept(calls, keep)) == NamelessOf(calls) * keep
  {
    KeptMembers(calls, keep);
  }

  // ------------------------------------------------------------ the whole list

  lemma {:induction false} IdsAppend(a: seq<Message>, b: seq<Message>)
    ensures CallIds(a + b) == CallIds(a) + CallIds(b)
    ensures NamelessIds(a + b) == NamelessIds(a) + NamelessIds(b)
    ensures ResultIds(a + b) == ResultIds(a) + ResultIds(b)
    decreases |b|
  {
    if b == [] {
      assert a + b == a;
    } else {
      assert (a + b)[..|a + b| - 1] == a + b[..|b| - 1];
      IdsAppend(a, b[..|b| - 1]);
    }
  }

  lemma {:induction false} CleanAllIds(ms: seq<Message>, keep: set<Id>)
    requires "" !in keep
    ensures CallIds(CleanAll(ms, keep)) == CallIds(ms) * keep
    ensures NamelessIds(CleanAll(ms, keep)) == NamelessIds(ms) * keep
    ensures ResultIds(CleanAll(ms, keep)) == ResultIds(ms) * keep
  {
    if ms != [] {
      var front, m := ms[..|ms| - 1], ms[|ms| - 1];
      CleanAllIds(front, keep);
      CleanOneIds(m, keep);
      IdsAppend(CleanAll(front, keep), CleanOne(m, keep));
      Distributes(CallIds(front), IdsOf(CallsOf(m)), keep);
      Distributes(NamelessIds(front), NamelessOf(CallsOf(m)), keep);
      Distributes(ResultIds(front), ResultOf(m), keep);
    }
  }

  lemma Distributes(a: set<Id>, b: set<Id>, k: set<Id>)
    ensures (a + b) * k == a * k + b * k
  {
  }

  lemma {:induction false} IdsAreNamed(ms: seq<Message>)
    ensures "" !in CallIds(ms) && NamelessIds(ms) <= CallIds(ms)
  {
    if ms != [] {
      IdsAreNamed(ms[..|ms| - 1]);
    }
  }

  /** Afterwards calls and results have the same ids, those that were paired, and no call is
      without a name. */
  lemma CleanPairs(ms: seq<Message>)
    ensures CallIds(Clean(ms)) == ResultIds(Clean(ms)) == Paired(ms)
    ensures NamelessIds(Clean(ms)) == {}
  {
    IdsAreNamed(ms);
    CleanAllIds(ms, Paired(ms));
  }

  // ------------------------------------------------------------ the second time

  lemma {:induction false} CleanAllTwice(ms: seq<Message>, keep: set<Id>)
    ensures CleanAll(CleanAll(ms, keep), keep) == CleanAll(ms, keep)
  {
    if ms != [] {
      var front, m := ms[..|ms| - 1], ms[|ms| - 1];
      CleanAllTwice(front, keep);
      if CleanOne(m, keep) != [] {
        var a, c := CleanAll(front, keep), CleanCalls(m, keep);
        assert (a + [c])[..|a|] == a;
        CleanCallsKeeps(m, keep);
        KeptTwice(CallsOf(m), keep);
      } else {
        assert CleanAll(front, keep) + [] == CleanAll(front, keep);
      }
    }
  }

  lemma PairedAgain(ms: seq<Message>)
    ensures Paired(CleanAll(ms, Paired(ms))) == Paired(ms)
  {
    IdsAreNamed(ms);
    CleanAllIds(ms, Paired(ms));
    Intersects(CallIds(ms), ResultIds(ms), NamelessIds(ms));
  }

  lemma Intersects(a: set<Id>, b: set<Id>, c: set<Id>)
    ensures var k := a * b - c; (a * k) * (b * k) - (c * k) == k
  {
  }

  /** The second cleaning changes nothing. */
  lemma CleanIsIdempotent(ms: seq<Message>)
    ensures Clean(Clean(ms)) == Clean(ms)
  {
    PairedAgain(ms);
    CleanAllTwice(ms, Paired(ms));
  }

  // ------------------------------------------------------------ what is left alone

  predicate WholeMessage(m: Message, keep: set<Id>) {
    (IsTool(m) ==> m.callId in keep) && forall c :: c in CallsOf(m) ==> c.Call? && c.id in keep
  }

  /** Every call and every result is one of those to keep. */
  predicate Whole(ms: seq<Message>, keep: set<Id>) {
    forall i :: 0 <= i < |ms| ==> WholeMessage(ms[i], keep)
  }

  lemma {:induction false} AllKept(calls: seq<Call>, keep: set<Id>)
    requires forall c :: c in calls ==> c.Call? && c.id in keep
    ensures Kept(calls, keep) == calls
  {
    if calls != [] {
      var front, last := calls[..|calls| - 1], calls[|calls| - 1];
      assert calls == front + [last] && last in calls;
      AllKept(front, keep);
    }
  }

  lemma WholeMessageStays(m: Message, keep: set<Id>)
    ensures CleanOne(m, keep) == [m] <==> WholeMessage(m, keep)
  {
    if WholeMessage(m, keep) {
      AllKept(CallsOf(m), keep);
    } else if CleanOne(m, keep) == [m] {
      CleanCallsKeeps(m, keep);
      KeptMembers(CallsOf(m), keep);
    }
  }

  lemma {:induction false} WholeStays(ms: seq<Message>, keep: set<Id>)
    ensures |CleanAll(ms, keep)| <= |ms| && (CleanAll(ms, keep) == ms <==> Whole(ms, keep))
  {
    if ms != [] {
      var front, m := ms[..|ms| - 1], ms[|ms| - 1];
      WholeStays(front, keep);
      WholeMessageStays(m, keep);
      SameEnds(CleanAll(front, keep), CleanOne(m, keep), front, m);
      assert ms == front + [m];
      WholeAdded(front, m, keep);
    }
  }

  lemma SameEnds<T>(a: seq<T>, b: seq<T>, front: seq<T>, m: T)
    requires |a| <= |front| && |b| <= 1
    ensures a + b == front + [m] <==> a == front && b == [m]
  {
    if a + b == front + [m] {
      assert |a| == |front| && |b| == 1;
      assert a == (a + b)[..|front|] && front == (front + [m])[..|front|];
      assert b[0] == (a + b)[|front|];
    }
  }

  /** A list is left alone exactly when it carries no ids at all, or every call and every
      result in it is paired. */
  lemma CleanLeavesWhole(ms: seq<Message>)
    ensures Clean(ms) == ms <==> !Traffic(ms) || Whole(ms, Paired(ms))
  {
    WholeStays(ms, Paired(ms));
  }

  // ------------------------------------------------------------ the loops

  method CollectIds(ms: seq<Message>) returns (calls: set<Id>, results: set<Id>, nameless: set<Id>)
    ensures calls == CallIds(ms) && results == ResultIds(ms) && nameless == NamelessIds(ms)
  {
    calls, results, nameless := {}, {}, {};
    for i := 0 to |ms|
      invariant calls == CallIds(ms[..i]) && results == ResultIds(ms[..i]) && nameless == NamelessIds(ms[..i])
    {
      assert ms[..i + 1][..i] == ms[..i];
      var m := ms[i];
      if IsTool(m) {
        if m.callId != "" {
          results := results + {m.callId};
        }
      } else if IsAssistant(m) && m.calls.List? {
        var cs, ns := CollectCalls(m.calls.calls);
        calls, nameless := calls + cs, nameless + ns;
      }
    }
    assert ms[..|ms|] == ms;
  }

  method CollectCalls(calls: seq<Call>) returns (ids: set<Id>, nameless: set<Id>)
    ensures ids == IdsOf(calls) && nameless == NamelessOf(calls)
  {
    ids, nameless := {}, {};
    for i := 0 to |calls|
      invariant ids == IdsOf(calls[..i]) && nameless == NamelessOf(calls[..i])
    {
      var c := calls[i];
      assert calls[..i + 1] == calls[..i] + [c];
      if c.Call? && c.id != "" {
        ids := ids + {c.id};
        if c.nameEmpty {
          nameless := nameless + {c.id};
        }
      }
    }
    assert calls[..|calls|] == calls;
  }

  method KeepCalls(calls: seq<Call>, keep: set<Id>) returns (kept: seq<Call>)
    ensures kept == Kept(calls, keep)
  {
    kept := [];
    for i := 0 to |calls|
      invariant kept == Kept(calls[..i], keep)
    {
      assert calls[..i + 1][..i] == calls[..i];
      if calls[i].Call? && calls[i].id in keep {
        kept := kept + [calls[i]];
      }
    }
    assert calls[..|calls|] == calls;
  }

  method CleanMessage(m: Message, keep: set<Id>) returns (r: seq<Message>, changed: bool)
    ensures r == CleanOne(m, keep) && (changed <==> r != [m])
  {
    if IsTool(m) && m.callId !in keep {
      return [], true;
    }
    CleanCallsKeeps(m, keep);
    var kept := KeepCalls(CallsOf(m), keep);
    if |kept| == |CallsOf(m)| {
      return [m], false;
    }
    return [m.(calls := if kept == [] then NoKey else List(kept))], true;
  }

  lemma CleanAdded(ms: seq<Message>, m: Message, keep: set<Id>)
    ensures CleanAll(ms + [m], keep) == CleanAll(ms, keep) + CleanOne(m, keep)
    ensures CleanAll(ms + [m], keep) == ms + [m] <==> CleanAll(ms, keep) == ms && CleanOne(m, keep) == [m]
  {
    assert (ms + [m])[..|ms|] == ms;
    WholeStays(ms, keep);
    SameEnds(CleanAll(ms, keep), CleanOne(m, keep), ms, m);
  }

  method CleanMessages(ms: seq<Message>, keep: set<Id>) returns (r: seq<Message>, changed: bool)
    ensures r == CleanAll(ms, keep) && (changed <==> r != ms)
  {
    r, changed := [], false;
    for i := 0 to |ms|
      invariant r == CleanAll(ms[..i], keep) && (changed <==> r != ms[..i])
    {
      assert ms[..i + 1] == ms[..i] + [ms[i]];
      CleanAdded(ms[..i], ms[i], keep);
      var part, c := CleanMessage(ms[i], keep);
      r, changed := r + part, changed || c;
    }
    assert ms[..|ms|] == ms;
  }

  method CleanupOrphanToolCalls(ms: seq<Message>) returns (r: seq<Message>, changed: bool)
    ensures r == Clean(ms) && (changed <==> r != ms)
  {
    var calls, results, nameless := CollectIds(ms);
    if calls == {} && results == {} {
      return ms, false;
    }
    r, changed := CleanMessages(ms, calls * results - nameless);
  }

  lemma WholeAdded(ms: seq<Message>, m: Message, keep: set<Id>)
    ensures Whole(ms + [m], keep) <==> Whole(ms, keep) && WholeMessage(m, keep)
  {
    assert forall i :: 0 <= i < |ms| ==> (ms + [m])[i] == ms[i];
    assert (ms + [m])[|ms|] == m;
  }
}
