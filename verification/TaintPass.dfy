/** The taint recorded in one pass of a record that starts with nothing cached, whatever
    calls of it raise. */
module TaintPass {
  import opened Types
  import opened Labels
  import opened ItemSpec
  import opened Reuse
  import opened Taint
  import Resume

  function Names(evs: seq<CallEvent>): seq<string> {
    seq(|evs|, i requires 0 <= i < |evs| => evs[i].name)
  }

  /** The calls of a pass that were recorded: those whose function did not raise. */
  function Ran(evs: seq<CallEvent>): (at: seq<nat>)
    ensures forall k :: 0 <= k < |at| ==> at[k] < |evs| && !evs[at[k]].raised
    ensures forall k, m :: 0 <= k < m < |at| ==> at[k] < at[m]
    ensures forall i :: 0 <= i < |evs| && !evs[i].raised ==> i in at
  {
    if evs == [] then []
    else
      var init := Ran(evs[..|evs| - 1]);
      if evs[|evs| - 1].raised then init else init + [|evs| - 1]
  }

  /** What each of them was called with. */
  function Bounds(evs: seq<CallEvent>): seq<Option<seq<Value>>> {
    seq(|Ran(evs)|, k requires 0 <= k < |Ran(evs)| => evs[Ran(evs)[k]].x.bound)
  }

  /** The entry is the execution of a call of the pass. */
  ghost predicate RecordsCall(e: TaskEntry, evs: seq<CallEvent>, i: nat)
    requires i < |evs|
  {
    && e.key == KeyAt(Names(evs), i)
    && e.result == evs[i].x.result && e.outcome == evs[i].x.outcome && e.reason == evs[i].x.reason
  }

  /** Row `k` of the pass is the execution of its `k`-th call that did not raise. */
  ghost predicate RowsAreTheCalls(rows: seq<TaskEntry>, evs: seq<CallEvent>) {
    && |rows| == |Ran(evs)|
    && forall k :: 0 <= k < |rows| ==> RecordsCall(rows[k], evs, Ran(evs)[k])
  }

  /** Where a pass from an empty cache stands after the calls `evs`. */
  ghost predicate FirstPass(s: ItemState, evs: seq<CallEvent>)
    requires CacheOrdered(s)
  {
    && s.reuse == map[]
    && Resume.CallsAgree(Names(evs), s.occurrences)
    && RowsAreTheCalls(Prior(s), evs) && PassRows(Prior(s), Bounds(evs))
    && (forall k :: 0 <= k < |s.cacheKeys| ==> s.cacheKeys[k] == Prior(s)[k].key)
  }

  lemma {:induction false} NamesStep(evs: seq<CallEvent>)
    requires evs != []
    ensures var init, ev := evs[..|evs| - 1], evs[|evs| - 1];
            && Names(evs)[..|evs| - 1] == Names(init) && Names(evs) == Names(init) + [ev.name]
            && Bounds(evs) == Bounds(init) + (if ev.raised then [] else [ev.x.bound])
  {
  }

  /** A call keeps its key as the pass goes on. */
  lemma {:induction false} KeyStays(evs: seq<CallEvent>, i: nat)
    requires i < |evs| - 1
    ensures KeyAt(Names(evs), i) == KeyAt(Names(evs[..|evs| - 1]), i)
  {
    assert Names(evs)[..|evs| - 1] == Names(evs[..|evs| - 1]);
    KeyAtPrefix(Names(evs), |evs| - 1, i);
  }

  /** The rows so far are rows of the longer pass as well. */
  lemma {:induction false} StillRecords(rows: seq<TaskEntry>, evs: seq<CallEvent>)
    requires evs != [] && RowsAreTheCalls(rows, evs[..|evs| - 1])
    ensures |rows| <= |Ran(evs)| && forall k :: 0 <= k < |rows| ==> RecordsCall(rows[k], evs, Ran(evs)[k])
  {
    var init := evs[..|evs| - 1];
    forall k | 0 <= k < |rows|
      ensures RecordsCall(rows[k], evs, Ran(evs)[k])
    {
      KeyStays(evs, Ran(init)[k]);
      assert RecordsCall(rows[k], init, Ran(init)[k]) && Ran(evs)[k] == Ran(init)[k];
    }
  }

  /** The key of a further call is none of the keys before. */
  lemma {:induction false} NewKeyIsNew(rows: seq<TaskEntry>, evs: seq<CallEvent>, k: nat)
    requires evs != [] && DistinctKeys(Names(evs)) && RowsAreTheCalls(rows, evs[..|evs| - 1]) && k < |rows|
    ensures rows[k].key != KeyAt(Names(evs), |evs| - 1)
  {
    StillRecords(rows, evs);
    var init := evs[..|evs| - 1];
    assert Ran(evs)[k] == Ran(init)[k] < |init|;
  }

  /** A call with a new key executes: nothing is cached or indexed under it. */
  lemma {:induction false} NewKeyExecutes(s: ItemState, evs: seq<CallEvent>)
    requires evs != [] && DistinctKeys(Names(evs)) && CacheOrdered(s) && FirstPass(s, evs[..|evs| - 1])
    ensures var ev := evs[|evs| - 1];
            && NextKey(s, ev.name) == KeyAt(Names(evs), |evs| - 1)
            && NextKey(s, ev.name) !in s.cache
            && Decide(s, ev.name, ev.explicit).Execute?
  {
    var n, ev := |evs| - 1, evs[|evs| - 1];
    NamesStep(evs);
    assert NextKey(s, ev.name) == KeyAt(Names(evs), n);
    forall k | 0 <= k < |s.cacheKeys|
      ensures s.cacheKeys[k] != NextKey(s, ev.name)
    {
      NewKeyIsNew(Prior(s), evs, k);
    }
    assert NextKey(s, ev.name) in s.cache <==> NextKey(s, ev.name) in s.cacheKeys;
  }

  lemma {:induction false} RowsStep(rows: seq<TaskEntry>, evs: seq<CallEvent>, e: TaskEntry)
    requires evs != [] && !evs[|evs| - 1].raised && RowsAreTheCalls(rows, evs[..|evs| - 1])
    requires RecordsCall(e, evs, |evs| - 1)
    ensures RowsAreTheCalls(rows + [e], evs)
  {
    StillRecords(rows, evs);
  }

  lemma {:induction false} PassRowsStep(rows: seq<TaskEntry>, bounds: seq<Option<seq<Value>>>, e: TaskEntry, bound: Option<seq<Value>>)
    requires PassRows(rows, bounds) && Carries(e, RecordedTaint(e.outcome, bound, rows))
    ensures PassRows(rows + [e], bounds + [bound])
  {
    var all, n := rows + [e], |rows|;
    forall i | 0 <= i < |all|
      ensures Carries(all[i], RecordedTaint(all[i].outcome, (bounds + [bound])[i], all[..i]))
    {
      assert all[..i] == if i < n then rows[..i] else rows;
    }
  }

  /** The row the next call writes, and the state it leaves. */
  lemma {:induction false} CallRecords(s: ItemState, ev: CallEvent) returns (e: TaskEntry)
    requires CacheOrdered(s) && !ev.raised && NextKey(s, ev.name) !in s.cache && Decide(s, ev.name, ev.explicit).Execute?
    ensures var t := AfterCall(s, ev);
            && CacheOrdered(t) && t.reuse == s.reuse
            && t.occurrences == s.occurrences[ev.name := Get(s.occurrences, ev.name, 0) + 1]
            && t.cacheKeys == s.cacheKeys + [e.key] && Prior(t) == Prior(s) + [e]
    ensures e.key == NextKey(s, ev.name)
    ensures e.result == ev.x.result && e.outcome == ev.x.outcome && e.reason == ev.x.reason
    ensures Carries(e, RecordedTaint(ev.x.outcome, ev.x.bound, Prior(s)))
  {
    var called := Called(s, ev.name, ev.explicit);
    e := EntryFor(called, NextKey(s, ev.name), EffectiveItemId(s, ev.explicit), ev.x, ev.retryCount);
    FreshExtendsPrior(called, e);
    assert Prior(called) == Prior(s);
  }

  lemma {:induction false} CountsAfter(s: ItemState, occurrences: map<string, nat>, evs: seq<CallEvent>)
    requires evs != [] && CacheOrdered(s) && FirstPass(s, evs[..|evs| - 1])
    requires var name := evs[|evs| - 1].name; occurrences == s.occurrences[name := Get(s.occurrences, name, 0) + 1]
    ensures Resume.CallsAgree(Names(evs), occurrences)
  {
    Resume.CallCounts(Names(evs[..|evs| - 1]), s.occurrences, evs[|evs| - 1].name);
    NamesStep(evs);
  }

  /** A call that raises consumes its occurrence and records nothing. */
  lemma CallRaises(s: ItemState, ev: CallEvent)
    requires CacheOrdered(s) && ev.raised
    ensures var t := AfterCall(s, ev);
            && CacheOrdered(t) && t.reuse == s.reuse && t.cacheKeys == s.cacheKeys && Prior(t) == Prior(s)
            && t.occurrences == s.occurrences[ev.name := Get(s.occurrences, ev.name, 0) + 1]
  {
  }

  lemma {:induction false} UnrecordedStep(s: ItemState, t: ItemState, evs: seq<CallEvent>)
    requires evs != [] && evs[|evs| - 1].raised && CacheOrdered(s) && CacheOrdered(t) && FirstPass(s, evs[..|evs| - 1])
    requires t.reuse == s.reuse && t.cacheKeys == s.cacheKeys && Prior(t) == Prior(s)
    requires Resume.CallsAgree(Names(evs), t.occurrences)
    ensures FirstPass(t, evs)
  {
    StillRecords(Prior(s), evs);
    NamesStep(evs);
    assert Bounds(evs[..|evs| - 1]) + [] == Bounds(evs[..|evs| - 1]);
  }

  lemma {:induction false} RecordedStep(s: ItemState, t: ItemState, evs: seq<CallEvent>, e: TaskEntry)
    requires evs != [] && !evs[|evs| - 1].raised && CacheOrdered(s) && CacheOrdered(t) && FirstPass(s, evs[..|evs| - 1])
    requires RecordsCall(e, evs, |evs| - 1) && Carries(e, RecordedTaint(e.outcome, evs[|evs| - 1].x.bound, Prior(s)))
    requires t.reuse == s.reuse && t.cacheKeys == s.cacheKeys + [e.key] && Prior(t) == Prior(s) + [e]
    requires Resume.CallsAgree(Names(evs), t.occurrences)
    ensures FirstPass(t, evs)
  {
    RowsStep(Prior(s), evs, e);
    PassRowsStep(Prior(s), Bounds(evs[..|evs| - 1]), e, evs[|evs| - 1].x.bound);
    NamesStep(evs);
  }

  /** One more call of a pass from nothing. */
  lemma {:induction false} PassStep(s: ItemState, evs: seq<CallEvent>)
    requires evs != [] && DistinctKeys(Names(evs)) && CacheOrdered(s) && FirstPass(s, evs[..|evs| - 1])
    ensures CacheOrdered(AfterCall(s, evs[|evs| - 1])) && FirstPass(AfterCall(s, evs[|evs| - 1]), evs)
  {
    var ev := evs[|evs| - 1];
    if ev.raised {
      CallRaises(s, ev);
      CountsAfter(s, AfterCall(s, ev).occurrences, evs);
      UnrecordedStep(s, AfterCall(s, ev), evs);
    } else {
      NewKeyExecutes(s, evs);
      var e := CallRecords(s, ev);
      CountsAfter(s, AfterCall(s, ev).occurrences, evs);
      RecordedStep(s, AfterCall(s, ev), evs, e);
    }
  }

  lemma {:induction false} PassFromNothing(runItemId: Option<string>, evs: seq<CallEvent>)
    requires DistinctKeys(Names(evs))
    ensures FirstPass(AfterCalls(Blank(runItemId), evs), evs)
  {
    if evs == [] {
    } else {
      var init := evs[..|evs| - 1];
      DistinctPrefix(Names(evs), |init|);
      NamesStep(evs);
      PassFromNothing(runItemId, init);
      PassStep(AfterCalls(Blank(runItemId), init), evs);
    }
  }

  /** Every call of such a pass whose function did not raise is recorded, in order, as
      itself; a call that raised, after which the body may well have gone on, leaves no
      row. An ok row is recorded as tainted exactly when the objects handed from call to
      call lead to it, through ok calls, from a degraded one. The root it names is such
      a one. */
  lemma {:induction false} RecordedTaintIsReachability(runItemId: Option<string>, evs: seq<CallEvent>, k: int)
    requires DistinctKeys(Names(evs)) && 0 <= k < |Ran(evs)| && evs[Ran(evs)[k]].x.outcome == OutcomeOk
    ensures var rows := Prior(AfterCalls(Blank(runItemId), evs));
            && RowsAreTheCalls(rows, evs)
            && (rows[k].taintedBy.Some? <==> exists path :: BadPath(rows, Bounds(evs), path) && path[|path| - 1] == k)
            && (rows[k].taintedBy.Some? ==>
                  exists path :: BadPath(rows, Bounds(evs), path) && path[|path| - 1] == k
                                 && rows[path[0]].key == rows[k].taintedBy.value)
  {
    PassFromNothing(runItemId, evs);
    var rows := Prior(AfterCalls(Blank(runItemId), evs));
    assert RecordsCall(rows[k], evs, Ran(evs)[k]);
    TaintIsReachability(rows, Bounds(evs), k);
  }

  /** Labels without a digit tail are enough for that. */
  lemma {:induction false} PlainLabelsAreEnough(runItemId: Option<string>, evs: seq<CallEvent>, k: int)
    requires 0 <= k < |Ran(evs)| && evs[Ran(evs)[k]].x.outcome == OutcomeOk
    requires forall j :: 0 <= j < |evs| ==> !HasDigitTail(evs[j].name)
    ensures var rows := Prior(AfterCalls(Blank(runItemId), evs));
            && RowsAreTheCalls(rows, evs)
            && (rows[k].taintedBy.Some? <==> exists path :: BadPath(rows, Bounds(evs), path) && path[|path| - 1] == k)
  {
    PlainNamesHaveDistinctKeys(Names(evs));
    RecordedTaintIsReachability(runItemId, evs, k);
  }
}
