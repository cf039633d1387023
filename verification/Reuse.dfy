/** Work copied from another run. Such an entry may be handed back only to the
    record it was made for. Models the two-tier lookup of
    src/papayya/durable/run.py. */
module Reuse {
  import opened Types
  import opened Labels
  import opened Latest
  import opened ItemSpec

  /** A call a body makes, with what it brings along should it run, or that its
      function's last exception goes up, which records nothing. */
  datatype CallEvent = CallEvent(name: string, explicit: Option<string>, x: Execution, retryCount: nat, raised: bool)

  ghost function AfterCall(s: ItemState, ev: CallEvent): ItemState
    requires CacheOrdered(s)
  {
    var called := Called(s, ev.name, ev.explicit);
    if Decide(s, ev.name, ev.explicit).Hit? || ev.raised then called
    else Recorded(called, EntryFor(called, NextKey(s, ev.name), EffectiveItemId(s, ev.explicit), ev.x, ev.retryCount))
  }

  lemma AfterCallOrdered(s: ItemState, ev: CallEvent)
    requires CacheOrdered(s)
    ensures CacheOrdered(AfterCall(s, ev))
  {
    var called := Called(s, ev.name, ev.explicit);
    RecordedIsOrdered(called, EntryFor(called, NextKey(s, ev.name), EffectiveItemId(s, ev.explicit), ev.x, ev.retryCount));
  }

  /** The state after a pass has made the calls `evs`. */
  ghost function AfterCalls(s: ItemState, evs: seq<CallEvent>): (t: ItemState)
    requires CacheOrdered(s)
    ensures CacheOrdered(t)
  {
    if evs == [] then s
    else
      var before := AfterCalls(s, evs[..|evs| - 1]);
      AfterCallOrdered(before, evs[|evs| - 1]);
      AfterCall(before, evs[|evs| - 1])
  }

  /** Some call of the pass so far was not answered from a cache; it may have raised. */
  ghost predicate SomethingRan(s: ItemState, evs: seq<CallEvent>)
    requires CacheOrdered(s)
  {
    evs != [] &&
    var init, ev := evs[..|evs| - 1], evs[|evs| - 1];
    SomethingRan(s, init) || Decide(AfterCalls(s, init), ev.name, ev.explicit).Execute?
  }

  lemma AfterCallEffects(s: ItemState, ev: CallEvent)
    requires CacheOrdered(s)
    ensures AfterCall(s, ev).reuse == s.reuse && AfterCall(s, ev).aggregate == s.aggregate
    ensures AfterCall(s, ev).executedAny <==> s.executedAny || Decide(s, ev.name, ev.explicit).Execute?
  {
  }

  /** The index never changes during a pass. */
  lemma {:induction false} PassKeepsIndex(s: ItemState, evs: seq<CallEvent>)
    requires CacheOrdered(s)
    ensures AfterCalls(s, evs).reuse == s.reuse && AfterCalls(s, evs).aggregate == s.aggregate
  {
    if evs == [] {
    } else {
      var init := evs[..|evs| - 1];
      PassKeepsIndex(s, init);
      AfterCallEffects(AfterCalls(s, init), evs[|evs| - 1]);
    }
  }

  /** The flag says whether anything ran in this pass. */
  lemma {:induction false} FlagMeansSomethingRan(s: ItemState, evs: seq<CallEvent>)
    requires CacheOrdered(s) && !s.executedAny
    ensures AfterCalls(s, evs).executedAny <==> SomethingRan(s, evs)
  {
    if evs == [] {
    } else {
      var init := evs[..|evs| - 1];
      FlagMeansSomethingRan(s, init);
      AfterCallEffects(AfterCalls(s, init), evs[|evs| - 1]);
    }
  }

  lemma AfterCallItemId(s: ItemState, ev: CallEvent)
    requires CacheOrdered(s)
    ensures AfterCall(s, ev).runItemId == if s.runItemId.Some? then s.runItemId else ev.explicit
  {
  }

  /** Call `i` is the first to name an item id. */
  predicate FirstToName(evs: seq<CallEvent>, i: int) {
    0 <= i < |evs| && evs[i].explicit != None && forall j :: 0 <= j < i ==> evs[j].explicit == None
  }

  ghost predicate NobodyNames(evs: seq<CallEvent>) {
    forall j :: 0 <= j < |evs| ==> evs[j].explicit == None
  }

  /** `id` is the run's after calls that began with `before`. */
  ghost predicate FirstName(before: Option<string>, evs: seq<CallEvent>, id: Option<string>) {
    if before.Some? then id == before
    else (NobodyNames(evs) ==> id == None) && forall i :: FirstToName(evs, i) ==> id == evs[i].explicit
  }

  lemma OneMoreName(before: Option<string>, evs: seq<CallEvent>, ev: CallEvent, id: Option<string>)
    requires FirstName(before, evs, id)
    requires id.None? ==> before.None? && NobodyNames(evs)
    ensures FirstName(before, evs + [ev], if id.Some? then id else ev.explicit)
  {
    var more := evs + [ev];
    assert more[|evs|] == ev;
    assert forall j :: 0 <= j < |evs| ==> evs[j] == more[j];
    assert NobodyNames(more) ==> NobodyNames(evs);
    forall i | FirstToName(more, i)
      ensures i < |evs| ==> FirstToName(evs, i)
      ensures i == |evs| ==> NobodyNames(evs)
    {
    }
  }

  lemma SomebodyNames(evs: seq<CallEvent>) returns (i: nat)
    requires !NobodyNames(evs)
    ensures FirstToName(evs, i)
  {
    i := 0;
    while evs[i].explicit == None
      invariant i < |evs| && forall j :: 0 <= j < i ==> evs[j].explicit == None
      decreases |evs| - i
    {
      assert i + 1 < |evs|;
      i := i + 1;
    }
  }

  /** The item id a pass works under once set stays; until then the first call that names
      one sets it, whatever comes of that call. */
  lemma {:induction false} FirstItemIdStays(s: ItemState, evs: seq<CallEvent>)
    requires CacheOrdered(s)
    ensures FirstName(s.runItemId, evs, AfterCalls(s, evs).runItemId)
  {
    if evs == [] {
    } else {
      var init, ev := evs[..|evs| - 1], evs[|evs| - 1];
      var before := AfterCalls(s, init);
      FirstItemIdStays(s, init);
      AfterCallItemId(before, ev);
      if before.runItemId.None? && !NobodyNames(init) {
        var i := SomebodyNames(init);
      }
      OneMoreName(s.runItemId, init, ev, before.runItemId);
      assert init + [ev] == evs;
    }
  }

  /** Reuse never answers for the wrong record. Whatever a pass has called so far, a
      copied entry handed back carries the caller's own item id and label; it was
      found by that pair, not by position; and one that belongs to the run's own
      record is handed back only while nothing has run. */
  lemma ReuseAnswersTheRightRecord(
    rows: seq<TaskEntry>, inv: set<(string, int)>, storedItemId: Option<string>, runItemId: Option<string>,
    evs: seq<CallEvent>, name: string, explicit: Option<string>)
    ensures var s0 := Hydrated(rows, inv, storedItemId, runItemId);
            var s := AfterCalls(s0, evs);
            var d := Decide(s, name, explicit);
            d.Hit? && d.entry.reusedFrom.Some? ==>
              && d.entry.itemId.Some? && d.entry.itemId == EffectiveItemId(s, explicit)
              && BaseLabel(d.entry.key) == name
              && (d.entry.itemId == storedItemId ==> !SomethingRan(s0, evs))
  {
    var s0 := Hydrated(rows, inv, storedItemId, runItemId);
    HydratedMeaning(rows, inv, storedItemId, runItemId);
    PassKeepsIndex(s0, evs);
    FlagMeansSomethingRan(s0, evs);
    var s := AfterCalls(s0, evs);
    var reusable := ReusableFor(s, name, explicit);
    if reusable.Some? {
      var r := (EffectiveItemId(s, explicit).value, name);
      assert ReuseKeyOf(s0.reuse[r]) == Some(r);
    }
  }

  /** A call for a sub-record, one that names an id other than the run's own, gets
      the same copied answer whatever was called before it: filtering or reordering
      the calls cannot change it. */
  lemma {:induction false} SubRecordAnswerIsStable(
    rows: seq<TaskEntry>, inv: set<(string, int)>, storedItemId: Option<string>, runItemId: Option<string>,
    evs: seq<CallEvent>, other: seq<CallEvent>, name: string, id: string)
    requires storedItemId != Some(id)
    ensures var s0 := Hydrated(rows, inv, storedItemId, runItemId);
            var d1 := Decide(AfterCalls(s0, evs), name, Some(id));
            var d2 := Decide(AfterCalls(s0, other), name, Some(id));
            if (id, name) in s0.reuse then d1 == d2 == Hit(s0.reuse[(id, name)])
            else (d1.Hit? ==> d1.entry.reusedFrom.None?) && (d2.Hit? ==> d2.entry.reusedFrom.None?)
  {
    var s0 := Hydrated(rows, inv, storedItemId, runItemId);
    HydratedMeaning(rows, inv, storedItemId, runItemId);
    PassKeepsIndex(s0, evs);
    PassKeepsIndex(s0, other);
  }

  /** `e` is work copied from another run for the record `r.0`, by a step labelled `r.1`. */
  predicate IsCopyFor(e: TaskEntry, r: ReuseKey) {
    e.reusedFrom.Some? && e.itemId == Some(r.0) && BaseLabel(e.key) == r.1
  }

  /** Entry `i` of the collapsed list is the last copy for `r` the pause did not record. */
  ghost predicate LastCopy(collapsed: seq<TaskEntry>, inv: set<(string, int)>, i: int, r: ReuseKey) {
    && 0 <= i < |collapsed| && IsCopyFor(collapsed[i], r) && (collapsed[i].key, collapsed[i].attempt) !in inv
    && forall j :: i < j < |collapsed| && IsCopyFor(collapsed[j], r) ==> (collapsed[j].key, collapsed[j].attempt) in inv
  }

  /** There is none. */
  ghost predicate NoCopy(collapsed: seq<TaskEntry>, inv: set<(string, int)>, r: ReuseKey) {
    forall j :: 0 <= j < |collapsed| && IsCopyFor(collapsed[j], r) ==> (collapsed[j].key, collapsed[j].attempt) in inv
  }

  /** The index answers `r` with `e`. */
  predicate Indexes(s: ItemState, r: ReuseKey, e: TaskEntry) {
    r in s.reuse && s.reuse[r] == e
  }

  /** What `s'` indexes under `r`, after `s` and one more entry. */
  ghost predicate FiledUnder(s: ItemState, s': ItemState, inv: set<(string, int)>, e: TaskEntry, r: ReuseKey) {
    if IsCopyFor(e, r) && (e.key, e.attempt) !in inv then Indexes(s', r, e)
    else (r in s'.reuse <==> r in s.reuse) && (r in s.reuse ==> s'.reuse[r] == s.reuse[r])
  }

  lemma CopyIsFiled(s: ItemState, inv: set<(string, int)>, e: TaskEntry, storedItemId: Option<string>, r: ReuseKey)
    ensures FiledUnder(s, FiledUnlessRecorded(s, inv, e, storedItemId), inv, e, r)
  {
  }

  lemma NextIsFiled(
    rows: seq<TaskEntry>, inv: set<(string, int)>, storedItemId: Option<string>, runItemId: Option<string>, n: nat, r: ReuseKey)
    requires 0 < n <= |Collapse(rows)|
    ensures FiledUnder(HydratedUpTo(rows, inv, storedItemId, runItemId, n - 1), HydratedUpTo(rows, inv, storedItemId, runItemId, n),
                       inv, Collapse(rows)[n - 1], r)
  {
    OneMoreHydrated(rows, inv, storedItemId, runItemId, n);
    CopyIsFiled(HydratedUpTo(rows, inv, storedItemId, runItemId, n - 1), inv, Collapse(rows)[n - 1], storedItemId, r);
  }

  lemma StillIndexed(s: ItemState, s': ItemState, inv: set<(string, int)>, f: TaskEntry, r: ReuseKey, e: TaskEntry)
    requires FiledUnder(s, s', inv, f, r) && Indexes(s, r, e) && (IsCopyFor(f, r) ==> (f.key, f.attempt) in inv)
    ensures Indexes(s', r, e)
  {
  }

  lemma NextStaysIndexed(
    rows: seq<TaskEntry>, inv: set<(string, int)>, storedItemId: Option<string>, runItemId: Option<string>, n: nat, r: ReuseKey, e: TaskEntry)
    requires 0 < n <= |Collapse(rows)| && Indexes(HydratedUpTo(rows, inv, storedItemId, runItemId, n - 1), r, e)
    requires IsCopyFor(Collapse(rows)[n - 1], r) ==> (Collapse(rows)[n - 1].key, Collapse(rows)[n - 1].attempt) in inv
    ensures Indexes(HydratedUpTo(rows, inv, storedItemId, runItemId, n), r, e)
  {
    NextIsFiled(rows, inv, storedItemId, runItemId, n, r);
    StillIndexed(HydratedUpTo(rows, inv, storedItemId, runItemId, n - 1), HydratedUpTo(rows, inv, storedItemId, runItemId, n),
                 inv, Collapse(rows)[n - 1], r, e);
  }

  /** The last copy for a record and label is the one the index holds. */
  lemma {:induction false} CopiedEntryIsIndexed(
    rows: seq<TaskEntry>, inv: set<(string, int)>, storedItemId: Option<string>, runItemId: Option<string>, n: nat, i: nat, r: ReuseKey)
    requires i < n <= |Collapse(rows)| && LastCopy(Collapse(rows), inv, i, r)
    ensures Indexes(HydratedUpTo(rows, inv, storedItemId, runItemId, n), r, Collapse(rows)[i])
  {
    if i == n - 1 {
      NextIsFiled(rows, inv, storedItemId, runItemId, n, r);
    } else {
      CopiedEntryIsIndexed(rows, inv, storedItemId, runItemId, n - 1, i, r);
      NextStaysIndexed(rows, inv, storedItemId, runItemId, n, r, Collapse(rows)[i]);
    }
  }

  lemma {:induction false} NoCopyNoIndex(
    rows: seq<TaskEntry>, inv: set<(string, int)>, storedItemId: Option<string>, runItemId: Option<string>, n: nat, r: ReuseKey)
    requires n <= |Collapse(rows)| && NoCopy(Collapse(rows), inv, r)
    ensures r !in HydratedUpTo(rows, inv, storedItemId, runItemId, n).reuse
  {
    if n == 0 {
    } else {
      NoCopyNoIndex(rows, inv, storedItemId, runItemId, n - 1, r);
      NextIsFiled(rows, inv, storedItemId, runItemId, n, r);
    }
  }

  /** The answer is not copied work. */
  predicate NotCopied(d: Decision) {
    d.Hit? ==> d.entry.reusedFrom.None?
  }

  /** Exactly when copied work comes back. A call for a record gets the last copy made for
      that record and label, at any point of any pass, unless the record is the run's own
      and something has run by then; in that case, or when there is no copy, it gets none. */
  lemma CopiedWorkIsReused(
    rows: seq<TaskEntry>, inv: set<(string, int)>, storedItemId: Option<string>, runItemId: Option<string>,
    evs: seq<CallEvent>, r: ReuseKey, explicit: Option<string>)
    requires EffectiveItemId(AfterCalls(Hydrated(rows, inv, storedItemId, runItemId), evs), explicit) == Some(r.0)
    ensures var s0 := Hydrated(rows, inv, storedItemId, runItemId);
            var d := Decide(AfterCalls(s0, evs), r.1, explicit);
            && (NoCopy(Collapse(rows), inv, r) ==> NotCopied(d))
            && forall i :: LastCopy(Collapse(rows), inv, i, r) ==>
                 if storedItemId == Some(r.0) && SomethingRan(s0, evs) then NotCopied(d) else d == Hit(Collapse(rows)[i])
  {
    var s0 := Hydrated(rows, inv, storedItemId, runItemId);
    HydratedMeaning(rows, inv, storedItemId, runItemId);
    PassKeepsIndex(s0, evs);
    FlagMeansSomethingRan(s0, evs);
    assert (r.0, r.1) == r;
    forall i | LastCopy(Collapse(rows), inv, i, r)
      ensures Indexes(s0, r, Collapse(rows)[i])
    {
      CopiedEntryIsIndexed(rows, inv, storedItemId, runItemId, |Collapse(rows)|, i, r);
    }
    if NoCopy(Collapse(rows), inv, r) {
      NoCopyNoIndex(rows, inv, storedItemId, runItemId, |Collapse(rows)|, r);
    }
  }
}
