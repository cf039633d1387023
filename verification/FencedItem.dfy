/** The item and the local ledger together: the pause the ledger raises is the one the
    item looks at before every step. Models `_pre_call` of src/papayya/durable/run.py
    over `save_task` and `pending_pause` of src/papayya/durable/sqlite_store.py. */
module FencedItem {
  import opened Types
  import opened ItemSpec
  import opened Items
  import opened Ledger
  import opened SqliteSpec
  import opened SqliteStore
  import opened StoreRuns
  import opened Fence
  import opened Aggregates

  /** The item of a pass, and the ledger. */
  datatype World = World(item: ItemState, db: Db)

  /** A new pass, which registers the item's own fence if it has one, in the same process
      or in a new one; a call of the body, with what its function brings along or nothing
      if its exception goes up; or anything else that happens to the ledger. */
  datatype Event =
    | Begin(storedItemId: Option<string>, runItemId: Option<string>, fence: Option<int>, restarted: bool)
    | Call(name: string, explicit: Option<string>, ran: Option<Execution>, retryCount: nat)
    | Elsewhere(op: Op)

  /** The row a call saves, if it saves one. */
  ghost function RowOf(w: World, id: string, ev: Event): Option<TaskEntry>
    requires CacheOrdered(w.item)
  {
    if ev.Call? && id !in w.db.pending && Decide(w.item, ev.name, ev.explicit).Execute? && ev.ran.Some? then
      Some(EntryFor(Called(w.item, ev.name, ev.explicit), NextKey(w.item, ev.name), EffectiveItemId(w.item, ev.explicit),
                    ev.ran.value, ev.retryCount))
    else None
  }

  /** The ledger as a new pass finds it. */
  function Registered(db: Db, id: string, fence: Option<int>, restarted: bool): Db {
    var db' := if restarted then Apply(db, OpRestart) else db;
    if fence.Some? then Apply(db', OpSetFence(id, fence.value)) else db'
  }

  ghost function Step(w: World, id: string, ev: Event): World
    requires CacheOrdered(w.item)
  {
    match ev
    case Begin(stored, run, fence, restarted) =>
      World(Hydrated(RowsOf(w.db.steps, id), {}, stored, run), Registered(w.db, id, fence, restarted))
    case Elsewhere(op) => World(w.item, Apply(w.db, op))
    case Call(name, explicit, ran, retryCount) =>
      if id in w.db.pending then w
      else
        var called, row := Called(w.item, name, explicit), RowOf(w, id, ev);
        if row.None? then World(called, w.db)
        else World(Recorded(called, row.value), AfterSave(w.db, id, row.value))
  }

  lemma StepIsOrdered(w: World, id: string, ev: Event)
    requires CacheOrdered(w.item)
    ensures CacheOrdered(Step(w, id, ev).item)
  {
    if RowOf(w, id, ev).Some? {
      RecordedIsOrdered(Called(w.item, ev.name, ev.explicit), RowOf(w, id, ev).value);
    }
  }

  /** The ledger's callers keep to its rules, and only the item saves its steps and
      registers its fence. A process that dies takes the pass with it. */
  predicate Legal(w: World, id: string, ev: Event) {
    ev.Elsewhere? ==>
      && Allowed(w.db, ev.op) && !ev.op.OpRestart?
      && !(ev.op.OpSave? && ev.op.id == id) && !(ev.op.OpSetFence? && ev.op.id == id)
  }

  ghost predicate Leads(w: World, id: string, events: seq<Event>, last: World)
    requires CacheOrdered(w.item)
    ensures Leads(w, id, events, last) ==> CacheOrdered(last.item)
    decreases |events|
  {
    if events == [] then last == w
    else
      StepIsOrdered(w, id, events[0]);
      Legal(w, id, events[0]) && Leads(Step(w, id, events[0]), id, events[1..], last)
  }

  /** A pass begins: the item registers its fence and loads its rows. */
  method StartPass(item: Item, store: SQLiteStore, id: string, fence: Option<int>)
    requires item.Valid() && !item.initialized && item.State() == Blank(item.runItemId) && id in store.items
    modifies item, store
    ensures item.Valid() && item.initialized && item.finished == old(item.finished)
    ensures World(item.State(), store.State()) ==
            Step(old(World(item.State(), store.State())), id, Begin(old(store.items)[id].customerId, old(item.runItemId), fence, false))
  {
    ghost var db := store.State();
    if fence.Some? {
      store.SetRunFence(id, fence.value);
    }
    assert store.State() == Registered(db, id, fence, false);
    var tasks := store.Load(id);
    var stored := Checkpoint(tasks.value, store.items[id].customerId, []);
    assert (set p | p in stored.pauseInvalidated) == {};
    item.Init(Some(stored), []);
  }

  /** One durable call against the store: the fence, the call, the save. */
  method FencedCall(item: Item, store: SQLiteStore, id: string, name: string, explicit: Option<string>, retries: Option<int>, fn: nat -> Try)
    returns (r: CallResult, tried: nat)
    requires item.Valid() && !item.finished
    modifies item, store
    ensures item.Valid() && !item.finished
    ensures r.Paused? <==> id in old(store.pendingPauses)
    ensures r.Executed? ==> tried >= 1 && fn(tried).Returns?
    ensures World(item.State(), store.State()) ==
            Step(old(World(item.State(), store.State())), id,
                 if r.Executed? then Event.Call(name, explicit, Some(fn(tried).x), tried - 1) else Event.Call(name, explicit, None, 0))
  {
    ghost var w := World(item.State(), store.State());
    var pause := store.PendingPause(id);
    var slept;
    r, tried, slept := item.Call(name, explicit, pause, retries, fn);
    if r.Executed? {
      RowSaved(w, id, name, explicit, fn(tried).x, tried - 1);
      store.SaveTask(id, r.entry);
    } else {
      NoRowSaved(w, id, name, explicit);
    }
  }

  lemma RowSaved(w: World, id: string, name: string, explicit: Option<string>, x: Execution, retryCount: nat)
    requires CacheOrdered(w.item) && id !in w.db.pending && Decide(w.item, name, explicit).Execute?
    ensures var called := Called(w.item, name, explicit);
            var e := EntryFor(called, NextKey(w.item, name), EffectiveItemId(w.item, explicit), x, retryCount);
            Step(w, id, Event.Call(name, explicit, Some(x), retryCount)) == World(Recorded(called, e), AfterSave(w.db, id, e))
  {
  }

  lemma NoRowSaved(w: World, id: string, name: string, explicit: Option<string>)
    requires CacheOrdered(w.item)
    ensures Step(w, id, Event.Call(name, explicit, None, 0)) ==
            if id in w.db.pending then w else World(Called(w.item, name, explicit), w.db)
  {
  }

  // ---- the gate is a result ----

  function BeginOps(id: string, fence: Option<int>, restarted: bool): seq<Op> {
    (if restarted then [OpRestart] else []) + (if fence.Some? then [OpSetFence(id, fence.value)] else [])
  }

  /** What one event does to the ledger. */
  ghost function OpsAt(w: World, id: string, ev: Event): seq<Op>
    requires CacheOrdered(w.item)
  {
    if ev.Elsewhere? then [ev.op]
    else if ev.Begin? then BeginOps(id, ev.fence, ev.restarted)
    else if RowOf(w, id, ev).Some? then [OpSave(id, RowOf(w, id, ev).value)]
    else []
  }

  ghost function OpsOf(w: World, id: string, events: seq<Event>): seq<Op>
    requires CacheOrdered(w.item)
    decreases |events|
  {
    if events == [] then []
    else
      StepIsOrdered(w, id, events[0]);
      OpsAt(w, id, events[0]) + OpsOf(Step(w, id, events[0]), id, events[1..])
  }

  predicate ClearsPause(ev: Event, id: string) {
    (ev.Begin? && ev.restarted) || (ev.Elsewhere? && Clears(ev.op, id))
  }

  /** How often a pause of the item was cleared. */
  function Clearings(events: seq<Event>, id: string): nat {
    if events == [] then 0 else (if ClearsPause(events[0], id) then 1 else 0) + Clearings(events[1..], id)
  }

  lemma ItemStays(db: Db, op: Op, id: string)
    requires id in db.items
    ensures id in Apply(db, op).items
  {
  }

  /** A gated history, one operation at a time. */
  lemma GatedThen(db: Db, op: Op, rest: seq<Op>, id: string, last: Db)
    requires Allowed(db, op) && Gated(db, op, id) && GatedHistory(Apply(db, op), rest, id, last)
    ensures GatedHistory(db, [op] + rest, id, last)
    ensures ClearCount([op] + rest, id) == (if Clears(op, id) then 1 else 0) + ClearCount(rest, id)
  {
    assert ([op] + rest)[0] == op && ([op] + rest)[1..] == rest;
  }

  lemma BeginGated(db: Db, id: string, fence: Option<int>, restarted: bool, rest: seq<Op>, last: Db)
    requires GatedHistory(Registered(db, id, fence, restarted), rest, id, last)
    ensures GatedHistory(db, BeginOps(id, fence, restarted) + rest, id, last)
    ensures ClearCount(BeginOps(id, fence, restarted) + rest, id) == (if restarted then 1 else 0) + ClearCount(rest, id)
  {
    var db' := if restarted then Apply(db, OpRestart) else db;
    var more := if fence.Some? then [OpSetFence(id, fence.value)] + rest else rest;
    if fence.Some? {
      GatedThen(db', OpSetFence(id, fence.value), rest, id, last);
    }
    if restarted {
      GatedThen(db, OpRestart, more, id, last);
    }
    assert BeginOps(id, fence, restarted) + rest == if restarted then [OpRestart] + more else more;
  }

  /** An event is no operation of the ledger, or allowed and gated ones. */
  lemma EventGated(w: World, id: string, ev: Event, rest: seq<Op>, last: Db)
    requires CacheOrdered(w.item) && id in w.db.items && Legal(w, id, ev)
    requires GatedHistory(Step(w, id, ev).db, rest, id, last)
    ensures GatedHistory(w.db, OpsAt(w, id, ev) + rest, id, last)
    ensures ClearCount(OpsAt(w, id, ev) + rest, id) == (if ClearsPause(ev, id) then 1 else 0) + ClearCount(rest, id)
  {
    match ev {
      case Begin(_, _, fence, restarted) => BeginGated(w.db, id, fence, restarted, rest, last);
      case Elsewhere(op) =>
        GatedThen(w.db, op, rest, id, last);
      case Call(_, _, _, _) =>
        if RowOf(w, id, ev).Some? {
          var op := OpSave(id, RowOf(w, id, ev).value);
          GatedThen(w.db, op, rest, id, last);
        } else {
          assert [] + rest == rest;
        }
    }
  }

  lemma ItemStaysThrough(w: World, id: string, ev: Event)
    requires CacheOrdered(w.item) && id in w.db.items
    ensures id in Step(w, id, ev).db.items
  {
    if ev.Elsewhere? {
      ItemStays(w.db, ev.op, id);
    }
  }

  /** Whatever the body does, the item never saves while its pause is pending: every
      history of calls is a gated history of the ledger. */
  lemma {:induction false} EveryHistoryIsGated(w: World, id: string, events: seq<Event>, last: World)
    requires CacheOrdered(w.item) && id in w.db.items && Leads(w, id, events, last)
    ensures GatedHistory(w.db, OpsOf(w, id, events), id, last.db)
    ensures ClearCount(OpsOf(w, id, events), id) == Clearings(events, id)
    decreases |events|
  {
    if events == [] {
    } else {
      var next := Step(w, id, events[0]);
      StepIsOrdered(w, id, events[0]);
      ItemStaysThrough(w, id, events[0]);
      EveryHistoryIsGated(next, id, events[1..], last);
      EventGated(w, id, events[0], OpsOf(next, id, events[1..]), last.db);
    }
  }

  /** While a pause is pending and nobody clears it, no step is saved; and within a
      pass no occurrence is consumed and nothing is cached. */
  lemma {:induction false} NothingRunsWhilePaused(w: World, id: string, events: seq<Event>, last: World)
    requires CacheOrdered(w.item) && id in w.db.pending && Leads(w, id, events, last) && Clearings(events, id) == 0
    ensures id in last.db.pending && RowsOf(last.db.steps, id) == RowsOf(w.db.steps, id)
    ensures (forall i :: 0 <= i < |events| ==> !events[i].Begin?) ==> last.item == w.item
    decreases |events|
  {
    if events == [] {
    } else {
      StepIsOrdered(w, id, events[0]);
      PausedStep(w, id, events[0]);
      NothingRunsWhilePaused(Step(w, id, events[0]), id, events[1..], last);
    }
  }

  lemma PausedStep(w: World, id: string, ev: Event)
    requires CacheOrdered(w.item) && id in w.db.pending && Legal(w, id, ev)
    requires !ClearsPause(ev, id)
    ensures var w' := Step(w, id, ev);
            && id in w'.db.pending && RowsOf(w'.db.steps, id) == RowsOf(w.db.steps, id)
            && (!ev.Begin? ==> w'.item == w.item)
  {
    if ev.Elsewhere? {
      PausedElsewhere(w.db, ev.op, id);
    }
  }

  lemma PausedElsewhere(db: Db, op: Op, id: string)
    requires id in db.pending && !Clears(op, id) && !(op.OpSave? && op.id == id)
    ensures id in Apply(db, op).pending && RowsOf(Apply(db, op).steps, id) == RowsOf(db.steps, id)
  {
    if op.OpSave? {
      OtherSaveKeepsPause(db, op.id, op.e, id);
    } else {
      OtherOpsLeaveStreaks(db, op, id);
    }
  }

  /** Whatever fence each pass registers, if any, the fence in force is `k`: set for the
      whole process, or the same for every pass, 3 being what a pass without one gets. */
  predicate FenceIs(db: Db, id: string, events: seq<Event>, k: int) {
    || db.envFence == Some(k)
    || (&& db.envFence.None? && FenceFor(db, id) == k
        && forall i :: 0 <= i < |events| && events[i].Begin? ==> k == if events[i].fence.Some? then events[i].fence.value else 3)
  }

  lemma OpKeepsFence(db: Db, op: Op, id: string)
    requires !op.OpRestart? && !(op.OpSetFence? && op.id == id)
    ensures Apply(db, op).envFence == db.envFence && FenceFor(Apply(db, op), id) == FenceFor(db, id)
  {
  }

  lemma BeginSetsFence(db: Db, id: string, fence: Option<int>, restarted: bool)
    ensures var db' := Registered(db, id, fence, restarted);
            && db'.envFence == db.envFence
            && (db.envFence.None? ==>
                  FenceFor(db', id) == if fence.Some? then fence.value else if restarted then 3 else FenceFor(db, id))
  {
  }

  lemma EventKeepsFence(w: World, id: string, ev: Event)
    requires CacheOrdered(w.item) && Legal(w, id, ev) && !ev.Begin?
    ensures Step(w, id, ev).db.envFence == w.db.envFence && FenceFor(Step(w, id, ev).db, id) == FenceFor(w.db, id)
  {
    if ev.Elsewhere? {
      OpKeepsFence(w.db, ev.op, id);
    } else if RowOf(w, id, ev).Some? {
      OpKeepsFence(w.db, OpSave(id, RowOf(w, id, ev).value), id);
    }
  }

  lemma FenceStays(w: World, id: string, events: seq<Event>, k: int)
    requires CacheOrdered(w.item) && events != [] && FenceIs(w.db, id, events, k) && Legal(w, id, events[0])
    ensures FenceFor(w.db, id) == k && FenceIs(Step(w, id, events[0]).db, id, events[1..], k)
  {
    var ev := events[0];
    if ev.Begin? {
      BeginSetsFence(w.db, id, ev.fence, ev.restarted);
    } else {
      EventKeepsFence(w, id, ev);
    }
  }

  lemma FencedThen(db: Db, op: Op, rest: seq<Op>, id: string, k: int)
    requires op.OpSave? && op.id == id ==> FenceFor(db, id) == k
    requires FencedBy(Apply(db, op), rest, id, k, k)
    ensures FencedBy(db, [op] + rest, id, k, k)
  {
    assert ([op] + rest)[0] == op && ([op] + rest)[1..] == rest;
  }

  lemma BeginFenced(db: Db, id: string, fence: Option<int>, restarted: bool, rest: seq<Op>, k: int)
    requires FencedBy(Registered(db, id, fence, restarted), rest, id, k, k)
    ensures FencedBy(db, BeginOps(id, fence, restarted) + rest, id, k, k)
  {
    var db' := if restarted then Apply(db, OpRestart) else db;
    var more := if fence.Some? then [OpSetFence(id, fence.value)] + rest else rest;
    if fence.Some? {
      FencedThen(db', OpSetFence(id, fence.value), rest, id, k);
    }
    if restarted {
      FencedThen(db, OpRestart, more, id, k);
    }
    assert BeginOps(id, fence, restarted) + rest == if restarted then [OpRestart] + more else more;
  }

  /** Every save is made under the fence registered for it. */
  lemma {:induction false} EverySaveIsFenced(w: World, id: string, events: seq<Event>, last: World, k: int)
    requires CacheOrdered(w.item) && Leads(w, id, events, last) && FenceIs(w.db, id, events, k)
    ensures FencedBy(w.db, OpsOf(w, id, events), id, k, k)
    decreases |events|
  {
    if events == [] {
    } else {
      var ev, next := events[0], Step(w, id, events[0]);
      StepIsOrdered(w, id, ev);
      FenceStays(w, id, events, k);
      EverySaveIsFenced(next, id, events[1..], last, k);
      var rest := OpsOf(next, id, events[1..]);
      match ev {
        case Begin(_, _, fence, restarted) => BeginFenced(w.db, id, fence, restarted, rest, k);
        case Elsewhere(op) => FencedThen(w.db, op, rest, id, k);
        case Call(_, _, _, _) =>
          if RowOf(w, id, ev).Some? {
            FencedThen(w.db, OpSave(id, RowOf(w, id, ev).value), rest, id, k);
          } else {
            assert [] + rest == rest;
          }
      }
    }
  }

  /** The degraded-streak bound, for every body, over any passes in any processes: no more
      than `k` plus the number of clearings consecutive rows are not ok; and the item is
      paused exactly when its rows end in a full streak and no pause was cleared since. */
  lemma StreaksAreBounded(w: World, id: string, events: seq<Event>, last: World, k: nat, lo: nat, hi: nat)
    requires CacheOrdered(w.item) && id in w.db.items && Leads(w, id, events, last)
    requires RowsOf(w.db.steps, id) == [] && id !in w.db.pending && FenceIs(w.db, id, events, k) && k > 0
    requires lo <= hi <= |RowsOf(last.db.steps, id)|
    requires forall i :: lo <= i < hi ==> RowsOf(last.db.steps, id)[i].outcome != OutcomeOk
    ensures hi - lo <= k + Clearings(events, id)
    ensures id in last.db.pending <==>
            TrailingBad(RowsOf(last.db.steps, id)) >= k && !ClearedSince(w.db, OpsOf(w, id, events), id, false)
    ensures id in last.db.pending ==> PauseSays(last.db.pending[id], k, RowsOf(last.db.steps, id))
  {
    EveryHistoryIsGated(w, id, events, last);
    EverySaveIsFenced(w, id, events, last, k);
    FencedByLess(w.db, OpsOf(w, id, events), id, k);
    StreakIsBounded(w.db, OpsOf(w, id, events), id, last.db, k, lo, hi);
    FenceTrips(w.db, OpsOf(w, id, events), id, last.db, k);
  }

  lemma {:induction false} FencedByLess(db: Db, ops: seq<Op>, id: string, k: nat)
    requires k > 0 && FencedBy(db, ops, id, k, k)
    ensures FencedBy(db, ops, id, 1, k)
    decreases |ops|
  {
    if ops == [] {
    } else {
      FencedByLess(Apply(db, ops[0]), ops[1..], id, k);
    }
  }
}
