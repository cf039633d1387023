/** The item over its local ledger: a pass over the store is a pass over the item's own
    rows. Models src/papayya/durable/run.py over src/papayya/durable/sqlite_store.py. */
module LocalResume {
  import opened Types
  import opened Labels
  import opened Latest
  import opened Ledger
  import opened ItemSpec
  import opened SqliteSpec
  import opened StoreRuns
  import opened Aggregates
  import opened Resume
  import opened CrashResume
  import FencedItem

  /** Saving an execution of the item's own adds its row, without the retry count, unless
      its identity is there. */
  lemma SaveIsOneRow(db: Db, id: string, e: TaskEntry)
    requires e.reusedFrom.None?
    ensures RowsOf(AfterSave(db, id, e).steps, id) == SaveRow(RowsOf(db.steps, id), Stored(e, false))
  {
    SaveIsSaveRow(db, id, e);
  }

  // ---- a pass over the store ----

  /** The pass there is, if any, and the ledger. */
  datatype LocalWorld = LocalWorld(pass: Option<Pass>, db: Db)

  /** A pass begins, in the same process or in a new one; makes its next call; ends, by an
      exception or with its process; or something else happens to the ledger. */
  datatype LocalEvent =
    | Start(storedItemId: Option<string>, runItemId: Option<string>, fence: Option<int>, restarted: bool)
    | Go(x: Execution, retryCount: nat)
    | Ends
    | Elsewhere(op: Op)

  ghost predicate InOrder(lw: LocalWorld) {
    lw.pass.Some? ==> CacheOrdered(lw.pass.value.item)
  }

  /** What the next call of a pass comes back with. */
  function Seen(s: ItemState, name: string, explicit: Option<string>, x: Execution): Value {
    var d := Decide(s, name, explicit);
    if d.Hit? then d.entry.result else x.result
  }

  /** A call stopped by the fence ends the pass; any other is one step of the item and
      the ledger together. */
  ghost function Gone(lw: LocalWorld, id: string, name: string, explicit: Option<string>, x: Execution, retryCount: nat): LocalWorld
    requires lw.pass.Some? && InOrder(lw)
  {
    var p := lw.pass.value;
    if id in lw.db.pending then LocalWorld(None, lw.db)
    else
      var next := FencedItem.Step(FencedItem.World(p.item, lw.db), id, FencedItem.Event.Call(name, explicit, Some(x), retryCount));
      LocalWorld(Some(Pass(next.item, p.calls + [name], p.seen + [Seen(p.item, name, explicit, x)])), next.db)
  }

  ghost function LocalStep(body: Body, id: string, lw: LocalWorld, ev: LocalEvent): LocalWorld
    requires InOrder(lw)
  {
    match ev
    case Start(stored, run, fence, restarted) =>
      if lw.pass.Some? then lw
      else
        var next := FencedItem.Step(FencedItem.World(Blank(run), lw.db), id, FencedItem.Begin(stored, run, fence, restarted));
        LocalWorld(Some(Pass(next.item, [], [])), next.db)
    case Go(x, retryCount) =>
      if lw.pass.None? || body(lw.pass.value.seen).Done? then lw
      else Gone(lw, id, body(lw.pass.value.seen).name, body(lw.pass.value.seen).explicit, x, retryCount)
    case Ends => LocalWorld(None, lw.db)
    case Elsewhere(op) => LocalWorld(lw.pass, Apply(lw.db, op))
  }

  /** The same world, with the item's own rows for a ledger. */
  function Projected(lw: LocalWorld, id: string): World {
    World(RowsOf(lw.db.steps, id), lw.pass)
  }

  /** And the same event. */
  ghost predicate Matches(body: Body, id: string, lw: LocalWorld, ev: LocalEvent, next: World)
    requires InOrder(lw)
  {
    var c, w := Setting(body, {}, false), Projected(lw, id);
    match ev
    case Start(stored, run, _, _) => next == Step(c, w, Begin(stored, run))
    case Go(x, retryCount) =>
      next == if id in lw.db.pending && lw.pass.Some? && body(lw.pass.value.seen).Call? then Step(c, w, Cut) else Step(c, w, Advance(x, retryCount))
    case Ends => next == Step(c, w, Cut)
    case Elsewhere(_) => next == w
  }

  lemma ElsewhereLeavesRows(db: Db, op: Op, id: string)
    requires !(op.OpSave? && op.id == id)
    ensures RowsOf(Apply(db, op).steps, id) == RowsOf(db.steps, id)
  {
    if op.OpSave? {
      RowsAfterSave(db, op.id, op.e, id);
    } else {
      OtherOpsKeepTheAggregates(db, op, id);
    }
  }

  lemma GoneMatches(body: Body, id: string, lw: LocalWorld, x: Execution, retryCount: nat)
    requires InOrder(lw) && lw.pass.Some? && id !in lw.db.pending && body(lw.pass.value.seen).Call?
    ensures Projected(LocalStep(body, id, lw, Go(x, retryCount)), id) == Step(Setting(body, {}, false), Projected(lw, id), Advance(x, retryCount))
  {
    var p, name, explicit := lw.pass.value, body(lw.pass.value.seen).name, body(lw.pass.value.seen).explicit;
    if Decide(p.item, name, explicit).Execute? {
      FencedItem.RowSaved(FencedItem.World(p.item, lw.db), id, name, explicit, x, retryCount);
      SaveIsOneRow(lw.db, id, EntryFor(Called(p.item, name, explicit), NextKey(p.item, name), EffectiveItemId(p.item, explicit), x, retryCount));
    }
  }

  lemma StartMatches(body: Body, id: string, lw: LocalWorld, stored: Option<string>, run: Option<string>, fence: Option<int>, restarted: bool)
    requires InOrder(lw)
    ensures Projected(LocalStep(body, id, lw, Start(stored, run, fence, restarted)), id) ==
            Step(Setting(body, {}, false), Projected(lw, id), Begin(stored, run))
  {
    assert FencedItem.Registered(lw.db, id, fence, restarted).steps == lw.db.steps;
  }

  lemma GoMatches(body: Body, id: string, lw: LocalWorld, x: Execution, retryCount: nat)
    requires InOrder(lw)
    ensures Matches(body, id, lw, Go(x, retryCount), Projected(LocalStep(body, id, lw, Go(x, retryCount)), id))
  {
    if lw.pass.Some? && id !in lw.db.pending && body(lw.pass.value.seen).Call? {
      GoneMatches(body, id, lw, x, retryCount);
    }
  }

  /** Every step of a pass over the store is the same step over the item's own rows, for a
      store that keeps no retry counts. */
  lemma StoreIsTheLedger(body: Body, id: string, lw: LocalWorld, ev: LocalEvent)
    requires InOrder(lw) && !(ev.Elsewhere? && ev.op.OpSave? && ev.op.id == id)
    ensures Matches(body, id, lw, ev, Projected(LocalStep(body, id, lw, ev), id))
  {
    match ev {
      case Start(stored, run, fence, restarted) => StartMatches(body, id, lw, stored, run, fence, restarted);
      case Go(x, retryCount) => GoMatches(body, id, lw, x, retryCount);
      case Elsewhere(op) => ElsewhereLeavesRows(lw.db, op, id);
      case _ =>
    }
  }

  lemma LocalStepInOrder(body: Body, id: string, lw: LocalWorld, ev: LocalEvent)
    requires InOrder(lw)
    ensures InOrder(LocalStep(body, id, lw, ev))
  {
    if ev.Go? && lw.pass.Some? && id !in lw.db.pending && body(lw.pass.value.seen).Call? {
      var act := body(lw.pass.value.seen);
      FencedItem.StepIsOrdered(FencedItem.World(lw.pass.value.item, lw.db), id,
                               FencedItem.Event.Call(act.name, act.explicit, Some(ev.x), ev.retryCount));
    }
  }

  /** Random tokens are new; the ledger's callers keep to its rules, and only the item
      saves its steps. */
  ghost predicate Permitted(id: string, lw: LocalWorld, ev: LocalEvent) {
    match ev
    case Go(x, _) => Resume.Fresh(RowsOf(lw.db.steps, id), x.uuid)
    case Elsewhere(op) => Allowed(lw.db, op) && !(op.OpSave? && op.id == id)
    case _ => true
  }

  ghost predicate LocalLeads(body: Body, id: string, lw: LocalWorld, events: seq<LocalEvent>, last: LocalWorld)
    requires InOrder(lw)
    ensures LocalLeads(body, id, lw, events, last) ==> InOrder(last)
    decreases |events|
  {
    if events == [] then last == lw
    else
      LocalStepInOrder(body, id, lw, events[0]);
      Permitted(id, lw, events[0]) && LocalLeads(body, id, LocalStep(body, id, lw, events[0]), events[1..], last)
  }

  lemma LocalStepTraces(body: Body, id: string, lw: LocalWorld, ev: LocalEvent)
    requires InOrder(lw) && Permitted(id, lw, ev) && KeysNeverCollide(body)
    requires TraceInv([], Setting(body, {}, false), Projected(lw, id))
    ensures TraceInv([], Setting(body, {}, false), Projected(LocalStep(body, id, lw, ev), id))
    ensures RowsOf(lw.db.steps, id) <= RowsOf(LocalStep(body, id, lw, ev).db.steps, id)
  {
    var c, w := Setting(body, {}, false), Projected(lw, id);
    StoreIsTheLedger(body, id, lw, ev);
    match ev {
      case Start(stored, run, _, _) =>
        if lw.pass.None? {
          RestartTraces(c, w.rows, stored, run);
        }
      case Go(x, retryCount) =>
        if lw.pass.Some? && body(lw.pass.value.seen).Call? {
          GrowsOnly(c, w, x, retryCount);
          AdvanceTraces([], c, w, x, retryCount);
        }
      case _ =>
    }
  }

  lemma {:induction false} LocalTraces(body: Body, id: string, lw: LocalWorld, events: seq<LocalEvent>, last: LocalWorld)
    requires InOrder(lw) && LocalLeads(body, id, lw, events, last) && KeysNeverCollide(body)
    requires TraceInv([], Setting(body, {}, false), Projected(lw, id))
    ensures TraceInv([], Setting(body, {}, false), Projected(last, id))
    ensures RowsOf(lw.db.steps, id) <= RowsOf(last.db.steps, id)
    decreases |events|
  {
    if events == [] {
    } else {
      LocalStepTraces(body, id, lw, events[0]);
      LocalTraces(body, id, LocalStep(body, id, lw, events[0]), events[1..], last);
    }
  }

  /** Crash-resume over the local ledger, for every body whose keys never collide: over any
      passes, cut anywhere, paused and resumed, in any processes, with anything else
      happening to the ledger, a pass sees exactly the loaded results from the first on;
      no key is executed twice; nothing loaded is lost; and a pass that finishes has seen
      everything there is to load. */
  lemma ReplayLawOverTheStore(body: Body, id: string, db: Db, before: seq<LocalEvent>, mid: LocalWorld, after: seq<LocalEvent>, last: LocalWorld)
    requires KeysNeverCollide(body) && RowsOf(db.steps, id) == []
    requires LocalLeads(body, id, LocalWorld(None, db), before, mid) && LocalLeads(body, id, mid, after, last)
    ensures var loaded := RowsOf(last.db.steps, id);
            && (forall key :: Executions(loaded, key) <= 1)
            && RowsOf(mid.db.steps, id) <= loaded
            && (mid.pass.Some? ==> mid.pass.value.seen <= Results(loaded))
            && (mid.pass.Some? && body(mid.pass.value.seen).Done? ==> mid.pass.value.seen == Results(loaded))
            && BodyTrace(body, loaded)
  {
    var c := Setting(body, {}, false);
    StartHolds([], c);
    LocalTraces(body, id, LocalWorld(None, db), before, mid);
    LocalTraces(body, id, mid, after, last);
    forall key
      ensures Executions(RowsOf(last.db.steps, id), key) <= 1
    {
      EachKeyOnce([], c, Projected(last, id), key);
    }
    if mid.pass.Some? {
      assert mid.pass.value.seen <= Results(RowsOf(last.db.steps, id));
      if body(mid.pass.value.seen).Done? {
        FinishedSawAll(c, Projected(last, id), mid.pass.value.seen);
      }
    }
  }
}
