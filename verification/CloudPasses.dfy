/** The item over its control plane: passes that begin from what the control plane shows,
    and save through the retry loop and the journal. Models src/papayya/durable/run.py
    over src/papayya/durable/cloud_store.py. */
module CloudPasses {
  import opened Types
  import opened Latest
  import opened Ledger
  import opened ItemSpec
  import opened Resume
  import opened CrashResume
  import opened Journal
  import opened CloudStore
  import opened Outage
  import Convergence
  import CloudResume

  /** `w.rows` are the executions made, less those whose process died before one attempt
      to save them landed; `s` is where their writes are. */
  datatype CloudWorld = CloudWorld(w: World, s: CloudState)

  /** A pass begins; it makes its next call, and what executes is saved; its process dies
      after some attempts of that save, or at any other point; or the store is used for
      another write, or dies in a drain. */
  datatype CloudEvent =
    | Start(storedItemId: Option<string>, runItemId: Option<string>)
    | Call(x: Execution, retryCount: nat, now: int)
    | DiesSaving(x: Execution, retryCount: nat, requests: nat)
    | Dies
    | Elsewhere(ev: StoreEvent)

  /** The control plane, the run, and its item. */
  datatype Scene = Scene(c: Setting, replies: nat -> Reply, runId: string)

  function Saving(g: Scene, row: TaskEntry): Write {
    Write(g.runId, SaveTask(row))
  }

  /** The next call of the pass is not answered from its cache. */
  ghost predicate Executes(g: Scene, w: World)
    requires Ordered(w)
  {
    && w.pass.Some? && g.c.body(w.pass.value.seen).Call?
    && Decide(w.pass.value.item, g.c.body(w.pass.value.seen).name, g.c.body(w.pass.value.seen).explicit).Execute?
  }

  /** The row it then saves. */
  ghost function RowMade(g: Scene, w: World, x: Execution, retryCount: nat): TaskEntry
    requires Ordered(w) && Executes(g, w)
  {
    RowFor(g.c, w, g.c.body(w.pass.value.seen).name, g.c.body(w.pass.value.seen).explicit, x, retryCount)
  }

  /** A save that is refused for good ends the pass with its exception. */
  ghost function AfterSaving(g: Scene, cw: CloudWorld, x: Execution, retryCount: nat, now: int): CloudWorld
    requires Ordered(cw.w) && Executes(g, cw.w)
  {
    var next, write := Step(g.c, cw.w, Advance(x, retryCount)), Saving(g, RowMade(g, cw.w, x, retryCount));
    var raised := OutcomeAt(g.replies, AfterDrain(cw.s, g.replies).clock).Raised?;
    CloudWorld(if raised then World(next.rows, None) else next, After(cw.s, g.replies, StoreEvent.Execute(write, now)))
  }

  ghost function AfterDying(g: Scene, cw: CloudWorld, x: Execution, retryCount: nat, requests: nat): CloudWorld
    requires Ordered(cw.w) && Executes(g, cw.w)
  {
    var ev := DiesInSend(Saving(g, RowMade(g, cw.w, x, retryCount)), requests);
    var rows := if Survives(cw.s, g.replies, ev) then Step(g.c, cw.w, Advance(x, retryCount)).rows else cw.w.rows;
    CloudWorld(World(rows, None), After(cw.s, g.replies, ev))
  }

  ghost function CloudStep(g: Scene, cw: CloudWorld, e: CloudEvent): CloudWorld
    requires Ordered(cw.w)
  {
    match e
    case Start(stored, run) => CloudWorld(CloudResume.CloudStep(g.c, cw.w, CloudResume.Start(ServerRows(cw.s, g.runId), stored, run)), cw.s)
    case Call(x, retryCount, now) =>
      if Executes(g, cw.w) then AfterSaving(g, cw, x, retryCount, now)
      else CloudWorld(Step(g.c, cw.w, Advance(x, retryCount)), cw.s)
    case DiesSaving(x, retryCount, requests) =>
      if Executes(g, cw.w) then AfterDying(g, cw, x, retryCount, requests) else CloudWorld(World(cw.w.rows, None), cw.s)
    case Dies => CloudWorld(World(cw.w.rows, None), cw.s)
    case Elsewhere(ev) => CloudWorld(cw.w, After(cw.s, g.replies, ev))
  }

  lemma CloudStepIsOrdered(g: Scene, cw: CloudWorld, e: CloudEvent)
    requires Ordered(cw.w)
    ensures Ordered(CloudStep(g, cw, e).w)
  {
    match e {
      case Start(stored, run) => CloudResume.CloudStepIsOrdered(g.c, cw.w, CloudResume.Start(ServerRows(cw.s, g.runId), stored, run));
      case Call(x, retryCount, _) => StepIsOrdered(g.c, cw.w, Advance(x, retryCount));
      case _ =>
    }
  }

  /** Random tokens are new, and only the item saves steps of its run. */
  ghost predicate Allowed(g: Scene, w: World, e: CloudEvent) {
    match e
    case Call(x, _, _) => Fresh(w.rows, x.uuid)
    case DiesSaving(x, _, _) => Fresh(w.rows, x.uuid)
    case Elsewhere(ev) => ev.DiesInDrain? || ev.write.runId != g.runId || !ev.write.payload.SaveTask?
    case _ => true
  }

  /** Every step of the run that is anywhere has been applied. */
  ghost predicate Shown(s: CloudState, runId: string) {
    forall e :: Accounted(s, Write(runId, SaveTask(e))) ==> InLog(s, Write(runId, SaveTask(e)))
  }

  /** The worlds `events` can lead to when, at the beginning of every pass, every step
      saved so far has been applied. */
  ghost predicate ShownLeads(g: Scene, cw: CloudWorld, events: seq<CloudEvent>, last: CloudWorld)
    requires Ordered(cw.w)
    ensures ShownLeads(g, cw, events, last) ==> Ordered(last.w)
    decreases |events|
  {
    if events == [] then last == cw
    else
      CloudStepIsOrdered(g, cw, events[0]);
      && Allowed(g, cw.w, events[0]) && (events[0].Start? ==> Shown(cw.s, g.runId))
      && ShownLeads(g, CloudStep(g, cw, events[0]), events[1..], last)
  }

  /** The steps of the run that are anywhere are the executions made. */
  ghost predicate Linked(g: Scene, cw: CloudWorld) {
    forall e :: Accounted(cw.s, Saving(g, e)) <==> e in cw.w.rows
  }

  // ---- what is shown ----

  lemma FirstExecutionsDiffer(c: Setting, w: World, a: TaskEntry, b: TaskEntry)
    requires TraceInv([], c, w) && a in w.rows && b in w.rows && IdentityOf(a) == IdentityOf(b)
    ensures a == b
  {
    assert KeyHistory([], c.inv, w.rows, a.key) && KeyHistory([], c.inv, w.rows, b.key);
    assert a.attempt == 1 && b.attempt == 1;
    Convergence.StampedIdentity(a, b);
    EachKeyOnce([], c, w, a.key);
    CloudResume.OneRowOfAKey(w.rows, a, b);
  }

  /** The control plane shows exactly those executions whose write it has applied. */
  lemma RowsShown(g: Scene, cw: CloudWorld, e: TaskEntry)
    requires TraceInv([], g.c, cw.w) && Linked(g, cw)
    ensures e in ServerRows(cw.s, g.runId) <==> InLog(cw.s, Saving(g, e))
  {
    var xs := TasksOf(cw.s.log, g.runId);
    TasksMeaning(cw.s.log, g.runId);
    forall a | a in xs
      ensures a in cw.w.rows
    {
      assert InLog(cw.s, Saving(g, a));
    }
    forall a, b | a in xs && b in xs && IdentityOf(a) == IdentityOf(b)
      ensures a == b
    {
      FirstExecutionsDiffer(g.c, cw.w, a, b);
    }
    DeliverStoresEverything(xs);
  }

  lemma DrainedIsShown(g: Scene, cw: CloudWorld)
    requires TraceInv([], g.c, cw.w) && Linked(g, cw) && CloudResume.Drained(cw.w, ServerRows(cw.s, g.runId))
    ensures Shown(cw.s, g.runId)
  {
    forall e | Accounted(cw.s, Write(g.runId, SaveTask(e)))
      ensures InLog(cw.s, Write(g.runId, SaveTask(e)))
    {
      assert Accounted(cw.s, Saving(g, e)) && e in cw.w.rows;
      RowsShown(g, cw, e);
    }
  }

  lemma ShownIsDrained(g: Scene, cw: CloudWorld)
    requires TraceInv([], g.c, cw.w) && Linked(g, cw) && Shown(cw.s, g.runId)
    ensures CloudResume.Drained(cw.w, ServerRows(cw.s, g.runId))
  {
    forall e
      ensures e in ServerRows(cw.s, g.runId) <==> e in cw.w.rows
    {
      RowsShown(g, cw, e);
      assert InLog(cw.s, Saving(g, e)) ==> Accounted(cw.s, Saving(g, e));
      assert Accounted(cw.s, Saving(g, e)) <==> e in cw.w.rows;
      assert Saving(g, e) == Write(g.runId, SaveTask(e));
    }
  }

  /** A pass that begins finds every execution made exactly when each of them is applied. */
  lemma DrainedIffShown(g: Scene, cw: CloudWorld)
    requires TraceInv([], g.c, cw.w) && Linked(g, cw)
    ensures CloudResume.Drained(cw.w, ServerRows(cw.s, g.runId)) <==> Shown(cw.s, g.runId)
  {
    if Shown(cw.s, g.runId) {
      ShownIsDrained(g, cw);
    }
    if CloudResume.Drained(cw.w, ServerRows(cw.s, g.runId)) {
      DrainedIsShown(g, cw);
    }
  }

  /** With an empty journal, and none of the run's steps lost or refused for good,
      everything is shown. */
  lemma EmptyJournalShows(s: CloudState, runId: string)
    requires s.journal == [] && forall e :: Write(runId, SaveTask(e)) !in s.lost && Write(runId, SaveTask(e)) !in s.rejected
    ensures Shown(s, runId)
  {
  }

  // ---- steps keep it ----

  lemma SavedIsLinked(g: Scene, cw: CloudWorld, ev: StoreEvent, row: TaskEntry)
    requires Linked(g, cw) && !ev.DiesInDrain? && ev.write == Saving(g, row)
    ensures forall e :: Accounted(After(cw.s, g.replies, ev), Saving(g, e)) <==>
                        e in cw.w.rows || (Survives(cw.s, g.replies, ev) && e == row)
  {
    forall e
      ensures Accounted(After(cw.s, g.replies, ev), Saving(g, e)) <==> e in cw.w.rows || (Survives(cw.s, g.replies, ev) && e == row)
    {
      EventAccounts(cw.s, g.replies, ev, Saving(g, e));
    }
  }

  lemma ElsewhereIsLinked(g: Scene, cw: CloudWorld, ev: StoreEvent)
    requires Linked(g, cw) && Allowed(g, cw.w, Elsewhere(ev))
    ensures Linked(g, CloudWorld(cw.w, After(cw.s, g.replies, ev)))
  {
    forall e
      ensures Accounted(After(cw.s, g.replies, ev), Saving(g, e)) <==> Accounted(cw.s, Saving(g, e))
    {
      EventAccounts(cw.s, g.replies, ev, Saving(g, e));
    }
  }

  /** An execution appends the row it saves. */
  lemma ExecutionIsSaved(g: Scene, w: World, x: Execution, retryCount: nat)
    requires TraceInv([], g.c, w) && Executes(g, w) && Fresh(w.rows, x.uuid)
    ensures Step(g.c, w, Advance(x, retryCount)).rows == w.rows + [RowMade(g, w, x, retryCount)]
  {
    ExecutionAppends([], g.c, w, g.c.body(w.pass.value.seen).name, g.c.body(w.pass.value.seen).explicit, x, retryCount);
  }

  lemma AnsweredLeavesRows(g: Scene, w: World, x: Execution, retryCount: nat)
    requires Ordered(w) && !Executes(g, w)
    ensures Step(g.c, w, Advance(x, retryCount)).rows == w.rows
  {
  }

  lemma SavingIsLinked(g: Scene, cw: CloudWorld, x: Execution, retryCount: nat, now: int)
    requires TraceInv([], g.c, cw.w) && Linked(g, cw) && Executes(g, cw.w) && Fresh(cw.w.rows, x.uuid)
    ensures Linked(g, AfterSaving(g, cw, x, retryCount, now))
  {
    var row := RowMade(g, cw.w, x, retryCount);
    ExecutionIsSaved(g, cw.w, x, retryCount);
    SavedIsLinked(g, cw, StoreEvent.Execute(Saving(g, row), now), row);
  }

  lemma DyingIsLinked(g: Scene, cw: CloudWorld, x: Execution, retryCount: nat, requests: nat)
    requires TraceInv([], g.c, cw.w) && Linked(g, cw) && Executes(g, cw.w) && Fresh(cw.w.rows, x.uuid)
    ensures Linked(g, AfterDying(g, cw, x, retryCount, requests))
  {
    var row := RowMade(g, cw.w, x, retryCount);
    ExecutionIsSaved(g, cw.w, x, retryCount);
    SavedIsLinked(g, cw, DiesInSend(Saving(g, row), requests), row);
  }

  lemma CloudStepIsLinked(g: Scene, cw: CloudWorld, e: CloudEvent)
    requires TraceInv([], g.c, cw.w) && Linked(g, cw) && Allowed(g, cw.w, e)
    ensures Linked(g, CloudStep(g, cw, e))
  {
    match e {
      case Call(x, retryCount, now) =>
        if Executes(g, cw.w) {
          SavingIsLinked(g, cw, x, retryCount, now);
        } else {
          AnsweredLeavesRows(g, cw.w, x, retryCount);
        }
      case DiesSaving(x, retryCount, requests) =>
        if Executes(g, cw.w) {
          DyingIsLinked(g, cw, x, retryCount, requests);
        }
      case Elsewhere(ev) => ElsewhereIsLinked(g, cw, ev);
      case _ =>
    }
  }

  lemma AdvancedTraces(g: Scene, w: World, x: Execution, retryCount: nat)
    requires TraceInv([], g.c, w) && KeysNeverCollide(g.c.body) && Fresh(w.rows, x.uuid)
    ensures TraceInv([], g.c, Step(g.c, w, Advance(x, retryCount)))
    ensures TraceInv([], g.c, World(Step(g.c, w, Advance(x, retryCount)).rows, None))
  {
    CloudResume.CloudStepTraces(g.c, w, CloudResume.Go(Advance(x, retryCount)));
  }

  lemma CloudStepTraces(g: Scene, cw: CloudWorld, e: CloudEvent)
    requires TraceInv([], g.c, cw.w) && KeysNeverCollide(g.c.body) && Linked(g, cw)
    requires Allowed(g, cw.w, e) && (e.Start? ==> Shown(cw.s, g.runId))
    ensures TraceInv([], g.c, CloudStep(g, cw, e).w)
  {
    match e {
      case Start(stored, run) =>
        DrainedIffShown(g, cw);
        CloudResume.CloudStepTraces(g.c, cw.w, CloudResume.Start(ServerRows(cw.s, g.runId), stored, run));
      case Call(x, retryCount, _) => AdvancedTraces(g, cw.w, x, retryCount);
      case DiesSaving(x, retryCount, _) => AdvancedTraces(g, cw.w, x, retryCount);
      case _ =>
    }
  }

  lemma {:induction false} ShownTraces(g: Scene, cw: CloudWorld, events: seq<CloudEvent>, last: CloudWorld)
    requires TraceInv([], g.c, cw.w) && KeysNeverCollide(g.c.body) && Linked(g, cw) && ShownLeads(g, cw, events, last)
    ensures TraceInv([], g.c, last.w) && Linked(g, last)
    decreases |events|
  {
    if events == [] {
    } else {
      CloudStepTraces(g, cw, events[0]);
      CloudStepIsLinked(g, cw, events[0]);
      ShownTraces(g, CloudStep(g, cw, events[0]), events[1..], last);
    }
  }

  // ---- the theorem ----

  /** Crash-resume over a control plane, under any replies and crashes. If every step
      saved so far has been applied whenever a pass begins, every pass sees exactly the
      results of the executions made, none is made twice, a pass that finishes has seen
      all of them, and each is applied, journaled, or refused for good. */
  lemma ReplayLawOverTheCloud(g: Scene, s: CloudState, events: seq<CloudEvent>, last: CloudWorld)
    requires KeysNeverCollide(g.c.body) && g.c.inv == {}
    requires forall e :: !Accounted(s, Saving(g, e))
    requires ShownLeads(g, CloudWorld(World([], None), s), events, last)
    ensures forall key :: Executions(last.w.rows, key) <= 1
    ensures last.w.pass.Some? ==> last.w.pass.value.seen <= Results(last.w.rows)
    ensures Finished(g.c, last.w) ==> last.w.pass.value.seen == Results(last.w.rows)
    ensures BodyTrace(g.c.body, last.w.rows)
    ensures forall e :: e in last.w.rows <==> Accounted(last.s, Saving(g, e))
  {
    StartHolds([], g.c);
    ShownTraces(g, CloudWorld(World([], None), s), events, last);
    forall key
      ensures Executions(last.w.rows, key) <= 1
    {
      EachKeyOnce([], g.c, last.w, key);
    }
    if Finished(g.c, last.w) {
      FinishedSawAll(g.c, last.w, last.w.pass.value.seen);
    }
  }
}
