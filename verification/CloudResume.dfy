/** Passes over a control plane that may not show every execution yet: when a pass
    still finds all earlier work. Models hydration in src/papayya/durable/run.py. */
module CloudResume {
  import opened Types
  import opened Latest
  import opened Ledger
  import opened ItemSpec
  import opened Resume
  import opened CrashResume

  /** `rows` of the world are the executions made so far, in order. A pass begins from
      what the control plane shows at that moment. */
  datatype CloudEvent = Start(visible: seq<TaskEntry>, storedItemId: Option<string>, runItemId: Option<string>) | Go(ev: Event)

  ghost function CloudStep(c: Setting, w: World, e: CloudEvent): World
    requires Ordered(w)
  {
    match e
    case Start(visible, stored, run) =>
      if w.pass.Some? then w else World(w.rows, Some(Pass(Hydrated(visible, c.inv, stored, run), [], [])))
    case Go(ev) => if ev.Begin? then w else Step(c, w, ev)
  }

  lemma CloudStepIsOrdered(c: Setting, w: World, e: CloudEvent)
    requires Ordered(w)
    ensures Ordered(CloudStep(c, w, e))
  {
    if e.Start? {
      HydratedMeaning(e.visible, c.inv, e.storedItemId, e.runItemId);
    } else {
      StepIsOrdered(c, w, e.ev);
    }
  }

  /** Everything made is shown, in any order. */
  ghost predicate Drained(w: World, visible: seq<TaskEntry>) {
    SameElements(visible, w.rows)
  }

  /** The worlds `events` can lead to when the journal is drained before every pass. */
  ghost predicate DrainedLeads(c: Setting, w: World, events: seq<CloudEvent>, last: World)
    requires Ordered(w)
    ensures DrainedLeads(c, w, events, last) ==> Ordered(last)
    decreases |events|
  {
    if events == [] then last == w
    else
      CloudStepIsOrdered(c, w, events[0]);
      && (events[0].Start? ==> Drained(w, events[0].visible))
      && (events[0].Go? ==> Legal(w, events[0].ev))
      && DrainedLeads(c, CloudStep(c, w, events[0]), events[1..], last)
  }

  // ---- the order of the rows does not matter ----

  lemma OneRowOfAKey(rows: seq<TaskEntry>, a: TaskEntry, b: TaskEntry)
    requires a in rows && b in rows && a.key == b.key && Executions(rows, a.key) <= 1
    ensures a == b
  {
    var i :| 0 <= i < |rows| && rows[i] == a;
    var j :| 0 <= j < |rows| && rows[j] == b;
    OnlyRowWins(rows, i);
    OnlyRowWins(rows, j);
  }

  lemma SameWinner(xs: seq<TaskEntry>, ys: seq<TaskEntry>, key: string)
    requires SameElements(xs, ys) && Executions(ys, key) <= 1
    ensures Winner(xs, key) == Winner(ys, key)
  {
    forall a, b | OnTop(ys, a) && OnTop(ys, b) && a.key == key && b.key == key
      ensures a == b
    {
      OneRowOfAKey(ys, a, b);
    }
    SameElementsSameWinner(ys, xs, key);
  }

  lemma SameMaxAttempt(xs: seq<TaskEntry>, ys: seq<TaskEntry>, key: string)
    requires SameElements(xs, ys)
    ensures MaxAttempt(xs, key) == MaxAttempt(ys, key)
  {
    AttemptReached(xs, ys, key);
    AttemptReached(ys, xs, key);
  }

  lemma AttemptReached(xs: seq<TaskEntry>, ys: seq<TaskEntry>, key: string)
    requires SameElements(xs, ys)
    ensures MaxAttempt(xs, key) <= MaxAttempt(ys, key)
  {
    if MaxAttempt(xs, key) > 0 {
      var i :| 0 <= i < |xs| && xs[i].key == key && xs[i].attempt == MaxAttempt(xs, key);
      assert xs[i] in ys;
      var j :| 0 <= j < |ys| && ys[j] == xs[i];
    }
  }

  lemma ShownIsHydrated(inv: set<(string, int)>, rows: seq<TaskEntry>, visible: seq<TaskEntry>, p: Pass)
    requires SameElements(visible, rows) && PassInv(inv, visible, p)
    requires forall key :: Executions(rows, key) <= 1
    ensures PassInv(inv, rows, p)
  {
    forall k
      ensures Winner(visible, k) == Winner(rows, k) && MaxAttempt(visible, k) == MaxAttempt(rows, k)
    {
      SameWinner(visible, rows, k);
      SameMaxAttempt(visible, rows, k);
    }
  }

  lemma StartTraces(c: Setting, w: World, visible: seq<TaskEntry>, stored: Option<string>, run: Option<string>)
    requires TraceInv([], c, w) && Drained(w, visible)
    ensures TraceInv([], c, World(w.rows, Some(Pass(Hydrated(visible, c.inv, stored, run), [], []))))
  {
    forall key
      ensures Executions(w.rows, key) <= 1
    {
      EachKeyOnce([], c, w, key);
    }
    forall i | 0 <= i < |visible|
      ensures Stamped(visible[i])
    {
      assert visible[i] in w.rows;
    }
    BeginKeeps(c.inv, visible, stored, run);
    ShownIsHydrated(c.inv, w.rows, visible, Pass(Hydrated(visible, c.inv, stored, run), [], []));
  }

  lemma CloudStepTraces(c: Setting, w: World, e: CloudEvent)
    requires TraceInv([], c, w) && KeysNeverCollide(c.body)
    requires (e.Start? ==> Drained(w, e.visible)) && (e.Go? ==> Legal(w, e.ev))
    ensures TraceInv([], c, CloudStep(c, w, e)) && w.rows <= CloudStep(c, w, e).rows
  {
    if e.Start? {
      StartTraces(c, w, e.visible, e.storedItemId, e.runItemId);
    } else if e.ev.Advance? && w.pass.Some? && c.body(w.pass.value.seen).Call? {
      AdvanceTraces([], c, w, e.ev.x, e.ev.retryCount);
      GrowsOnly(c, w, e.ev.x, e.ev.retryCount);
    }
  }

  lemma {:induction false} DrainedTraces(c: Setting, w: World, events: seq<CloudEvent>, last: World)
    requires TraceInv([], c, w) && KeysNeverCollide(c.body) && DrainedLeads(c, w, events, last)
    ensures TraceInv([], c, last) && w.rows <= last.rows
    decreases |events|
  {
    if events == [] {
    } else {
      CloudStepTraces(c, w, events[0]);
      DrainedTraces(c, CloudStep(c, w, events[0]), events[1..], last);
    }
  }

  // ---- the theorems ----

  /** Crash-resume over outages. If the journal is drained before each pass begins, every
      pass sees exactly the results of the executions made, whatever their rows' order at
      the control plane; none is made twice; and a pass that finishes has seen all. */
  lemma DrainedPassesFindEverything(c: Setting, events: seq<CloudEvent>, last: World)
    requires KeysNeverCollide(c.body) && c.inv == {}
    requires DrainedLeads(c, World([], None), events, last)
    ensures forall key :: Executions(last.rows, key) <= 1
    ensures last.pass.Some? ==> last.pass.value.seen <= Results(last.rows)
    ensures Finished(c, last) ==> last.pass.value.seen == Results(last.rows)
    ensures BodyTrace(c.body, last.rows)
  {
    StartHolds([], c);
    DrainedTraces(c, World([], None), events, last);
    forall key
      ensures Executions(last.rows, key) <= 1
    {
      EachKeyOnce([], c, last, key);
    }
    if Finished(c, last) {
      FinishedSawAll(c, last, last.pass.value.seen);
    }
  }

  /** A pass that began from what was shown, and has come to the call of row `i`. */
  ghost predicate AtCall(c: Setting, w: World, visible: seq<TaskEntry>, p: Pass, i: nat) {
    && TraceInv([], c, w) && i < |w.rows|
    && (forall e :: e in visible ==> e in w.rows)
    && PassInv(c.inv, visible, p) && p.seen == Results(w.rows)[..i] && p.calls == Names(c.body, p.seen)
  }

  /** Whether the journal was drained is the exact condition, call by call: the call of
      an execution made before is answered, by its own row, if and only if that row is
      shown. A row still in the journal is an execution that will be made again. */
  lemma AnsweredIffShown(c: Setting, w: World, visible: seq<TaskEntry>, p: Pass, i: nat)
    requires AtCall(c, w, visible, p, i)
    ensures c.body(p.seen).Call?
    ensures var d := Decide(p.item, c.body(p.seen).name, c.body(p.seen).explicit);
            && (d.Hit? <==> w.rows[i] in visible)
            && (d.Hit? ==> d.entry.result == w.rows[i].result)
  {
    var all, row := Results(w.rows), w.rows[i];
    NamesPrefix(c.body, all, i);
    var key := NextKey(p.item, c.body(p.seen).name);
    assert key == row.key;
    CallOutcome(c.inv, visible, p, c.body(p.seen).name, c.body(p.seen).explicit);
    EachKeyOnce([], c, w, key);
    ShownRow(w.rows, visible, i);
  }

  lemma ShownRow(rows: seq<TaskEntry>, visible: seq<TaskEntry>, i: nat)
    requires i < |rows| && Executions(rows, rows[i].key) <= 1 && forall e :: e in visible ==> e in rows
    ensures Stands(visible, {}, rows[i].key) <==> rows[i] in visible
    ensures rows[i] in visible ==> Winner(visible, rows[i].key) == Some(rows[i])
  {
    if Has(visible, rows[i].key) {
      OneRowOfAKey(rows, Winner(visible, rows[i].key).value, rows[i]);
    }
    if rows[i] in visible {
      var j :| 0 <= j < |visible| && visible[j] == rows[i];
    }
  }
}
