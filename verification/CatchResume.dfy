/** Bodies that catch the exception of a step and go on: exactly when they can still be
    replayed. Models the failure path of a call in src/papayya/durable/run.py, which
    consumes an occurrence and stores nothing, over many passes. */
module CatchResume {
  import opened Types
  import opened Labels
  import opened Latest
  import opened ItemSpec
  import opened Ledger
  import opened Resume
  import opened CrashResume

  /** How a call ended for the body. */
  datatype Out = Got(value: Value) | Threw

  type CatchingBody = seq<Out> -> Act

  /** A body, and whether the store keeps retry counts. */
  datatype Catching = Catching(body: CatchingBody, keepsRetries: bool)

  function Gots(values: seq<Value>): seq<Out> {
    seq(|values|, i requires 0 <= i < |values| => Got(values[i]))
  }

  /** The results among them, in order. */
  function Values(outs: seq<Out>): seq<Value> {
    if outs == [] then []
    else
      var init, last := Values(outs[..|outs| - 1]), outs[|outs| - 1];
      if last.Got? then init + [last.value] else init
  }

  /** The same body, as far as nothing is thrown. */
  function Quiet(g: Catching): Setting {
    Setting((seen: seq<Value>) => g.body(Gots(seen)), {}, g.keepsRetries)
  }

  /** The world of a pass, and how its calls ended; `w` notes any value for a call that
      threw. */
  datatype CatchWorld = CatchWorld(w: World, outs: seq<Out>)

  /** A pass begins; it makes its next call, whose function, if it runs, returns or throws;
      or its process dies. */
  datatype CatchEvent =
    | Start(storedItemId: Option<string>, runItemId: Option<string>)
    | Run(ran: Option<Execution>, retryCount: nat)
    | Die

  ghost function CatchCall(g: Catching, cw: CatchWorld, name: string, explicit: Option<string>, ran: Option<Execution>, retryCount: nat): CatchWorld
    requires Ordered(cw.w) && cw.w.pass.Some?
  {
    var p, d := cw.w.pass.value, Decide(cw.w.pass.value.item, name, explicit);
    if d.Hit? then
      CatchWorld(Advanced(Quiet(g), cw.w, name, explicit, Returning(d.entry.result), retryCount), cw.outs + [Got(d.entry.result)])
    else if ran.Some? then
      CatchWorld(Advanced(Quiet(g), cw.w, name, explicit, ran.value, retryCount), cw.outs + [Got(ran.value.result)])
    else
      CatchWorld(World(cw.w.rows, Some(Pass(Called(p.item, name, explicit), p.calls + [name], p.seen + [Value(0, Null)]))), cw.outs + [Threw])
  }

  ghost function CatchStep(g: Catching, cw: CatchWorld, e: CatchEvent): CatchWorld
    requires Ordered(cw.w)
  {
    match e
    case Start(stored, run) =>
      if cw.w.pass.Some? then cw else CatchWorld(World(cw.w.rows, Some(Pass(Hydrated(cw.w.rows, {}, stored, run), [], []))), [])
    case Run(ran, retryCount) =>
      if cw.w.pass.None? || g.body(cw.outs).Done? then cw
      else CatchCall(g, cw, g.body(cw.outs).name, g.body(cw.outs).explicit, ran, retryCount)
    case Die => CatchWorld(World(cw.w.rows, None), [])
  }

  lemma AdvancedIsOrdered(c: Setting, w: World, name: string, explicit: Option<string>, x: Execution, retryCount: nat)
    requires Ordered(w) && w.pass.Some?
    ensures Ordered(Advanced(c, w, name, explicit, x, retryCount))
  {
    var p := w.pass.value;
    var called := Called(p.item, name, explicit);
    RecordedIsOrdered(called, EntryFor(called, NextKey(p.item, name), EffectiveItemId(p.item, explicit), x, retryCount));
  }

  lemma CatchCallIsOrdered(g: Catching, cw: CatchWorld, name: string, explicit: Option<string>, ran: Option<Execution>, retryCount: nat)
    requires Ordered(cw.w) && cw.w.pass.Some?
    ensures Ordered(CatchCall(g, cw, name, explicit, ran, retryCount).w)
  {
    var d := Decide(cw.w.pass.value.item, name, explicit);
    if d.Hit? {
      AdvancedIsOrdered(Quiet(g), cw.w, name, explicit, Returning(d.entry.result), retryCount);
    } else if ran.Some? {
      AdvancedIsOrdered(Quiet(g), cw.w, name, explicit, ran.value, retryCount);
    }
  }

  lemma CatchStepIsOrdered(g: Catching, cw: CatchWorld, e: CatchEvent)
    requires Ordered(cw.w)
    ensures Ordered(CatchStep(g, cw, e).w)
  {
    match e {
      case Start(stored, run) => HydratedMeaning(cw.w.rows, {}, stored, run);
      case Run(ran, retryCount) =>
        if cw.w.pass.Some? && g.body(cw.outs).Call? {
          CatchCallIsOrdered(g, cw, g.body(cw.outs).name, g.body(cw.outs).explicit, ran, retryCount);
        }
      case Die =>
    }
  }

  ghost predicate CatchLegal(w: World, e: CatchEvent) {
    e.Run? && e.ran.Some? ==> Fresh(w.rows, e.ran.value.uuid)
  }

  ghost predicate CatchLeads(g: Catching, cw: CatchWorld, events: seq<CatchEvent>, last: CatchWorld)
    requires Ordered(cw.w)
    ensures CatchLeads(g, cw, events, last) ==> Ordered(last.w)
    decreases |events|
  {
    if events == [] then last == cw
    else
      CatchStepIsOrdered(g, cw, events[0]);
      CatchLegal(cw.w, events[0]) && CatchLeads(g, CatchStep(g, cw, events[0]), events[1..], last)
  }

  // ---- what a body calls ----

  /** The body makes a call after each proper prefix of `outs`. */
  ghost predicate CallsAlong(body: CatchingBody, outs: seq<Out>) {
    forall i :: 0 <= i < |outs| ==> body(outs[..i]).Call?
  }

  /** The labels of those calls. */
  function LabelsOf(body: CatchingBody, outs: seq<Out>): (names: seq<string>)
    ensures |names| == |outs|
  {
    seq(|outs|, i requires 0 <= i < |outs| => if body(outs[..i]).Call? then body(outs[..i]).name else "")
  }

  lemma LabelsNext(body: CatchingBody, outs: seq<Out>, o: Out)
    requires body(outs).Call? && CallsAlong(body, outs)
    ensures LabelsOf(body, outs + [o]) == LabelsOf(body, outs) + [body(outs).name] && CallsAlong(body, outs + [o])
  {
    var more := outs + [o];
    forall i | 0 <= i < |more|
      ensures more[..i] == if i < |outs| then outs[..i] else outs
    {
    }
  }

  /** The key its next call gets. */
  function KeyNext(body: CatchingBody, outs: seq<Out>): string
    requires body(outs).Call?
  {
    Key(body(outs).name, Count(LabelsOf(body, outs), body(outs).name) + 1)
  }

  lemma KeyAtIsKeyNext(body: CatchingBody, outs: seq<Out>, i: nat)
    requires i < |outs| && CallsAlong(body, outs)
    ensures KeyAt(LabelsOf(body, outs), i) == KeyNext(body, outs[..i])
  {
    forall k | 0 <= k < i
      ensures outs[..i][..k] == outs[..k]
    {
    }
    assert LabelsOf(body, outs)[..i] == LabelsOf(body, outs[..i]);
  }

  /** Along no trace do two calls of the body get the same key. */
  ghost predicate CatchKeysNeverCollide(body: CatchingBody) {
    forall outs :: CallsAlong(body, outs) ==> DistinctKeys(LabelsOf(body, outs))
  }

  lemma NextKeyDiffers(body: CatchingBody, outs: seq<Out>, i: nat)
    requires CatchKeysNeverCollide(body) && CallsAlong(body, outs) && body(outs).Call? && i < |outs|
    ensures body(outs[..i]).Call? && KeyNext(body, outs[..i]) != KeyNext(body, outs)
  {
    var more := outs + [Threw];
    LabelsNext(body, outs, Threw);
    assert more[..i] == outs[..i] && more[..|outs|] == outs;
    KeyAtIsKeyNext(body, more, i);
    KeyAtIsKeyNext(body, more, |outs|);
    assert KeyAt(LabelsOf(body, more), i) != KeyAt(LabelsOf(body, more), |outs|);
  }

  /** Labels without a digit tail never collide, whatever is thrown. */
  lemma {:induction false} PlainCatchingNeverCollides(body: CatchingBody)
    requires forall outs :: body(outs).Call? ==> !HasDigitTail(body(outs).name)
    ensures CatchKeysNeverCollide(body)
  {
    forall outs | CallsAlong(body, outs)
      ensures DistinctKeys(LabelsOf(body, outs))
    {
      PlainNamesHaveDistinctKeys(LabelsOf(body, outs));
    }
  }

  // ---- one call ----

  ghost predicate CatchInv(g: Catching, cw: CatchWorld) {
    && Inv([], Quiet(g), cw.w)
    && (cw.w.pass.Some? ==> cw.w.pass.value.calls == LabelsOf(g.body, cw.outs) && CallsAlong(g.body, cw.outs))
  }

  /** A pass at a call. */
  ghost predicate AtCall(g: Catching, cw: CatchWorld) {
    CatchInv(g, cw) && cw.w.pass.Some? && g.body(cw.outs).Call?
  }

  lemma Decided(g: Catching, cw: CatchWorld)
    requires AtCall(g, cw)
    ensures var d := Decide(cw.w.pass.value.item, g.body(cw.outs).name, g.body(cw.outs).explicit);
            && NextKey(cw.w.pass.value.item, g.body(cw.outs).name) == KeyNext(g.body, cw.outs)
            && (d.Hit? <==> Has(cw.w.rows, KeyNext(g.body, cw.outs)))
            && (d.Hit? ==> d.entry.result == Winner(cw.w.rows, KeyNext(g.body, cw.outs)).value.result)
  {
    CallOutcome({}, cw.w.rows, cw.w.pass.value, g.body(cw.outs).name, g.body(cw.outs).explicit);
  }

  lemma CallAnswers(g: Catching, cw: CatchWorld, ran: Option<Execution>, retryCount: nat)
    requires AtCall(g, cw) && Has(cw.w.rows, KeyNext(g.body, cw.outs))
    ensures var cw' := CatchStep(g, cw, Run(ran, retryCount));
            && CatchInv(g, cw') && cw'.w.pass.Some? && cw'.w.rows == cw.w.rows
            && cw'.outs == cw.outs + [Got(Winner(cw.w.rows, KeyNext(g.body, cw.outs)).value.result)]
  {
    Decided(g, cw);
    var name, explicit := g.body(cw.outs).name, g.body(cw.outs).explicit;
    var v := Decide(cw.w.pass.value.item, name, explicit).entry.result;
    SimpleTokenFresh(Quiet(g), cw.w);
    AdvanceKeeps([], Quiet(g), cw.w, name, explicit, Returning(v), retryCount);
    LabelsNext(g.body, cw.outs, Got(v));
  }

  lemma CallExecutes(g: Catching, cw: CatchWorld, x: Execution, retryCount: nat) returns (row: TaskEntry)
    requires AtCall(g, cw) && !Has(cw.w.rows, KeyNext(g.body, cw.outs)) && Fresh(cw.w.rows, x.uuid)
    ensures var cw' := CatchStep(g, cw, Run(Some(x), retryCount));
            && CatchInv(g, cw') && cw'.w.pass.Some? && cw'.w.rows == cw.w.rows + [row]
            && cw'.outs == cw.outs + [Got(x.result)]
    ensures row.key == KeyNext(g.body, cw.outs) && row.result == x.result
  {
    Decided(g, cw);
    var name, explicit := g.body(cw.outs).name, g.body(cw.outs).explicit;
    ExecutionAppends([], Quiet(g), cw.w, name, explicit, x, retryCount);
    ExecutionKeeps([], Quiet(g), cw.w, name, explicit, x, retryCount);
    row := RowFor(Quiet(g), cw.w, name, explicit, x, retryCount);
    LabelsNext(g.body, cw.outs, Got(x.result));
  }

  lemma CallThrows(g: Catching, cw: CatchWorld, retryCount: nat)
    requires AtCall(g, cw) && !Has(cw.w.rows, KeyNext(g.body, cw.outs))
    ensures var cw' := CatchStep(g, cw, Run(None, retryCount));
            && CatchInv(g, cw') && cw'.w.pass.Some? && cw'.w.rows == cw.w.rows && cw'.outs == cw.outs + [Threw]
  {
    Decided(g, cw);
    var p, name := cw.w.pass.value, g.body(cw.outs).name;
    CallCounts(p.calls, p.item.occurrences, name);
    LabelsNext(g.body, cw.outs, Threw);
  }

  lemma PassStarts(g: Catching, cw: CatchWorld, stored: Option<string>, run: Option<string>)
    requires CatchInv(g, cw) && cw.w.pass.None?
    ensures var cw' := CatchStep(g, cw, Start(stored, run));
            CatchInv(g, cw') && cw'.w.pass.Some? && cw'.w.rows == cw.w.rows && cw'.outs == []
  {
    BeginKeeps({}, cw.w.rows, stored, run);
  }

  // ---- the law ----

  function Nothing(): CatchWorld {
    CatchWorld(World([], None), [])
  }

  ghost predicate Reachable(g: Catching, cw: CatchWorld) {
    exists events :: CatchLeads(g, Nothing(), events, cw)
  }

  lemma {:induction false} CatchLeadsThen(g: Catching, cw: CatchWorld, events: seq<CatchEvent>, mid: CatchWorld, e: CatchEvent)
    requires Ordered(cw.w) && CatchLeads(g, cw, events, mid) && CatchLegal(mid.w, e)
    ensures CatchLeads(g, cw, events + [e], CatchStep(g, mid, e))
    decreases |events|
  {
    if events == [] {
      CatchStepIsOrdered(g, cw, e);
      assert CatchLeads(g, CatchStep(g, cw, e), [], CatchStep(g, mid, e));
      assert (events + [e])[1..] == [];
    } else {
      CatchStepIsOrdered(g, cw, events[0]);
      CatchLeadsThen(g, CatchStep(g, cw, events[0]), events[1..], mid, e);
      assert (events + [e])[1..] == events[1..] + [e];
    }
  }

  lemma StepIsReachable(g: Catching, cw: CatchWorld, e: CatchEvent)
    requires Reachable(g, cw) && Ordered(cw.w) && CatchLegal(cw.w, e)
    ensures Reachable(g, CatchStep(g, cw, e))
  {
    var events :| CatchLeads(g, Nothing(), events, cw);
    CatchLeadsThen(g, Nothing(), events, cw, e);
  }

  lemma NothingIsReachable(g: Catching)
    ensures Reachable(g, Nothing()) && CatchInv(g, Nothing())
  {
    assert CatchLeads(g, Nothing(), [], Nothing());
    StartHolds([], Quiet(g));
  }

  /** The replay law: the results of every pass are the stored ones, from the first on. */
  ghost predicate EveryResultIsStored(g: Catching) {
    forall cw :: Reachable(g, cw) && cw.w.pass.Some? ==> Values(cw.outs) <= Results(cw.w.rows)
  }

  /** The body makes no call after one that threw. */
  ghost predicate StopsAtThrow(body: CatchingBody) {
    forall values :: CallsAlong(body, Gots(values) + [Threw]) ==> body(Gots(values) + [Threw]).Done?
  }

  // ---- a body that goes on breaks it ----

  lemma Answered(g: Catching, cw: CatchWorld, row: TaskEntry)
    requires Reachable(g, cw) && AtCall(g, cw) && row in cw.w.rows && row.key == KeyNext(g.body, cw.outs)
    ensures var cw' := CatchStep(g, cw, Run(None, 0));
            Reachable(g, cw') && CatchInv(g, cw') && cw'.w.pass.Some? && cw'.w.rows == cw.w.rows && cw'.outs == cw.outs + [Got(row.result)]
  {
    var k :| 0 <= k < |cw.w.rows| && cw.w.rows[k] == row;
    EachKeyOnce([], Quiet(g), cw.w, row.key);
    OnlyRowWins(cw.w.rows, k);
    CallAnswers(g, cw, None, 0);
    StepIsReachable(g, cw, Run(None, 0));
  }

  lemma Executed(g: Catching, cw: CatchWorld, v: Value) returns (row: TaskEntry)
    requires Reachable(g, cw) && AtCall(g, cw) && !Has(cw.w.rows, KeyNext(g.body, cw.outs))
    ensures var cw' := CatchStep(g, cw, Run(Some(Returning(v)), 0));
            && Reachable(g, cw') && CatchInv(g, cw') && cw'.w.pass.Some?
            && cw'.w.rows == cw.w.rows + [row] && cw'.outs == cw.outs + [Got(v)]
    ensures row.key == KeyNext(g.body, cw.outs) && row.result == v
  {
    SimpleTokenFresh(Quiet(g), cw.w);
    row := CallExecutes(g, cw, Returning(v), 0);
    StepIsReachable(g, cw, Run(Some(Returning(v)), 0));
  }

  lemma Thrown(g: Catching, cw: CatchWorld)
    requires Reachable(g, cw) && AtCall(g, cw) && !Has(cw.w.rows, KeyNext(g.body, cw.outs))
    ensures var cw' := CatchStep(g, cw, Run(None, 0));
            Reachable(g, cw') && CatchInv(g, cw') && cw'.w.pass.Some? && cw'.w.rows == cw.w.rows && cw'.outs == cw.outs + [Threw]
  {
    CallThrows(g, cw, 0);
    StepIsReachable(g, cw, Run(None, 0));
  }

  lemma Restarted(g: Catching, cw: CatchWorld) returns (cw': CatchWorld)
    requires Reachable(g, cw) && CatchInv(g, cw)
    ensures Reachable(g, cw') && CatchInv(g, cw') && cw'.w.pass.Some? && cw'.w.rows == cw.w.rows && cw'.outs == []
  {
    var dead := CatchStep(g, cw, Die);
    StepIsReachable(g, cw, Die);
    PassStarts(g, dead, None, None);
    StepIsReachable(g, dead, Start(None, None));
    cw' := CatchStep(g, dead, Start(None, None));
  }

  /** The rows of the calls along `outs`, as far as there are any, whose results were
      `values`. */
  ghost predicate RowsAlong(body: CatchingBody, outs: seq<Out>, values: seq<Value>, rows: seq<TaskEntry>)
    requires CallsAlong(body, outs)
  {
    && |values| <= |rows| && |values| <= |outs|
    && forall k :: 0 <= k < |values| ==> rows[k].key == KeyNext(body, outs[..k]) && rows[k].result == values[k]
  }

  lemma {:induction false} NewAlong(body: CatchingBody, outs: seq<Out>, values: seq<Value>, rows: seq<TaskEntry>)
    requires CatchKeysNeverCollide(body) && CallsAlong(body, outs) && body(outs).Call?
    requires RowsAlong(body, outs, values, rows) && |rows| == |values|
    ensures !Has(rows, KeyNext(body, outs))
  {
    forall k | 0 <= k < |rows|
      ensures rows[k].key != KeyNext(body, outs)
    {
      NextKeyDiffers(body, outs, k);
    }
  }

  lemma GotsNext(values: seq<Value>, i: nat)
    requires i < |values|
    ensures Gots(values[..i + 1]) == Gots(values[..i]) + [Got(values[i])]
    ensures Gots(values)[..i] == Gots(values[..i])
  {
  }

  lemma NewInFeed(body: CatchingBody, values: seq<Value>, i: nat, rows: seq<TaskEntry>)
    requires CatchKeysNeverCollide(body) && CallsAlong(body, Gots(values)) && i < |values| && |rows| == i
    requires RowsAlong(body, Gots(values), values[..i], rows)
    ensures body(Gots(values[..i])).Call? && !Has(rows, KeyNext(body, Gots(values[..i])))
  {
    var outs := Gots(values)[..i];
    GotsNext(values, i);
    assert body(outs).Call?;
    forall k | 0 <= k < i
      ensures outs[..k] == Gots(values)[..k]
    {
    }
    NewAlong(body, outs, values[..i], rows);
  }

  lemma FedOneMore(body: CatchingBody, values: seq<Value>, i: nat, rows: seq<TaskEntry>, row: TaskEntry)
    requires CallsAlong(body, Gots(values)) && i < |values| && |rows| == i
    requires RowsAlong(body, Gots(values), values[..i], rows)
    requires body(Gots(values[..i])).Call? && row.key == KeyNext(body, Gots(values[..i])) && row.result == values[i]
    ensures RowsAlong(body, Gots(values), values[..i + 1], rows + [row])
    ensures Gots(values[..i + 1]) == Gots(values[..i]) + [Got(values[i])]
  {
    GotsNext(values, i);
  }

  /** A first pass that has been given `values`. */
  lemma {:induction false} Feed(g: Catching, values: seq<Value>, i: nat) returns (cw: CatchWorld)
    requires CatchKeysNeverCollide(g.body) && CallsAlong(g.body, Gots(values)) && i <= |values|
    ensures Reachable(g, cw) && CatchInv(g, cw) && cw.w.pass.Some?
    ensures cw.outs == Gots(values[..i]) && |cw.w.rows| == i
    ensures RowsAlong(g.body, Gots(values), values[..i], cw.w.rows)
  {
    if i == 0 {
      NothingIsReachable(g);
      cw := Restarted(g, Nothing());
    } else {
      var before := Feed(g, values, i - 1);
      NewInFeed(g.body, values, i - 1, before.w.rows);
      var row := Executed(g, before, values[i - 1]);
      cw := CatchStep(g, before, Run(Some(Returning(values[i - 1])), 0));
      FedOneMore(g.body, values, i - 1, before.w.rows, row);
    }
  }

  /** A later pass over those rows is answered by them. */
  lemma {:induction false} Replay(g: Catching, start: CatchWorld, values: seq<Value>, i: nat) returns (cw: CatchWorld)
    requires Reachable(g, start) && CatchInv(g, start) && start.w.pass.Some? && start.outs == []
    requires CallsAlong(g.body, Gots(values)) && RowsAlong(g.body, Gots(values), values, start.w.rows) && i <= |values|
    ensures Reachable(g, cw) && CatchInv(g, cw) && cw.w.pass.Some?
    ensures cw.outs == Gots(values[..i]) && cw.w.rows == start.w.rows
  {
    if i == 0 {
      cw := start;
    } else {
      var before := Replay(g, start, values, i - 1);
      GotsNext(values, i - 1);
      assert g.body(Gots(values)[..i - 1]).Call?;
      Answered(g, before, start.w.rows[i - 1]);
      cw := CatchStep(g, before, Run(None, 0));
    }
  }

  lemma {:induction false} ValuesOfGots(values: seq<Value>)
    ensures Values(Gots(values)) == values
  {
    if values == [] {
    } else {
      ValuesOfGots(values[..|values| - 1]);
      assert Gots(values)[..|values| - 1] == Gots(values[..|values| - 1]);
    }
  }

  /** The trace that goes on after `values` and a call that threw. */
  ghost predicate GoesOn(body: CatchingBody, values: seq<Value>) {
    CallsAlong(body, Gots(values) + [Threw]) && body(Gots(values) + [Threw]).Call?
  }

  lemma Prefixes(body: CatchingBody, values: seq<Value>, rows: seq<TaskEntry>)
    requires GoesOn(body, values)
    ensures CallsAlong(body, Gots(values)) && body(Gots(values)).Call?
    ensures RowsAlong(body, Gots(values), values, rows) <==> RowsAlong(body, Gots(values) + [Threw], values, rows)
  {
    var outs, thrown := Gots(values), Gots(values) + [Threw];
    assert thrown[..|outs|] == outs;
    forall k | 0 <= k < |outs|
      ensures thrown[..k] == outs[..k]
    {
    }
  }

  /** A first pass is given `values`, its next call throws, and the call it goes on to is
      stored; then its process dies, and another pass begins. */
  lemma FallbackStored(g: Catching, values: seq<Value>) returns (cw: CatchWorld)
    requires CatchKeysNeverCollide(g.body) && GoesOn(g.body, values)
    ensures CallsAlong(g.body, Gots(values))
    ensures Reachable(g, cw) && CatchInv(g, cw) && cw.w.pass.Some? && cw.outs == []
    ensures |cw.w.rows| == |values| + 1 && RowsAlong(g.body, Gots(values), values, cw.w.rows)
    ensures cw.w.rows[|values|].key == KeyNext(g.body, Gots(values) + [Threw]) && cw.w.rows[|values|].result == Value(0, Null)
  {
    Prefixes(g.body, values, []);
    var fed := Feed(g, values, |values|);
    assert values[..|values|] == values;
    NewAlong(g.body, Gots(values), values, fed.w.rows);
    Thrown(g, fed);
    var thrown := CatchStep(g, fed, Run(None, 0));
    Prefixes(g.body, values, fed.w.rows);
    NewAlong(g.body, thrown.outs, values, thrown.w.rows);
    var row := Executed(g, thrown, Value(0, Null));
    cw := Restarted(g, CatchStep(g, thrown, Run(Some(Returning(Value(0, Null))), 0)));
  }

  /** That pass comes to the call that threw; now it returns, and the stored call is not
      its next one. */
  lemma GoingOnBreaks(g: Catching, values: seq<Value>)
    requires CatchKeysNeverCollide(g.body) && GoesOn(g.body, values)
    ensures !EveryResultIsStored(g)
  {
    var start := FallbackStored(g, values);
    var v := Value(1, Null);
    var at := Replay(g, start, values, |values|);
    assert values[..|values|] == values;
    Prefixes(g.body, values, []);
    NextKeyIsNewAgain(g.body, values, at.w.rows);
    var row := Executed(g, at, v);
    var last := CatchStep(g, at, Run(Some(Returning(v)), 0));
    ValuesOfGots(values);
    assert last.outs[..|values|] == Gots(values);
    assert Values(last.outs)[|values|] == v && Results(last.w.rows)[|values|] == Value(0, Null);
  }

  lemma NextKeyIsNewAgain(body: CatchingBody, values: seq<Value>, rows: seq<TaskEntry>)
    requires CatchKeysNeverCollide(body) && GoesOn(body, values) && CallsAlong(body, Gots(values)) && body(Gots(values)).Call?
    requires |rows| == |values| + 1 && RowsAlong(body, Gots(values), values, rows)
    requires rows[|values|].key == KeyNext(body, Gots(values) + [Threw])
    ensures !Has(rows, KeyNext(body, Gots(values)))
  {
    var init := rows[..|values|];
    NewAlong(body, Gots(values), values, init);
    NextKeyDiffers(body, Gots(values) + [Threw], |values|);
    assert (Gots(values) + [Threw])[..|values|] == Gots(values);
    assert rows == init + [rows[|values|]];
    HasAppend(init, rows[|values|], KeyNext(body, Gots(values)));
  }

  // ---- a body that stops keeps it ----

  lemma {:induction false} LabelsAreNames(g: Catching, results: seq<Value>)
    ensures LabelsOf(g.body, Gots(results)) == Names(Quiet(g).body, results)
  {
    if results == [] {
    } else {
      var init, n := results[..|results| - 1], |results| - 1;
      LabelsAreNames(g, init);
      assert Gots(results)[..n] == Gots(init);
      forall i | 0 <= i < n
        ensures Gots(results)[..i] == Gots(init)[..i]
      {
      }
    }
  }

  lemma {:induction false} QuietNeverCollides(g: Catching)
    requires CatchKeysNeverCollide(g.body)
    ensures KeysNeverCollide(Quiet(g).body)
  {
    forall results | AllCalls(Quiet(g).body, results)
      ensures DistinctKeys(Names(Quiet(g).body, results))
    {
      LabelsAreNames(g, results);
      forall i | 0 <= i < |results|
        ensures g.body(Gots(results)[..i]).Call?
      {
        assert Gots(results)[..i] == Gots(results[..i]);
        assert Quiet(g).body(results[..i]).Call?;
      }
    }
  }

  /** Nothing has been thrown in this pass. */
  ghost predicate Quietly(g: Catching, cw: CatchWorld) {
    TraceInv([], Quiet(g), cw.w) && (cw.w.pass.Some? ==> cw.outs == Gots(cw.w.pass.value.seen))
  }

  /** The pass is over, with nothing but stored results. */
  ghost predicate IsOver(g: Catching, cw: CatchWorld) {
    && TraceInv([], Quiet(g), World(cw.w.rows, None))
    && g.body(cw.outs).Done? && Values(cw.outs) <= Results(cw.w.rows)
  }

  lemma ThrowEndsIt(g: Catching, cw: CatchWorld)
    requires StopsAtThrow(g.body) && Quietly(g, cw) && cw.w.pass.Some? && g.body(cw.outs).Call?
    ensures g.body(cw.outs + [Threw]).Done? && Values(cw.outs + [Threw]) <= Results(cw.w.rows)
  {
    var seen, outs, all := cw.w.pass.value.seen, cw.outs + [Threw], Results(cw.w.rows);
    forall i | 0 <= i < |outs|
      ensures g.body(outs[..i]).Call?
    {
      if i < |seen| {
        assert outs[..i] == Gots(seen[..i]) && seen[..i] == all[..i];
        assert Quiet(g).body(all[..i]).Call?;
      } else {
        assert outs[..i] == cw.outs;
      }
    }
    ValuesOfGots(seen);
    assert outs[..|outs| - 1] == cw.outs;
  }

  /** What a call that returns brings along. */
  ghost function Returned(g: Catching, cw: CatchWorld, ran: Option<Execution>): Execution
    requires Ordered(cw.w) && cw.w.pass.Some? && g.body(cw.outs).Call?
    requires Decide(cw.w.pass.value.item, g.body(cw.outs).name, g.body(cw.outs).explicit).Hit? || ran.Some?
  {
    var d := Decide(cw.w.pass.value.item, g.body(cw.outs).name, g.body(cw.outs).explicit);
    if d.Hit? then Returning(d.entry.result) else ran.value
  }

  /** As long as nothing is thrown a step is one of the quiet body. */
  lemma ReturnIsQuietStep(g: Catching, cw: CatchWorld, ran: Option<Execution>, retryCount: nat)
    requires Ordered(cw.w) && cw.w.pass.Some? && g.body(cw.outs).Call? && cw.outs == Gots(cw.w.pass.value.seen)
    requires Decide(cw.w.pass.value.item, g.body(cw.outs).name, g.body(cw.outs).explicit).Hit? || ran.Some?
    ensures var x := Returned(g, cw, ran);
            var w' := Step(Quiet(g), cw.w, Advance(x, retryCount));
            && CatchStep(g, cw, Run(ran, retryCount)) == CatchWorld(w', cw.outs + [Got(x.result)])
            && w'.pass.Some? && w'.pass.value.seen == cw.w.pass.value.seen + [x.result]
  {
  }

  lemma GotsAppend(values: seq<Value>, v: Value)
    ensures Gots(values + [v]) == Gots(values) + [Got(v)]
  {
  }

  /** A call that does not throw leaves the pass quiet. */
  lemma QuietReturn(g: Catching, cw: CatchWorld, ran: Option<Execution>, retryCount: nat)
    requires KeysNeverCollide(Quiet(g).body) && Quietly(g, cw) && cw.w.pass.Some? && g.body(cw.outs).Call?
    requires CatchLegal(cw.w, Run(ran, retryCount))
    requires Decide(cw.w.pass.value.item, g.body(cw.outs).name, g.body(cw.outs).explicit).Hit? || ran.Some?
    ensures Quietly(g, CatchStep(g, cw, Run(ran, retryCount)))
  {
    var x := Returned(g, cw, ran);
    SimpleTokenFresh(Quiet(g), cw.w);
    AdvanceTraces([], Quiet(g), cw.w, x, retryCount);
    ReturnIsQuietStep(g, cw, ran, retryCount);
    GotsAppend(cw.w.pass.value.seen, x.result);
  }

  /** One that throws ends it. */
  lemma QuietThrow(g: Catching, cw: CatchWorld, retryCount: nat)
    requires StopsAtThrow(g.body) && Quietly(g, cw) && cw.w.pass.Some? && g.body(cw.outs).Call?
    requires Decide(cw.w.pass.value.item, g.body(cw.outs).name, g.body(cw.outs).explicit).Execute?
    ensures var cw' := CatchStep(g, cw, Run(None, retryCount)); cw'.w.pass.Some? && IsOver(g, cw')
  {
    ThrowEndsIt(g, cw);
  }

  /** In every world reached, a pass is quiet or over. */
  ghost predicate LawInv(g: Catching, cw: CatchWorld) {
    Quietly(g, cw) || (cw.w.pass.Some? && IsOver(g, cw))
  }

  lemma QuietRun(g: Catching, cw: CatchWorld, ran: Option<Execution>, retryCount: nat)
    requires StopsAtThrow(g.body) && KeysNeverCollide(Quiet(g).body)
    requires Quietly(g, cw) && cw.w.pass.Some? && g.body(cw.outs).Call? && CatchLegal(cw.w, Run(ran, retryCount))
    ensures LawInv(g, CatchStep(g, cw, Run(ran, retryCount)))
  {
    if Decide(cw.w.pass.value.item, g.body(cw.outs).name, g.body(cw.outs).explicit).Hit? || ran.Some? {
      QuietReturn(g, cw, ran, retryCount);
    } else {
      QuietThrow(g, cw, retryCount);
    }
  }

  lemma StepKeepsLaw(g: Catching, cw: CatchWorld, e: CatchEvent)
    requires StopsAtThrow(g.body) && KeysNeverCollide(Quiet(g).body) && Ordered(cw.w) && LawInv(g, cw) && CatchLegal(cw.w, e)
    ensures LawInv(g, CatchStep(g, cw, e))
  {
    match e {
      case Start(stored, run) =>
        if cw.w.pass.None? {
          RestartTraces(Quiet(g), cw.w.rows, stored, run);
        }
      case Run(ran, retryCount) =>
        if cw.w.pass.Some? && g.body(cw.outs).Call? {
          QuietRun(g, cw, ran, retryCount);
        }
      case Die =>
    }
  }

  lemma {:induction false} LeadsKeepLaw(g: Catching, cw: CatchWorld, events: seq<CatchEvent>, last: CatchWorld)
    requires StopsAtThrow(g.body) && KeysNeverCollide(Quiet(g).body) && Ordered(cw.w) && LawInv(g, cw)
    requires CatchLeads(g, cw, events, last)
    ensures LawInv(g, last)
    decreases |events|
  {
    if events == [] {
    } else {
      CatchStepIsOrdered(g, cw, events[0]);
      StepKeepsLaw(g, cw, events[0]);
      LeadsKeepLaw(g, CatchStep(g, cw, events[0]), events[1..], last);
    }
  }

  lemma StoppingKeeps(g: Catching, cw: CatchWorld)
    requires CatchKeysNeverCollide(g.body) && StopsAtThrow(g.body) && Reachable(g, cw) && cw.w.pass.Some?
    ensures Values(cw.outs) <= Results(cw.w.rows)
  {
    var events :| CatchLeads(g, Nothing(), events, cw);
    QuietNeverCollides(g);
    StartHolds([], Quiet(g));
    LeadsKeepLaw(g, Nothing(), events, cw);
    ValuesOfGots(cw.w.pass.value.seen);
  }

  /** The replay law for bodies that may catch: given that keys never collide, every pass
      sees the stored results, from the first on, exactly when the body makes no call
      after one that threw. One that goes on stores a call that no later pass reaches, as
      soon as the step that threw returns. */
  lemma LawSurvivesIffItStops(g: Catching)
    requires CatchKeysNeverCollide(g.body)
    ensures EveryResultIsStored(g) <==> StopsAtThrow(g.body)
  {
    if StopsAtThrow(g.body) {
      forall cw | Reachable(g, cw) && cw.w.pass.Some?
        ensures Values(cw.outs) <= Results(cw.w.rows)
      {
        StoppingKeeps(g, cw);
      }
    } else {
      var values :| CallsAlong(g.body, Gots(values) + [Threw]) && !g.body(Gots(values) + [Threw]).Done?;
      GoingOnBreaks(g, values);
    }
  }
}
