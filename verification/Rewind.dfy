/** Replaying a run from a chosen step: a new run whose cache is seeded with the
    steps before it. Models `_resolve_from_step` and the hydration of `replay` in
    src/papayya/durable/_replay.py. */
module Rewind {
  import opened Types
  import opened Labels
  import opened Latest
  import opened ItemSpec
  import opened Ledger
  import opened Resume
  import opened CrashResume

  /** A step is named by its label or by its 1-based number. */
  datatype FromStep = ByLabel(name: string) | ByNumber(n: int) | Unusable

  /** How many recorded steps to seed; none when the request is refused. */
  function ResolveFromStep(from: FromStep, tasks: seq<TaskEntry>): (prefix: Option<nat>)
    ensures prefix.Some? ==> prefix.value <= |tasks|
    ensures prefix.None? <==> from.Unusable? || (from.ByNumber? && !(1 <= from.n <= |tasks| + 1))
    ensures from.ByLabel? && prefix.value < |tasks| ==> tasks[prefix.value].key == from.name
    ensures from.ByLabel? ==> forall i :: 0 <= i < prefix.value ==> tasks[i].key != from.name
    ensures from.ByNumber? && prefix.Some? ==> prefix.value + 1 == from.n
  {
    match from
    case ByLabel(name) => Some(FirstWith(tasks, name, 0))
    case ByNumber(n) => if 1 <= n <= |tasks| + 1 then Some(n - 1) else None
    case Unusable => None
  }

  /** The first position at or after `i` with the label, or the length. */
  function FirstWith(tasks: seq<TaskEntry>, name: string, i: nat): (p: nat)
    requires i <= |tasks|
    ensures i <= p <= |tasks|
    ensures forall j :: i <= j < p ==> tasks[j].key != name
    ensures p < |tasks| ==> tasks[p].key == name
    decreases |tasks| - i
  {
    if i == |tasks| || tasks[i].key == name then i else FirstWith(tasks, name, i + 1)
  }

  /** The replaying run: its own rows start empty, its cache with the prefix. */
  function Seeded(prefix: seq<TaskEntry>, runItemId: Option<string>): World {
    World([], Some(Pass(Hydrated(prefix, {}, runItemId, runItemId), [], [])))
  }

  /** The calls of one replaying pass; random tokens are new to both runs. */
  ghost predicate Replays(c: Setting, prefix: seq<TaskEntry>, w: World, calls: seq<(Execution, nat)>, last: World)
    requires Ordered(w)
    ensures Replays(c, prefix, w, calls, last) ==> Ordered(last)
    decreases |calls|
  {
    if calls == [] then last == w
    else
      var ev := Advance(calls[0].0, calls[0].1);
      StepIsOrdered(c, w, ev);
      Fresh(prefix + w.rows, ev.x.uuid) && Replays(c, prefix, Step(c, w, ev), calls[1..], last)
  }

  /** The same world with the prefix in the ledger. */
  function Over(prefix: seq<TaskEntry>, w: World): World {
    World(prefix + w.rows, w.pass)
  }

  /** Only the rows of the steps the pass went past are in the new run. */
  ghost predicate OnlyReexecuted(prefix: seq<TaskEntry>, w: World) {
    && w.pass.Some?
    && |w.rows| == if |w.pass.value.seen| > |prefix| then |w.pass.value.seen| - |prefix| else 0
  }

  ghost predicate RewindInv(c: Setting, prefix: seq<TaskEntry>, w: World) {
    && TraceInv(prefix, c, Over(prefix, w))
    && OnlyReexecuted(prefix, w)
  }

  /** A step of the replaying run is a step of a run that has the prefix in its own
      ledger, except that the prefix is not written. */
  lemma {:induction false} StepOver(c: Setting, prefix: seq<TaskEntry>, w: World, x: Execution, retryCount: nat)
    requires RewindInv(c, prefix, w) && c.body(w.pass.value.seen).Call? && KeysNeverCollide(c.body)
    requires Fresh(prefix + w.rows, x.uuid) && Ordered(w)
    ensures RewindInv(c, prefix, Step(c, w, Advance(x, retryCount)))
  {
    var v := Over(prefix, w);
    var p := w.pass.value;
    AdvanceTraces(prefix, c, v, x, retryCount);
    CallOutcome(c.inv, v.rows, p, c.body(p.seen).name, c.body(p.seen).explicit);
    if |p.seen| < |v.rows| {
      NextKeyHasRow(prefix, c, v);
      AnsweredOver(c, prefix, w, x, retryCount);
    } else {
      NextKeyIsNew(prefix, c, v);
      ExecutedOver(c, prefix, w, x, retryCount);
    }
  }

  lemma AnsweredOver(c: Setting, prefix: seq<TaskEntry>, w: World, x: Execution, retryCount: nat)
    requires Ordered(w) && w.pass.Some? && c.body(w.pass.value.seen).Call?
    requires Decide(w.pass.value.item, c.body(w.pass.value.seen).name, c.body(w.pass.value.seen).explicit).Hit?
    ensures var w' := Step(c, w, Advance(x, retryCount));
            && w'.rows == w.rows && w'.pass.Some? && |w'.pass.value.seen| == |w.pass.value.seen| + 1
            && Step(c, Over(prefix, w), Advance(x, retryCount)) == Over(prefix, w')
  {
  }

  /** A row that is new to both runs is appended in both. */
  lemma AppendedOver(prefix: seq<TaskEntry>, rows: seq<TaskEntry>, row: TaskEntry)
    requires SaveRow(prefix + rows, row) == prefix + rows + [row]
    ensures SaveRow(rows, row) == rows + [row]
    ensures prefix + SaveRow(rows, row) == SaveRow(prefix + rows, row)
  {
    assert !Known(prefix + rows, row);
    forall i | 0 <= i < |rows|
      ensures IdentityOf(rows[i]) != IdentityOf(row)
    {
      assert (prefix + rows)[|prefix| + i] == rows[i];
    }
  }

  /** An execution over the prefix is the same execution with the prefix in front. */
  lemma AdvancedOver(c: Setting, prefix: seq<TaskEntry>, w: World, name: string, explicit: Option<string>, x: Execution, retryCount: nat)
    requires w.pass.Some? && Ordered(w) && Decide(w.pass.value.item, name, explicit).Execute?
    requires var row := RowFor(c, w, name, explicit, x, retryCount); prefix + SaveRow(w.rows, row) == SaveRow(prefix + w.rows, row)
    ensures Advanced(c, Over(prefix, w), name, explicit, x, retryCount) == Over(prefix, Advanced(c, w, name, explicit, x, retryCount))
  {
  }

  lemma ExecutedOver(c: Setting, prefix: seq<TaskEntry>, w: World, x: Execution, retryCount: nat)
    requires Inv(prefix, c, Over(prefix, w)) && RecordedPairs(prefix, c.inv)
    requires Ordered(w) && w.pass.Some? && c.body(w.pass.value.seen).Call? && Fresh(prefix + w.rows, x.uuid)
    requires Decide(w.pass.value.item, c.body(w.pass.value.seen).name, c.body(w.pass.value.seen).explicit).Execute?
    ensures var w' := Step(c, w, Advance(x, retryCount));
            && |w'.rows| == |w.rows| + 1 && w'.pass.Some? && |w'.pass.value.seen| == |w.pass.value.seen| + 1
            && Step(c, Over(prefix, w), Advance(x, retryCount)) == Over(prefix, w')
  {
    var name, explicit := c.body(w.pass.value.seen).name, c.body(w.pass.value.seen).explicit;
    var v := Over(prefix, w);
    var row := RowFor(c, w, name, explicit, x, retryCount);
    ExecutionAppends(prefix, c, v, name, explicit, x, retryCount);
    assert row == RowFor(c, v, name, explicit, x, retryCount);
    AppendedOver(prefix, w.rows, row);
    AdvancedOver(c, prefix, w, name, explicit, x, retryCount);
  }

  lemma {:induction false} ReplaysKeep(c: Setting, prefix: seq<TaskEntry>, w: World, calls: seq<(Execution, nat)>, last: World)
    requires RewindInv(c, prefix, w) && KeysNeverCollide(c.body) && Ordered(w)
    requires Replays(c, prefix, w, calls, last)
    ensures RewindInv(c, prefix, last)
    decreases |calls|
  {
    if calls == [] {
    } else {
      var ev := Advance(calls[0].0, calls[0].1);
      StepIsOrdered(c, w, ev);
      if c.body(w.pass.value.seen).Call? {
        StepOver(c, prefix, w, ev.x, ev.retryCount);
      }
      ReplaysKeep(c, prefix, Step(c, w, ev), calls[1..], last);
    }
  }

  /** Rewind from any step. Let `prefix` be the recorded steps before the chosen one,
      and let the body, fed their results, make exactly those calls. Then the
      replaying pass gets the stored results for the calls of the prefix, executes
      every call after them, each under its own key, and its run holds exactly the
      rows of those executions, in order. */
  lemma {:induction false} RewindReplaysPrefixAndRunsTheRest(
    c: Setting, tasks: seq<TaskEntry>, from: FromStep, prefix: seq<TaskEntry>, runItemId: Option<string>,
    calls: seq<(Execution, nat)>, last: World)
    requires AllStamped(tasks) && c.inv == {} && KeysNeverCollide(c.body)
    requires ChosenPrefix(tasks, from, prefix) && BodyTrace(c.body, prefix)
    requires Replays(c, prefix, Seeded(prefix, runItemId), calls, last)
    ensures last.pass.Some?
    ensures var seen, names := last.pass.value.seen, last.pass.value.calls;
            && names == Names(c.body, seen)
            && (forall i :: 0 <= i < |seen| && i < |prefix| ==> seen[i] == prefix[i].result && KeyAt(names, i) == prefix[i].key)
            && |last.rows| == (if |seen| > |prefix| then |seen| - |prefix| else 0)
            && (forall i :: 0 <= i < |last.rows| ==>
                  last.rows[i].result == seen[|prefix| + i] && last.rows[i].key == KeyAt(names, |prefix| + i))
  {
    SeedHolds(c, tasks, prefix, runItemId);
    ReplaysKeep(c, prefix, Seeded(prefix, runItemId), calls, last);
    RowsAreTheRest(c, prefix, last);
  }

  /** The steps strictly before the chosen one in the collapsed list. */
  ghost predicate ChosenPrefix(tasks: seq<TaskEntry>, from: FromStep, prefix: seq<TaskEntry>) {
    && ResolveFromStep(from, Collapse(tasks)).Some?
    && prefix == Collapse(tasks)[..ResolveFromStep(from, Collapse(tasks)).value]
  }

  /** The steps before the chosen one are those whose labels appeared first among the
      recorded rows: as many as its number says, or those that appeared before its label. */
  lemma StepsBeforeAppearedFirst(tasks: seq<TaskEntry>, from: FromStep, prefix: seq<TaskEntry>, i: nat, j: nat)
    requires ChosenPrefix(tasks, from, prefix) && IsFirst(tasks, i) && IsFirst(tasks, j)
    ensures from.ByNumber? ==> |prefix| == from.n - 1
    ensures Has(prefix, tasks[i].key) && !Has(prefix, tasks[j].key) ==> i < j
    ensures from.ByLabel? && tasks[j].key == from.name ==> (Has(prefix, tasks[i].key) <==> i < j)
  {
    var out := Collapse(tasks);
    var p := PlaceInCollapse(tasks, i);
    var q := PlaceInCollapse(tasks, j);
    forall k | 0 <= k < |out|
      ensures Has(prefix, out[k].key) <==> k < |prefix|
    {
      CollapseMeaning(tasks);
      assert k < |prefix| ==> prefix[k] == out[k];
    }
    CollapseMeaning(tasks);
    assert from.ByLabel? && tasks[j].key == from.name ==> |prefix| == q;
    if p < q {
      CollapseKeepsOrder(tasks, p, q, i, j);
    } else if q < p {
      CollapseKeepsOrder(tasks, q, p, j, i);
    }
  }

  lemma PlaceInCollapse(tasks: seq<TaskEntry>, i: nat) returns (p: nat)
    requires i < |tasks|
    ensures p < |Collapse(tasks)| && Collapse(tasks)[p].key == tasks[i].key
  {
    CollapseMeaning(tasks);
    assert Has(tasks, tasks[i].key);
    var e :| e in Collapse(tasks) && e.key == tasks[i].key;
    p :| 0 <= p < |Collapse(tasks)| && Collapse(tasks)[p] == e;
  }

  lemma {:induction false} DistinctKeysOnce(rows: seq<TaskEntry>, key: string)
    requires forall i, j :: 0 <= i < j < |rows| ==> rows[i].key != rows[j].key
    ensures Executions(rows, key) <= 1
  {
    if rows == [] {
    } else {
      var init, last := rows[..|rows| - 1], rows[|rows| - 1];
      DistinctKeysOnce(init, key);
      ExecutedHas(init, last.key);
      assert !Has(init, last.key);
    }
  }

  /** A prefix of the collapsed list: the item's own rows, no key twice. */
  lemma CollapsedPrefix(tasks: seq<TaskEntry>, prefix: seq<TaskEntry>)
    requires AllStamped(tasks) && prefix <= Collapse(tasks)
    ensures AllStamped(prefix) && OnceEach(prefix)
  {
    CollapseMeaning(tasks);
    forall i | 0 <= i < |prefix|
      ensures prefix[i] == Collapse(tasks)[i] && Stamped(prefix[i])
    {
      assert prefix[i] == Collapse(tasks)[i];
      assert prefix[i] in tasks;
    }
    forall key
      ensures Executions(prefix, key) <= 1
    {
      DistinctKeysOnce(prefix, key);
    }
  }

  lemma SeedHolds(c: Setting, tasks: seq<TaskEntry>, prefix: seq<TaskEntry>, runItemId: Option<string>)
    requires AllStamped(tasks) && c.inv == {} && prefix <= Collapse(tasks) && BodyTrace(c.body, prefix)
    ensures RewindInv(c, prefix, Seeded(prefix, runItemId))
  {
    CollapsedPrefix(tasks, prefix);
    StartHolds(prefix, c);
    BeginKeeps(c.inv, prefix, runItemId, runItemId);
    assert prefix + [] == prefix;
  }

  lemma RowsAreTheRest(c: Setting, prefix: seq<TaskEntry>, w: World)
    requires RewindInv(c, prefix, w)
    ensures var seen, names := w.pass.value.seen, w.pass.value.calls;
            && names == Names(c.body, seen)
            && (forall i :: 0 <= i < |seen| && i < |prefix| ==> seen[i] == prefix[i].result && KeyAt(names, i) == prefix[i].key)
            && (forall i :: 0 <= i < |w.rows| ==>
                  w.rows[i].result == seen[|prefix| + i] && w.rows[i].key == KeyAt(names, |prefix| + i))
  {
    var all := prefix + w.rows;
    var seen, names := w.pass.value.seen, w.pass.value.calls;
    NamesPrefix(c.body, Results(all), |seen|);
    assert seen == Results(all)[..|seen|];
    forall i | 0 <= i < |seen|
      ensures seen[i] == all[i].result && KeyAt(names, i) == all[i].key
    {
      KeyAtPrefix(Names(c.body, Results(all)), |seen|, i);
    }
    SplitRows(prefix, w.rows);
  }

  lemma SplitRows(prefix: seq<TaskEntry>, rows: seq<TaskEntry>)
    ensures forall i :: 0 <= i < |prefix| ==> (prefix + rows)[i] == prefix[i]
    ensures forall i :: 0 <= i < |rows| ==> rows[i] == (prefix + rows)[|prefix| + i]
  {
  }

  // ---- a replaying process that dies ----

  lemma {:induction false} ExecutionsConcat(a: seq<TaskEntry>, b: seq<TaskEntry>, key: string)
    ensures Executions(a + b, key) == Executions(a, key) + Executions(b, key)
  {
    if b == [] {
      assert a + b == a;
    } else {
      ExecutionsConcat(a, b[..|b| - 1], key);
      assert (a + b)[..|a + b| - 1] == a + b[..|b| - 1];
    }
  }

  /** No step of the prefix is stored in the replaying run. */
  lemma PrefixNotStored(c: Setting, prefix: seq<TaskEntry>, w: World)
    requires RewindInv(c, prefix, w) && prefix != []
    ensures !Has(w.rows, prefix[0].key)
  {
    var key := prefix[0].key;
    EachKeyOnce(prefix, c, Over(prefix, w), key);
    ExecutionsConcat(prefix, w.rows, key);
    assert Has(prefix, key);
    ExecutedHas(prefix, key);
    ExecutedHas(w.rows, key);
  }

  /** The prefix lives in memory only. Once the run has a record, a process that takes
      over from a dead one hydrates the run's own rows, and the first call of the prefix
      executes again. */
  lemma DeadReplayForgetsItsPrefix(
    c: Setting, prefix: seq<TaskEntry>, w: World, stored: Option<string>, runItemId: Option<string>, x: Execution, retryCount: nat)
    requires RewindInv(c, prefix, w) && c.inv == {} && prefix != [] && Fresh(w.rows, x.uuid)
    ensures var restarted := Step(c, World(w.rows, None), Begin(stored, runItemId));
            var next := Step(c, restarted, Advance(x, retryCount));
            && |next.rows| == |w.rows| + 1 && w.rows <= next.rows
            && next.rows[|w.rows|].key == prefix[0].key && next.rows[|w.rows|].result == x.result
  {
    var all := prefix + w.rows;
    assert all[0] == prefix[0] && Results(all)[..0] == [];
    assert c.body([]).Call?;
    assert forall i :: 0 <= i < |w.rows| ==> all[|prefix| + i] == w.rows[i];
    NamesPrefix(c.body, Results(all), 0);
    assert KeyAt(Names(c.body, Results(all)), 0) == Key(c.body([]).name, 1);
    PrefixNotStored(c, prefix, w);
    StartHolds(w.rows, c);
    var restarted := Step(c, World(w.rows, None), Begin(stored, runItemId));
    StepKeeps(w.rows, c, World(w.rows, None), Begin(stored, runItemId));
    var row := ExecutedCall(w.rows, c, restarted, x, retryCount);
  }

  lemma FirstCallIsAnswered(c: Setting, w: World, x: Execution, retryCount: nat)
    requires TraceInv([], c, w) && w.pass.Some? && w.pass.value.seen == [] && w.rows != []
    ensures var next := Step(c, w, Advance(x, retryCount));
            next.rows == w.rows && next.pass.Some? && next.pass.value.seen == [w.rows[0].result]
  {
    NextKeyHasRow([], c, w);
    AnsweredCall([], c, w, x, retryCount);
  }

  /** With nothing before the chosen step the run holds all of its own work. */
  lemma EmptyPrefixIsRemembered(c: Setting, w: World)
    requires RewindInv(c, [], w) && w.pass.value.seen != []
    ensures TraceInv([], c, World(w.rows, None)) && w.rows != [] && w.pass.value.seen[0] == w.rows[0].result
  {
    assert [] + w.rows == w.rows;
    assert w.pass.value.seen[0] == Results(w.rows)[0];
  }

  /** A process that takes over a replay that has got past its first call finds that
      call's work exactly when the replay starts at the first step. */
  lemma RestartIsAnsweredIffNoPrefix(
    c: Setting, prefix: seq<TaskEntry>, w: World, stored: Option<string>, runItemId: Option<string>, x: Execution, retryCount: nat)
    requires RewindInv(c, prefix, w) && c.inv == {} && w.pass.value.seen != [] && Fresh(w.rows, x.uuid)
    ensures var restarted := Step(c, World(w.rows, None), Begin(stored, runItemId));
            var next := Step(c, restarted, Advance(x, retryCount));
            && (next.rows == w.rows <==> prefix == [])
            && (prefix == [] ==> next.pass.Some? && next.pass.value.seen == [w.pass.value.seen[0]])
            && (prefix != [] ==> |next.rows| == |w.rows| + 1 && next.rows[|w.rows|].key == prefix[0].key)
  {
    if prefix == [] {
      EmptyPrefixIsRemembered(c, w);
      RestartTraces(c, w.rows, stored, runItemId);
      FirstCallIsAnswered(c, Step(c, World(w.rows, None), Begin(stored, runItemId)), x, retryCount);
    } else {
      DeadReplayForgetsItsPrefix(c, prefix, w, stored, runItemId, x, retryCount);
    }
  }
}
