/** Runs of one durable item over many passes. A pass hydrates from the ledger and
    drives the body from the top; it can be cut anywhere. A body is a deterministic
    function from the results it has seen to its next call; what a step returns is
    decided by the events, not by the body.
    Models the protocol of src/papayya/durable/run.py over a ledger. */
module Resume {
  import opened Types
  import opened Labels
  import opened Latest
  import opened ItemSpec
  import opened Ledger

  datatype Act = Done | Call(name: string, explicit: Option<string>)

  type Body = seq<Value> -> Act

  /** `inv` is what the last pause recorded; `keepsRetries` says whether the store
      has columns for the retry fields. */
  datatype Setting = Setting(body: Body, inv: set<(string, int)>, keepsRetries: bool)

  function Stored(e: TaskEntry, keepsRetries: bool): TaskEntry {
    if keepsRetries then e else e.(retryCount := 0)
  }

  datatype Pass = Pass(item: ItemState, calls: seq<string>, seen: seq<Value>)

  datatype World = World(rows: seq<TaskEntry>, pass: Option<Pass>)

  /** Start a pass, let it make its next call (`x` is what the function returns if
      it runs), or lose the process: before the function, between the function and
      the save, after the save, or at a pause. */
  datatype Event =
    | Begin(storedItemId: Option<string>, runItemId: Option<string>)
    | Advance(x: Execution, retryCount: nat)
    | Cut

  ghost predicate Ordered(w: World) {
    w.pass.Some? ==> CacheOrdered(w.pass.value.item)
  }

  /** The next call of a pass. */
  ghost function Advanced(c: Setting, w: World, name: string, explicit: Option<string>, x: Execution, retryCount: nat): World
    requires w.pass.Some? && Ordered(w)
  {
    var p := w.pass.value;
    var called := Called(p.item, name, explicit);
    match Decide(p.item, name, explicit)
    case Hit(e) =>
      World(w.rows, Some(Pass(called, p.calls + [name], p.seen + [e.result])))
    case Execute =>
      var e := EntryFor(called, NextKey(p.item, name), EffectiveItemId(p.item, explicit), x, retryCount);
      World(SaveRow(w.rows, Stored(e, c.keepsRetries)), Some(Pass(Recorded(called, e), p.calls + [name], p.seen + [e.result])))
  }

  ghost function Step(c: Setting, w: World, ev: Event): World
    requires Ordered(w)
  {
    match ev
    case Begin(stored, run) =>
      if w.pass.Some? then w else World(w.rows, Some(Pass(Hydrated(w.rows, c.inv, stored, run), [], [])))
    case Cut => World(w.rows, None)
    case Advance(x, retryCount) =>
      if w.pass.None? then w
      else
        match c.body(w.pass.value.seen)
        case Done => w
        case Call(name, explicit) => Advanced(c, w, name, explicit, x, retryCount)
  }

  lemma StepIsOrdered(c: Setting, w: World, ev: Event)
    requires Ordered(w)
    ensures Ordered(Step(c, w, ev))
  {
    match ev {
      case Begin(stored, run) => HydratedMeaning(w.rows, c.inv, stored, run);
      case Cut =>
      case Advance(x, retryCount) =>
        if w.pass.Some? && c.body(w.pass.value.seen).Call? {
          var p, name, explicit := w.pass.value, c.body(w.pass.value.seen).name, c.body(w.pass.value.seen).explicit;
          var called := Called(p.item, name, explicit);
          RecordedIsOrdered(called, EntryFor(called, NextKey(p.item, name), EffectiveItemId(p.item, explicit), x, retryCount));
        }
    }
  }

  /** A random token is new and never looks like a first execution's token. */
  predicate Fresh(rows: seq<TaskEntry>, uuid: string) {
    && uuid != "" && '|' !in uuid
    && forall i :: 0 <= i < |rows| ==> rows[i].token != uuid
  }

  ghost predicate Legal(w: World, ev: Event) {
    ev.Advance? ==> Fresh(w.rows, ev.x.uuid)
  }

  /** The worlds `events` can lead to from `w`. */
  ghost predicate Leads(c: Setting, w: World, events: seq<Event>, last: World)
    requires Ordered(w)
    ensures Leads(c, w, events, last) ==> Ordered(last)
    decreases |events|
  {
    if events == [] then last == w
    else
      StepIsOrdered(c, w, events[0]);
      Legal(w, events[0]) && Leads(c, Step(c, w, events[0]), events[1..], last)
  }

  // ---- the invariant ----

  /** Rows as the item writes them: attempts count from 1, the first execution has
      the predictable token, and none was copied from another run. */
  ghost predicate Stamped(e: TaskEntry) {
    && e.attempt >= 1 && e.reusedFrom.None?
    && (if e.attempt == 1 then e.token == e.key + "|1" else '|' !in e.token && e.token != "")
  }

  ghost predicate AllStamped(rows: seq<TaskEntry>) {
    forall i :: 0 <= i < |rows| ==> Stamped(rows[i])
  }

  /** The pause recorded executions that were in the ledger. */
  ghost predicate RecordedPairs(base: seq<TaskEntry>, inv: set<(string, int)>) {
    forall p :: p in inv ==> p.1 <= MaxAttempt(base, p.0)
  }

  /** What has happened to one key since the ledger was `base`: nothing, or one
      replacement of an execution that did not stand. */
  ghost predicate KeyHistory(base: seq<TaskEntry>, inv: set<(string, int)>, rows: seq<TaskEntry>, key: string) {
    || (&& Executions(rows, key) == Executions(base, key)
        && Winner(rows, key) == Winner(base, key)
        && MaxAttempt(rows, key) == MaxAttempt(base, key))
    || (&& !Stands(base, inv, key)
        && Executions(rows, key) == Executions(base, key) + 1
        && Stands(rows, inv, key)
        && MaxAttempt(rows, key) == MaxAttempt(base, key) + 1)
  }

  ghost predicate LedgerInv(base: seq<TaskEntry>, inv: set<(string, int)>, rows: seq<TaskEntry>) {
    && base <= rows
    && AllStamped(rows)
    && forall key :: KeyHistory(base, inv, rows, key)
  }

  /** Every key is cached exactly when its latest execution stands, with its result. */
  ghost predicate CacheAgrees(inv: set<(string, int)>, rows: seq<TaskEntry>, cache: map<string, TaskEntry>) {
    && (forall k :: k in cache <==> Stands(rows, inv, k))
    && (forall k :: k in cache ==> cache[k].reusedFrom.None? && cache[k].result == Winner(rows, k).value.result)
  }

  ghost predicate AttemptsAgree(rows: seq<TaskEntry>, attempts: map<string, int>) {
    forall k :: Get(attempts, k, 0) == MaxAttempt(rows, k)
  }

  ghost predicate CallsAgree(calls: seq<string>, occurrences: map<string, nat>) {
    forall name :: Get(occurrences, name, 0) == Count(calls, name)
  }

  /** A pass agrees with the ledger on every key. */
  ghost predicate PassInv(inv: set<(string, int)>, rows: seq<TaskEntry>, p: Pass) {
    && CacheOrdered(p.item) && p.item.reuse == map[] && p.item.callOrder == p.item.cacheKeys
    && |p.calls| == |p.seen|
    && CallsAgree(p.calls, p.item.occurrences)
    && CacheAgrees(inv, rows, p.item.cache)
    && AttemptsAgree(rows, p.item.attempts)
  }

  ghost predicate Inv(base: seq<TaskEntry>, c: Setting, w: World) {
    && LedgerInv(base, c.inv, w.rows)
    && (w.pass.Some? ==> PassInv(c.inv, w.rows, w.pass.value))
  }

  // ---- steps keep it ----

  lemma {:induction false} NothingReusedNothingIndexed(rows: seq<TaskEntry>, inv: set<(string, int)>, storedItemId: Option<string>, runItemId: Option<string>, n: nat)
    requires AllStamped(rows) && n <= |Collapse(rows)|
    ensures HydratedUpTo(rows, inv, storedItemId, runItemId, n).reuse == map[]
  {
    if n == 0 {
    } else {
      NothingReusedNothingIndexed(rows, inv, storedItemId, runItemId, n - 1);
      var e := Collapse(rows)[n - 1];
      assert e in rows;
      assert e.reusedFrom.None?;
    }
  }

  lemma BeginKeeps(inv: set<(string, int)>, rows: seq<TaskEntry>, storedItemId: Option<string>, runItemId: Option<string>)
    requires AllStamped(rows)
    ensures PassInv(inv, rows, Pass(Hydrated(rows, inv, storedItemId, runItemId), [], []))
  {
    HydratedMeaning(rows, inv, storedItemId, runItemId);
    NothingReusedNothingIndexed(rows, inv, storedItemId, runItemId, |Collapse(rows)|);
    var s := Hydrated(rows, inv, storedItemId, runItemId);
    forall k | k in s.cache
      ensures s.cache[k].reusedFrom.None?
    {
      assert Winner(rows, k).value in rows;
    }
  }

  /** A call of a key is answered exactly when the key's latest execution stands,
      and then with the stored result. */
  lemma CallOutcome(inv: set<(string, int)>, rows: seq<TaskEntry>, p: Pass, name: string, explicit: Option<string>)
    requires PassInv(inv, rows, p)
    ensures NextKey(p.item, name) == Key(name, Count(p.calls, name) + 1)
    ensures Decide(p.item, name, explicit).Hit? <==> Stands(rows, inv, NextKey(p.item, name))
    ensures Decide(p.item, name, explicit).Hit? ==>
              Decide(p.item, name, explicit).entry.result == Winner(rows, NextKey(p.item, name)).value.result
  {
  }

  lemma NewIdentity(r: TaskEntry, e: TaskEntry, uuid: string)
    requires Stamped(r) && r.token != uuid && uuid != "" && '|' !in uuid
    requires e.attempt >= 1 && e.token == TokenFor(e.key, e.attempt, uuid)
    requires r.key == e.key ==> r.attempt < e.attempt
    ensures IdentityOf(r) != IdentityOf(e)
  {
    assert (r.key + "|1")[..|r.key|] == r.key;
    assert (e.key + "|1")[..|e.key|] == e.key;
    assert (e.key + "|1")[|e.key|] == '|';
    assert (r.key + "|1")[|r.key|] == '|';
  }

  /** Nothing in the ledger has the identity of a new execution. */
  lemma NewExecutionUnknown(rows: seq<TaskEntry>, e: TaskEntry, uuid: string)
    requires AllStamped(rows) && Fresh(rows, uuid)
    requires e.attempt == MaxAttempt(rows, e.key) + 1 && e.token == TokenFor(e.key, e.attempt, uuid)
    ensures !Known(rows, e)
  {
    forall i | 0 <= i < |rows|
      ensures IdentityOf(rows[i]) != IdentityOf(e)
    {
      NewIdentity(rows[i], e, uuid);
    }
  }

  /** A new execution becomes the latest of its key and stands. */
  lemma NewExecutionStands(base: seq<TaskEntry>, inv: set<(string, int)>, rows: seq<TaskEntry>, e: TaskEntry)
    requires RecordedPairs(base, inv) && KeyHistory(base, inv, rows, e.key)
    requires e.attempt == MaxAttempt(rows, e.key) + 1
    ensures Winner(rows + [e], e.key) == Some(e)
    ensures MaxAttempt(rows + [e], e.key) == e.attempt
    ensures Stands(rows + [e], inv, e.key)
  {
    LastOnTopWins(rows, e);
    MaxAttemptAppend(rows, e, e.key);
  }

  lemma {:induction false} AppendKeepsLedger(base: seq<TaskEntry>, inv: set<(string, int)>, rows: seq<TaskEntry>, e: TaskEntry)
    requires LedgerInv(base, inv, rows) && RecordedPairs(base, inv)
    requires !Stands(rows, inv, e.key) && Stamped(e) && e.attempt == MaxAttempt(rows, e.key) + 1
    ensures LedgerInv(base, inv, rows + [e])
    ensures Winner(rows + [e], e.key) == Some(e) && Stands(rows + [e], inv, e.key)
  {
    NewExecutionStands(base, inv, rows, e);
    forall key
      ensures KeyHistory(base, inv, rows + [e], key)
    {
      assert KeyHistory(base, inv, rows, key);
      ExecutionsAppend(rows, e, key);
      MaxAttemptAppend(rows, e, key);
      if key != e.key {
        OtherKeysKeepWinner(rows, e, key);
      }
    }
  }

  lemma CountAppend(calls: seq<string>, name: string, other: string)
    ensures Count(calls + [name], other) == Count(calls, other) + (if name == other then 1 else 0)
  {
    assert (calls + [name])[..|calls|] == calls;
  }

  /** What both kinds of call do to the occurrence counters. */
  lemma CallCounts(calls: seq<string>, occurrences: map<string, nat>, name: string)
    requires CallsAgree(calls, occurrences)
    ensures CallsAgree(calls + [name], occurrences[name := Get(occurrences, name, 0) + 1])
  {
    forall other
      ensures Count(calls + [name], other) == Count(calls, other) + (if name == other then 1 else 0)
    {
      CountAppend(calls, name, other);
    }
  }

  lemma ExecutionCached(inv: set<(string, int)>, rows: seq<TaskEntry>, cache: map<string, TaskEntry>, e: TaskEntry, row: TaskEntry)
    requires CacheAgrees(inv, rows, cache)
    requires Winner(rows + [row], row.key) == Some(row) && Stands(rows + [row], inv, row.key)
    requires e.key == row.key && e.result == row.result && e.reusedFrom.None?
    ensures CacheAgrees(inv, rows + [row], cache[e.key := e])
  {
    forall k | k != e.key
      ensures Winner(rows + [row], k) == Winner(rows, k)
    {
      OtherKeysKeepWinner(rows, row, k);
    }
  }

  lemma ExecutionCounted(rows: seq<TaskEntry>, attempts: map<string, int>, row: TaskEntry)
    requires AttemptsAgree(rows, attempts) && row.attempt == MaxAttempt(rows, row.key) + 1
    ensures AttemptsAgree(rows + [row], attempts[row.key := row.attempt])
  {
    forall k
      ensures MaxAttempt(rows + [row], k) == if row.key == k then row.attempt else MaxAttempt(rows, k)
    {
      MaxAttemptAppend(rows, row, k);
    }
  }

  /** `called` is `before` with one more occurrence of `name` consumed. */
  ghost predicate OneMoreCall(before: ItemState, called: ItemState, name: string) {
    && called.cache == before.cache && called.cacheKeys == before.cacheKeys && called.callOrder == before.callOrder
    && called.reuse == before.reuse && called.attempts == before.attempts
    && called.occurrences == before.occurrences[name := Get(before.occurrences, name, 0) + 1]
  }

  lemma {:induction false} ExecuteKeeps(inv: set<(string, int)>, rows: seq<TaskEntry>, p: Pass, called: ItemState, name: string, e: TaskEntry, row: TaskEntry)
    requires PassInv(inv, rows, p) && OneMoreCall(p.item, called, name)
    requires Winner(rows + [row], row.key) == Some(row) && Stands(rows + [row], inv, row.key)
    requires e.attempt == MaxAttempt(rows, e.key) + 1 && e.reusedFrom.None?
    requires row == e.(retryCount := row.retryCount) && e.key !in p.item.cache
    ensures PassInv(inv, rows + [row], Pass(Recorded(called, e), p.calls + [name], p.seen + [e.result]))
  {
    CallCounts(p.calls, p.item.occurrences, name);
    ExecutionCached(inv, rows, p.item.cache, e, row);
    ExecutionCounted(rows, p.item.attempts, row);
    RecordedIsOrdered(called, e);
  }

  /** The row an advancing pass writes, if its call executes. */
  ghost function RowFor(c: Setting, w: World, name: string, explicit: Option<string>, x: Execution, retryCount: nat): TaskEntry
    requires w.pass.Some? && Ordered(w)
  {
    var s := w.pass.value.item;
    Stored(EntryFor(Called(s, name, explicit), NextKey(s, name), EffectiveItemId(s, explicit), x, retryCount), c.keepsRetries)
  }

  /** An execution always appends its row: nothing in the ledger has its identity. */
  lemma ExecutionAppends(base: seq<TaskEntry>, c: Setting, w: World, name: string, explicit: Option<string>, x: Execution, retryCount: nat)
    requires Inv(base, c, w) && w.pass.Some? && RecordedPairs(base, c.inv)
    requires Fresh(w.rows, x.uuid) && Decide(w.pass.value.item, name, explicit).Execute?
    ensures var row := RowFor(c, w, name, explicit, x, retryCount);
            && row.key == NextKey(w.pass.value.item, name) && row.result == x.result
            && row.attempt == MaxAttempt(w.rows, row.key) + 1
            && Stamped(row) && !Stands(w.rows, c.inv, row.key)
            && SaveRow(w.rows, row) == w.rows + [row]
  {
    CallOutcome(c.inv, w.rows, w.pass.value, name, explicit);
    NewExecutionUnknown(w.rows, RowFor(c, w, name, explicit, x, retryCount), x.uuid);
  }

  lemma ExecutionKeeps(base: seq<TaskEntry>, c: Setting, w: World, name: string, explicit: Option<string>, x: Execution, retryCount: nat)
    requires Inv(base, c, w) && w.pass.Some? && RecordedPairs(base, c.inv)
    requires Fresh(w.rows, x.uuid)
    requires Decide(w.pass.value.item, name, explicit).Execute?
    ensures Inv(base, c, Advanced(c, w, name, explicit, x, retryCount))
  {
    var s := w.pass.value.item;
    var called := Called(s, name, explicit);
    var e := EntryFor(called, NextKey(s, name), EffectiveItemId(s, explicit), x, retryCount);
    var row := RowFor(c, w, name, explicit, x, retryCount);
    ExecutionAppends(base, c, w, name, explicit, x, retryCount);
    AppendKeepsLedger(base, c.inv, w.rows, row);
    ExecuteKeeps(c.inv, w.rows, w.pass.value, called, name, e, row);
  }

  lemma AdvanceKeeps(base: seq<TaskEntry>, c: Setting, w: World, name: string, explicit: Option<string>, x: Execution, retryCount: nat)
    requires Inv(base, c, w) && w.pass.Some? && RecordedPairs(base, c.inv)
    requires Fresh(w.rows, x.uuid)
    ensures Inv(base, c, Advanced(c, w, name, explicit, x, retryCount))
  {
    var p := w.pass.value;
    match Decide(p.item, name, explicit) {
      case Hit(e) => CallCounts(p.calls, p.item.occurrences, name);
      case Execute => ExecutionKeeps(base, c, w, name, explicit, x, retryCount);
    }
  }

  lemma StepKeeps(base: seq<TaskEntry>, c: Setting, w: World, ev: Event)
    requires Inv(base, c, w) && RecordedPairs(base, c.inv)
    requires Legal(w, ev)
    ensures Inv(base, c, Step(c, w, ev))
  {
    match ev {
      case Begin(stored, run) => BeginKeeps(c.inv, w.rows, stored, run);
      case Cut =>
      case Advance(x, retryCount) =>
        if w.pass.Some? && c.body(w.pass.value.seen).Call? {
          AdvanceKeeps(base, c, w, c.body(w.pass.value.seen).name, c.body(w.pass.value.seen).explicit, x, retryCount);
        }
    }
  }

  lemma StartHolds(base: seq<TaskEntry>, c: Setting)
    requires AllStamped(base)
    ensures Inv(base, c, World(base, None))
  {
    forall key
      ensures KeyHistory(base, c.inv, base, key)
    {
    }
  }

  lemma {:induction false} ReachableHolds(base: seq<TaskEntry>, c: Setting, w: World, events: seq<Event>, last: World)
    requires Inv(base, c, w) && RecordedPairs(base, c.inv)
    requires Leads(c, w, events, last)
    ensures Inv(base, c, last)
    decreases |events|
  {
    if events == [] {
    } else {
      StepKeeps(base, c, w, events[0]);
      ReachableHolds(base, c, Step(c, w, events[0]), events[1..], last);
    }
  }

  // ---- the theorems ----

  /** An invalidation spends itself exactly once. Whatever passes follow a pause,
      and wherever they are cut, the ledger only grows; a key whose latest
      execution stood at the pause is never executed again, and any other key is
      executed at most once; after that its replacement stands. */
  lemma InvalidationSpendsItself(base: seq<TaskEntry>, c: Setting, events: seq<Event>, last: World, key: string)
    requires AllStamped(base) && RecordedPairs(base, c.inv)
    requires Leads(c, World(base, None), events, last)
    ensures base <= last.rows
    ensures Executions(last.rows, key) <= Executions(base, key) + 1
    ensures Stands(base, c.inv, key) ==> Executions(last.rows, key) == Executions(base, key)
    ensures Executions(last.rows, key) > Executions(base, key) ==>
              Stands(last.rows, c.inv, key) && MaxAttempt(last.rows, key) == MaxAttempt(base, key) + 1
  {
    StartHolds(base, c);
    ReachableHolds(base, c, World(base, None), events, last);
    assert KeyHistory(base, c.inv, last.rows, key);
  }

  lemma AnsweredCall(base: seq<TaskEntry>, c: Setting, w: World, x: Execution, retryCount: nat)
    requires Inv(base, c, w) && w.pass.Some? && c.body(w.pass.value.seen).Call?
    requires Stands(w.rows, c.inv, NextKey(w.pass.value.item, c.body(w.pass.value.seen).name))
    ensures var p, name := w.pass.value, c.body(w.pass.value.seen).name;
            var w' := Step(c, w, Advance(x, retryCount));
            && w'.rows == w.rows && w'.pass.Some? && w'.pass.value.calls == p.calls + [name]
            && w'.pass.value.seen == p.seen + [Winner(w.rows, NextKey(p.item, name)).value.result]
  {
    CallOutcome(c.inv, w.rows, w.pass.value, c.body(w.pass.value.seen).name, c.body(w.pass.value.seen).explicit);
  }

  lemma ExecutedCall(base: seq<TaskEntry>, c: Setting, w: World, x: Execution, retryCount: nat) returns (row: TaskEntry)
    requires Inv(base, c, w) && RecordedPairs(base, c.inv) && w.pass.Some? && c.body(w.pass.value.seen).Call?
    requires !Stands(w.rows, c.inv, NextKey(w.pass.value.item, c.body(w.pass.value.seen).name)) && Fresh(w.rows, x.uuid)
    ensures var p, name := w.pass.value, c.body(w.pass.value.seen).name;
            var w' := Step(c, w, Advance(x, retryCount));
            && w'.rows == w.rows + [row] && w'.pass.Some? && w'.pass.value.calls == p.calls + [name]
            && w'.pass.value.seen == p.seen + [x.result]
            && row.key == NextKey(p.item, name) && row.result == x.result
            && row.attempt == MaxAttempt(w.rows, row.key) + 1
  {
    var name, explicit := c.body(w.pass.value.seen).name, c.body(w.pass.value.seen).explicit;
    CallOutcome(c.inv, w.rows, w.pass.value, name, explicit);
    ExecutionAppends(base, c, w, name, explicit, x, retryCount);
    row := RowFor(c, w, name, explicit, x, retryCount);
  }

  /** In every reachable state, what the next call of a pass does is decided by the
      ledger alone: it is answered, with the stored result, exactly when the latest
      execution of its key stands; otherwise it executes and its row is appended
      with the next attempt. */
  lemma NextCall(base: seq<TaskEntry>, c: Setting, events: seq<Event>, w: World, x: Execution, retryCount: nat)
    requires AllStamped(base) && RecordedPairs(base, c.inv)
    requires Leads(c, World(base, None), events, w)
    requires w.pass.Some? && c.body(w.pass.value.seen).Call? && Fresh(w.rows, x.uuid)
    ensures var p, name := w.pass.value, c.body(w.pass.value.seen).name;
            var key := Key(name, Count(p.calls, name) + 1);
            var w' := Step(c, w, Advance(x, retryCount));
            if Stands(w.rows, c.inv, key) then
              w'.rows == w.rows && w'.pass.Some? && w'.pass.value.seen == p.seen + [Winner(w.rows, key).value.result]
            else
              && w'.pass.Some? && w'.pass.value.seen == p.seen + [x.result]
              && |w'.rows| == |w.rows| + 1 && w.rows <= w'.rows
              && var row := w'.rows[|w.rows|];
                 row.key == key && row.result == x.result && row.attempt == MaxAttempt(w.rows, key) + 1
  {
    StartHolds(base, c);
    ReachableHolds(base, c, World(base, None), events, w);
    var p, name := w.pass.value, c.body(w.pass.value.seen).name;
    assert NextKey(p.item, name) == Key(name, Count(p.calls, name) + 1);
    if Stands(w.rows, c.inv, NextKey(p.item, name)) {
      AnsweredCall(base, c, w, x, retryCount);
    } else {
      var row := ExecutedCall(base, c, w, x, retryCount);
    }
  }

  /** Steps appear in the call order once each, and the summary lists exactly the
      cached steps. */
  lemma CallOrderIsTheCache(base: seq<TaskEntry>, c: Setting, events: seq<Event>, w: World)
    requires AllStamped(base) && RecordedPairs(base, c.inv)
    requires Leads(c, World(base, None), events, w) && w.pass.Some?
    ensures var s := w.pass.value.item;
            && (forall i, j :: 0 <= i < j < |s.callOrder| ==> s.callOrder[i] != s.callOrder[j])
            && (forall k :: k in s.callOrder <==> Stands(w.rows, c.inv, k))
  {
    StartHolds(base, c);
    ReachableHolds(base, c, World(base, None), events, w);
  }

  lemma {:induction false} AttemptsOnlyGrow(base: seq<TaskEntry>, rows: seq<TaskEntry>, key: string)
    requires base <= rows
    ensures MaxAttempt(base, key) <= MaxAttempt(rows, key)
    decreases |rows|
  {
    if |rows| > |base| {
      AttemptsOnlyGrow(base, rows[..|rows| - 1], key);
    } else {
      assert base == rows;
    }
  }

  /** A later call that is about to use the same effective label reads the same
      provider key exactly when no row for that label became visible in between. */
  lemma SameProviderKeyIffNoRow(base: seq<TaskEntry>, c: Setting, before: seq<Event>, w: World, after: seq<Event>, w': World, runId: string, name: string, name': string)
    requires AllStamped(base) && RecordedPairs(base, c.inv)
    requires Leads(c, World(base, None), before, w) && Leads(c, w, after, w')
    requires w.pass.Some? && w'.pass.Some?
    requires NextKey(w.pass.value.item, name) == NextKey(w'.pass.value.item, name')
    ensures var key := NextKey(w.pass.value.item, name);
            IdempotencyKey(runId, w.pass.value.item, name) == IdempotencyKey(runId, w'.pass.value.item, name')
            <==> Executions(w'.rows, key) == Executions(w.rows, key)
  {
    var key := NextKey(w.pass.value.item, name);
    StartHolds(base, c);
    ReachableHolds(base, c, World(base, None), before, w);
    forall p | p in c.inv
      ensures p.1 <= MaxAttempt(w.rows, p.0)
    {
      AttemptsOnlyGrow(base, w.rows, p.0);
    }
    StartHolds(w.rows, c);
    ReachableHolds(w.rows, c, w, after, w');
    assert KeyHistory(w.rows, c.inv, w'.rows, key);
  }
}
