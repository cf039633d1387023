/** The local ledger: what its tables hold and what each operation does to them.
    The class in SqliteStore.dfy is proved against these functions; the invariants
    are about them. Models src/papayya/durable/sqlite_store.py. */
module SqliteSpec {
  import opened Types
  import opened Latest
  import opened Ledger

  datatype ItemStatus = ItemRunning | ItemCompleted | ItemFailed | ItemOther(name: string)
  datatype RunStatus = RunRunning | RunCompleted | RunFailed | RunPartial
  datatype Disposition = Replayed | Skipped | Acknowledged

  datatype ItemRow = ItemRow(
    status: ItemStatus,
    runId: Option<string>,
    customerId: Option<string>,
    worst: Outcome,
    degraded: int,
    disposition: Option<Disposition>,
    replayedFrom: Option<string>)

  datatype RunRow = RunRow(
    status: RunStatus,
    total: int,
    completed: int,
    failed: int,
    completedAt: Option<int>)

  datatype StepRow = StepRow(item: string, entry: TaskEntry)

  /** The three tables, the in-memory fences, and the two environment switches. */
  datatype Db = Db(
    steps: seq<StepRow>,
    items: map<string, ItemRow>,
    runs: map<string, RunRow>,
    pending: map<string, PauseReason>,
    fences: map<string, int>,
    envFence: Option<int>,
    capture: bool)

  predicate Terminal(s: ItemStatus) {
    s == ItemCompleted || s == ItemFailed
  }

  // ---- steps ----

  /** The entries stored for one item, in insertion order. */
  function RowsOf(steps: seq<StepRow>, id: string): seq<TaskEntry> {
    if steps == [] then []
    else
      var init, last := RowsOf(steps[..|steps| - 1], id), steps[|steps| - 1];
      if last.item == id then init + [last.entry] else init
  }

  /** The steps table has no columns for the retry fields or for reuse. */
  function Persisted(e: TaskEntry): TaskEntry {
    e.(retryCount := 0, reusedFrom := None)
  }

  function Worse(o: Outcome, than: Outcome): Outcome {
    if Severity(o) > Severity(than) then o else than
  }

  function Aggregated(row: ItemRow, e: TaskEntry): ItemRow {
    row.(customerId := if row.customerId.None? then e.itemId else row.customerId,
         worst := Worse(e.outcome, row.worst),
         degraded := row.degraded + (if e.outcome == OutcomeOk then 0 else 1))
  }

  /** How many of the last rows in a row are not ok. */
  function TrailingBad(rows: seq<TaskEntry>): nat {
    if rows == [] || rows[|rows| - 1].outcome == OutcomeOk then 0
    else 1 + TrailingBad(rows[..|rows| - 1])
  }

  function FenceFor(db: Db, id: string): int {
    if db.envFence.Some? then db.envFence.value
    else if id in db.fences then db.fences[id] else 3
  }

  function Detail(e: TaskEntry): PauseDetail {
    if e.reason.Some? && e.reason.value != "" then Because(e.reason.value) else Status(e.outcome)
  }

  function PendingAfter(db: Db, id: string, e: TaskEntry): map<string, PauseReason> {
    var k := FenceFor(db, id);
    if k > 0 && id !in db.pending && TrailingBad(RowsOf(db.steps, id) + [e]) >= k
    then db.pending[id := PauseReason(k, Detail(e))]
    else db.pending
  }

  /** `save_task`: a redelivery changes nothing; a new execution is appended, and
      the item's aggregates and the degraded-streak fence follow. */
  function AfterSave(db: Db, id: string, e: TaskEntry): Db {
    if Known(RowsOf(db.steps, id), e) then db
    else db.(steps := db.steps + [StepRow(id, Persisted(e))],
             items := if id in db.items then db.items[id := Aggregated(db.items[id], e)] else db.items,
             pending := PendingAfter(db, id, e))
  }

  // ---- runs ----

  function Verdict(completed: int, failed: int): RunStatus {
    if failed == 0 then RunCompleted else if completed == 0 then RunFailed else RunPartial
  }

  /** Close a sealed run whose items have all resolved. */
  function RolledUp(run: RunRow, now: int): RunRow {
    if run.completedAt.None? && run.total > 0 && run.completed + run.failed >= run.total
    then run.(status := Verdict(run.completed, run.failed), completedAt := Some(now))
    else run
  }

  /** The run has a failed item nobody has triaged. */
  predicate HasDeadLetter(items: map<string, ItemRow>, r: string) {
    exists id :: id in items && items[id].runId == Some(r) && items[id].status == ItemFailed && items[id].disposition.None?
  }

  function Promoted(items: map<string, ItemRow>, r: string, run: RunRow, now: int): RunRow {
    if run.status == RunPartial && !HasDeadLetter(items, r)
    then run.(status := RunCompleted, completedAt := if run.completedAt.None? then Some(now) else run.completedAt)
    else run
  }

  function Counted(run: RunRow, status: ItemStatus): RunRow {
    if status == ItemCompleted then run.(completed := run.completed + 1) else run.(failed := run.failed + 1)
  }

  /** `set_status`: write the item; the first time it resolves, count it and roll up. */
  function AfterSetStatus(db: Db, id: string, status: ItemStatus, now: int): Db {
    if id !in db.items then db
    else
      var row := db.items[id];
      var items := db.items[id := row.(status := status)];
      if db.capture && row.runId.Some? && row.runId.value in db.runs && !Terminal(row.status) && Terminal(status) then
        var r := row.runId.value;
        db.(items := items,
            runs := db.runs[r := Promoted(items, r, RolledUp(Counted(db.runs[r], status), now), now)])
      else
        db.(items := items)
  }

  function SingleRunId(id: string): string {
    "single-" + id
  }

  /** `create`: a direct call gets a run of its own. The item insert is refused when
      the id exists; by then the run row has been written. */
  function AfterCreate(db: Db, id: string, invocation: Option<string>, status: ItemStatus, customerId: Option<string>): Db {
    var implicit := invocation.None? && db.capture;
    var runId := if implicit then Some(SingleRunId(id)) else invocation;
    var runs := if implicit && SingleRunId(id) !in db.runs
                then db.runs[SingleRunId(id) := RunRow(RunRunning, 1, 0, 0, None)] else db.runs;
    if id in db.items then db.(runs := runs)
    else db.(runs := runs, items := db.items[id := ItemRow(status, runId, customerId, OutcomeOk, 0, None, None)])
  }

  /** `create_run`: total 0 opens a run whose item count is not known yet. */
  function AfterCreateRun(db: Db, r: string, total: int): Db {
    if r in db.runs then db else db.(runs := db.runs[r := RunRow(RunRunning, total, 0, 0, None)])
  }

  function ItemsOf(items: map<string, ItemRow>, r: string): set<string> {
    set id | id in items && items[id].runId == Some(r)
  }

  function Sealed(run: RunRow, total: int, now: int): RunRow {
    var rolled := RolledUp(run.(total := total), now);
    if total == 0 && rolled.completedAt.None? then rolled.(status := RunCompleted, completedAt := Some(now)) else rolled
  }

  /** `finalize_run`: the real item count, then the rollup. */
  function AfterFinalize(db: Db, r: string, now: int): Db {
    if r !in db.runs then db
    else db.(runs := db.runs[r := Promoted(db.items, r, Sealed(db.runs[r], |ItemsOf(db.items, r)|, now), now)])
  }

  /** `mark_dlq_disposition`: the first decision on a failed item stands. */
  function AfterDispose(db: Db, id: string, d: Disposition, from: Option<string>, now: int): Db {
    if id !in db.items then db
    else
      var row := db.items[id];
      var items := if row.status == ItemFailed && row.disposition.None?
                   then db.items[id := row.(disposition := Some(d), replayedFrom := if from.Some? then from else row.replayedFrom)]
                   else db.items;
      if row.runId.Some? && row.runId.value in db.runs then
        var r := row.runId.value;
        db.(items := items, runs := db.runs[r := Promoted(items, r, db.runs[r], now)])
      else
        db.(items := items)
  }

  /** `set_item_replayed_from`: link an item to the one it drives again. */
  function AfterLink(db: Db, id: string, source: string): Db {
    if id in db.items then db.(items := db.items[id := db.items[id].(replayedFrom := Some(source))]) else db
  }

  /** `set_run_fence`: an item registers its own fence. */
  function AfterSetFence(db: Db, id: string, k: int): Db {
    db.(fences := db.fences[id := k])
  }

  function AfterClearPause(db: Db, id: string): Db {
    db.(pending := map k | k in db.pending && k != id :: db.pending[k])
  }
}
