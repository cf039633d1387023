/** The life of a run row: its counters, when it closes, and how. */
module Rollup {
  import opened Types
  import opened SqliteSpec
  import opened StoreRuns

  function ItemsWith(items: map<string, ItemRow>, r: string, status: ItemStatus): set<string> {
    set id | id in items && items[id].runId == Some(r) && items[id].status == status
  }

  /** A failed item of the run that nobody has triaged. */
  ghost predicate SomeDeadLetter(items: map<string, ItemRow>, r: string) {
    exists id :: id in items && items[id].runId == Some(r) && items[id].status == ItemFailed && items[id].disposition == None
  }

  /** The counters are the numbers of terminal items; the completion time is set exactly
      when the run is not running; a run that has resolved as many items as it was sealed
      with is not running; and a partial run has a dead letter. */
  ghost predicate RunOk(items: map<string, ItemRow>, r: string, run: RunRow) {
    && run.completed == |ItemsWith(items, r, ItemCompleted)|
    && run.failed == |ItemsWith(items, r, ItemFailed)|
    && (run.completedAt.None? <==> run.status == RunRunning)
    && (run.total > 0 && run.completed + run.failed >= run.total ==> run.status != RunRunning)
    && (run.status == RunPartial ==> SomeDeadLetter(items, r))
  }

  ghost predicate RunsOk(db: Db) {
    && db.capture
    && (forall r :: r in db.runs ==> RunOk(db.items, r, db.runs[r]))
    && (forall id :: id in db.items && db.items[id].runId.Some? ==> db.items[id].runId.value in db.runs)
  }

  /** Items that move from one row to another without changing run or status. */
  ghost predicate SameStanding(items: map<string, ItemRow>, items': map<string, ItemRow>) {
    && items.Keys == items'.Keys
    && forall id :: id in items ==> items'[id].runId == items[id].runId && items'[id].status == items[id].status
  }

  lemma SameStandingSameCounts(items: map<string, ItemRow>, items': map<string, ItemRow>, r: string, status: ItemStatus)
    requires SameStanding(items, items')
    ensures ItemsWith(items', r, status) == ItemsWith(items, r, status)
  {
  }

  /** What resolving one item does to the counts of every run. */
  lemma ResolveCounts(items: map<string, ItemRow>, id: string, status: ItemStatus, r: string, counted: ItemStatus)
    requires id in items && !Terminal(items[id].status) && Terminal(counted)
    ensures var items' := items[id := items[id].(status := status)];
            |ItemsWith(items', r, counted)| ==
            |ItemsWith(items, r, counted)| + (if items[id].runId == Some(r) && status == counted then 1 else 0)
  {
    var items' := items[id := items[id].(status := status)];
    if items[id].runId == Some(r) && status == counted {
      assert ItemsWith(items', r, counted) == ItemsWith(items, r, counted) + {id};
    } else {
      assert ItemsWith(items', r, counted) == ItemsWith(items, r, counted);
    }
  }

  lemma ResolveKeepsOthers(items: map<string, ItemRow>, id: string, status: ItemStatus, r: string, run: RunRow)
    requires id in items && !Terminal(items[id].status)
    requires RunOk(items, r, run) && (items[id].runId != Some(r) || !Terminal(status))
    ensures RunOk(items[id := items[id].(status := status)], r, run)
  {
    var items' := items[id := items[id].(status := status)];
    ResolveCounts(items, id, status, r, ItemCompleted);
    ResolveCounts(items, id, status, r, ItemFailed);
    if SomeDeadLetter(items, r) {
      var dead :| dead in items && items[dead].runId == Some(r) && items[dead].status == ItemFailed && items[dead].disposition.None?;
      assert items'[dead] == items[dead];
    }
  }

  lemma ResolveKeepsOwn(items: map<string, ItemRow>, id: string, status: ItemStatus, r: string, run: RunRow, now: int)
    requires id in items && !Terminal(items[id].status) && items[id].runId == Some(r) && Terminal(status)
    requires RunOk(items, r, run)
    ensures var items' := items[id := items[id].(status := status)];
            RunOk(items', r, Promoted(items', r, RolledUp(Counted(run, status), now), now))
  {
    var items' := items[id := items[id].(status := status)];
    ResolveCounts(items, id, status, r, ItemCompleted);
    ResolveCounts(items, id, status, r, ItemFailed);
    if SomeDeadLetter(items, r) {
      var dead :| dead in items && items[dead].runId == Some(r) && items[dead].status == ItemFailed && items[dead].disposition.None?;
      assert items'[dead] == items[dead];
    }
  }

  lemma StatusKeeps(db: Db, id: string, status: ItemStatus, now: int)
    requires RunsOk(db) && id in db.items && !Terminal(db.items[id].status)
    ensures RunsOk(AfterSetStatus(db, id, status, now))
  {
    forall r | r in db.runs
      ensures RunOk(AfterSetStatus(db, id, status, now).items, r, AfterSetStatus(db, id, status, now).runs[r])
    {
      StatusKeepsRun(db, id, status, now, r);
    }
    StatusKeepsLinks(db, id, status, now);
  }

  lemma StatusKeepsLinks(db: Db, id: string, status: ItemStatus, now: int)
    requires id in db.items
    ensures var db' := AfterSetStatus(db, id, status, now);
            && db'.capture == db.capture && db'.runs.Keys == db.runs.Keys && db'.items.Keys == db.items.Keys
            && forall other :: other in db.items ==> db'.items[other].runId == db.items[other].runId
  {
  }

  lemma StatusKeepsRun(db: Db, id: string, status: ItemStatus, now: int, r: string)
    requires RunsOk(db) && id in db.items && !Terminal(db.items[id].status) && r in db.runs
    ensures var db' := AfterSetStatus(db, id, status, now); r in db'.runs && RunOk(db'.items, r, db'.runs[r])
  {
    if db.items[id].runId == Some(r) && Terminal(status) {
      ResolveKeepsOwn(db.items, id, status, r, db.runs[r], now);
    } else {
      ResolveKeepsOthers(db.items, id, status, r, db.runs[r]);
    }
  }

  lemma NewItemCounts(items: map<string, ItemRow>, id: string, row: ItemRow, r: string, status: ItemStatus)
    requires id !in items && row.status == ItemRunning && Terminal(status)
    ensures ItemsWith(items[id := row], r, status) == ItemsWith(items, r, status)
  {
  }

  lemma NewItemKeeps(items: map<string, ItemRow>, id: string, row: ItemRow, r: string, run: RunRow)
    requires id !in items && row.status == ItemRunning && RunOk(items, r, run)
    ensures RunOk(items[id := row], r, run)
  {
    NewItemCounts(items, id, row, r, ItemCompleted);
    NewItemCounts(items, id, row, r, ItemFailed);
    if SomeDeadLetter(items, r) {
      var dead :| dead in items && items[dead].runId == Some(r) && items[dead].status == ItemFailed && items[dead].disposition.None?;
      assert items[id := row][dead] == items[dead];
    }
  }

  lemma NewRunOk(db: Db, r: string, total: int)
    requires RunsOk(db) && r !in db.runs
    ensures RunOk(db.items, r, RunRow(RunRunning, total, 0, 0, None))
  {
    assert ItemsWith(db.items, r, ItemCompleted) == {};
    assert ItemsWith(db.items, r, ItemFailed) == {};
  }

  lemma CreateKeeps(db: Db, id: string, invocation: Option<string>, customerId: Option<string>)
    requires RunsOk(db) && (invocation.Some? ==> invocation.value in db.runs)
    ensures RunsOk(AfterCreate(db, id, invocation, ItemRunning, customerId))
  {
    var db' := AfterCreate(db, id, invocation, ItemRunning, customerId);
    if SingleRunId(id) !in db.runs {
      NewRunOk(db, SingleRunId(id), 1);
    }
    forall r | r in db'.runs
      ensures RunOk(db'.items, r, db'.runs[r])
    {
      assert RunOk(db.items, r, db'.runs[r]);
      if id !in db.items {
        NewItemKeeps(db.items, id, db'.items[id], r, db'.runs[r]);
      }
    }
  }

  lemma StandingKeeps(items: map<string, ItemRow>, items': map<string, ItemRow>, r: string, run: RunRow)
    requires SameStanding(items, items') && RunOk(items, r, run)
    requires forall id :: id in items ==> items'[id].disposition == items[id].disposition
    ensures RunOk(items', r, run)
  {
    SameStandingSameCounts(items, items', r, ItemCompleted);
    SameStandingSameCounts(items, items', r, ItemFailed);
    if SomeDeadLetter(items, r) {
      var dead :| dead in items && items[dead].runId == Some(r) && items[dead].status == ItemFailed && items[dead].disposition.None?;
      assert dead in items' && items'[dead].disposition.None?;
    }
  }

  /** An operation that leaves the runs, and every item's run, status and triage. */
  lemma StandingKeepsRuns(db: Db, db': Db)
    requires RunsOk(db) && db'.capture == db.capture && db'.runs == db.runs && SameStanding(db.items, db'.items)
    requires forall id :: id in db.items ==> db'.items[id].disposition == db.items[id].disposition
    ensures RunsOk(db')
  {
    forall r | r in db'.runs
      ensures RunOk(db'.items, r, db'.runs[r])
    {
      StandingKeeps(db.items, db'.items, r, db.runs[r]);
    }
  }

  lemma SaveKeeps(db: Db, id: string, e: TaskEntry)
    requires RunsOk(db)
    ensures RunsOk(AfterSave(db, id, e))
  {
    StandingKeepsRuns(db, AfterSave(db, id, e));
  }

  lemma LinkKeeps(db: Db, id: string, source: string)
    requires RunsOk(db)
    ensures RunsOk(AfterLink(db, id, source))
  {
    StandingKeepsRuns(db, AfterLink(db, id, source));
  }

  lemma CreateRunKeeps(db: Db, r: string, total: int)
    requires RunsOk(db)
    ensures RunsOk(AfterCreateRun(db, r, total))
  {
    if r !in db.runs {
      NewRunOk(db, r, total);
    }
  }

  lemma FinalizeKeeps(db: Db, r: string, now: int)
    requires RunsOk(db)
    ensures RunsOk(AfterFinalize(db, r, now))
  {
  }

  /** Triage leaves every run's counts alone, and dead letters of other runs. */
  lemma TriageKeeps(items: map<string, ItemRow>, id: string, row: ItemRow, r: string, run: RunRow)
    requires id in items && row.runId == items[id].runId && row.status == items[id].status
    requires RunOk(items, r, run) && (items[id].runId != Some(r) || run.status != RunPartial)
    ensures RunOk(items[id := row], r, run)
  {
    var items' := items[id := row];
    SameStandingSameCounts(items, items', r, ItemCompleted);
    SameStandingSameCounts(items, items', r, ItemFailed);
    if run.status == RunPartial {
      var dead :| dead in items && items[dead].runId == Some(r) && items[dead].status == ItemFailed && items[dead].disposition.None?;
      assert items'[dead] == items[dead];
    }
  }

  /** The run whose item was triaged is promoted when that was its last dead letter. */
  lemma TriagePromotes(items: map<string, ItemRow>, id: string, row: ItemRow, r: string, run: RunRow, now: int)
    requires id in items && row.runId == items[id].runId && row.status == items[id].status
    requires RunOk(items, r, run)
    ensures RunOk(items[id := row], r, Promoted(items[id := row], r, run, now))
  {
    SameStandingSameCounts(items, items[id := row], r, ItemCompleted);
    SameStandingSameCounts(items, items[id := row], r, ItemFailed);
  }

  /** What triage makes of the item's row. */
  function Triaged(row: ItemRow, d: Disposition, from: Option<string>): ItemRow {
    if row.status == ItemFailed && row.disposition.None?
    then row.(disposition := Some(d), replayedFrom := if from.Some? then from else row.replayedFrom)
    else row
  }

  lemma DisposeIsTriage(db: Db, id: string, d: Disposition, from: Option<string>, now: int)
    requires id in db.items
    ensures AfterDispose(db, id, d, from, now).items == db.items[id := Triaged(db.items[id], d, from)]
  {
  }

  lemma DisposeKeeps(db: Db, id: string, d: Disposition, from: Option<string>, now: int)
    requires RunsOk(db)
    ensures RunsOk(AfterDispose(db, id, d, from, now))
  {
    if id in db.items {
      var db', row := AfterDispose(db, id, d, from, now), Triaged(db.items[id], d, from);
      DisposeIsTriage(db, id, d, from, now);
      forall r | r in db'.runs
        ensures RunOk(db'.items, r, db'.runs[r])
      {
        if db.items[id].runId == Some(r) {
          TriagePromotes(db.items, id, row, r, db.runs[r], now);
        } else {
          TriageKeeps(db.items, id, row, r, db.runs[r]);
        }
      }
    }
  }

  lemma OpKeepsRuns(db: Db, op: Op)
    requires RunsOk(db) && Allowed(db, op)
    ensures RunsOk(Apply(db, op))
  {
    match op {
      case OpCreate(id, invocation, customerId) => CreateKeeps(db, id, invocation, customerId);
      case OpSave(id, e) => SaveKeeps(db, id, e);
      case OpStatus(id, status, now) => StatusKeeps(db, id, status, now);
      case OpCreateRun(r, total) => CreateRunKeeps(db, r, total);
      case OpFinalize(r, now) => FinalizeKeeps(db, r, now);
      case OpDispose(id, d, from, now) => DisposeKeeps(db, id, d, from, now);
      case OpLink(id, source) => LinkKeeps(db, id, source);
      case _ =>
    }
  }

  // ---- how a run may move ----

  /** The only status changes are out of running, and from partial to completed; the
      completion time, once set, stays. */
  predicate Moves(before: RunRow, after: RunRow) {
    && (after.status == before.status || before.status == RunRunning
        || (before.status == RunPartial && after.status == RunCompleted))
    && (before.completedAt.Some? ==> after.completedAt == before.completedAt)
  }

  /** A run that closes has resolved as many items as it was sealed with, and its
      status says what became of them. */
  ghost predicate ClosesRightly(items: map<string, ItemRow>, r: string, after: RunRow) {
    && after.completed + after.failed >= after.total
    && (after.status == RunFailed <==> after.failed > 0 && after.completed == 0)
    && (after.status == RunPartial <==> after.failed > 0 && after.completed > 0 && SomeDeadLetter(items, r))
    && (after.status == RunCompleted <==> after.failed == 0 || (after.completed > 0 && !SomeDeadLetter(items, r)))
  }

  /** Only the finalization of a run sets its total, to the number of its items, and with
      all of them resolved it closes the run. */
  ghost predicate Seals(items: map<string, ItemRow>, op: Op, r: string, before: RunRow, after: RunRow) {
    if op.OpFinalize? && op.r == r then
      && after.total == |set id | id in items && items[id].runId == Some(r)|
      && (after.completed + after.failed >= after.total ==> after.status != RunRunning)
    else
      && after.total == before.total
      && (before.total == 0 && before.status == RunRunning ==> after.status == RunRunning)
  }

  /** A run closes when it is finalized or one of its items resolves, at that moment. */
  ghost predicate ClosedBy(items: map<string, ItemRow>, op: Op, r: string, after: RunRow) {
    || (op.OpFinalize? && op.r == r && after.completedAt == Some(op.now))
    || (op.OpStatus? && op.id in items && items[op.id].runId == Some(r) && after.completedAt == Some(op.now))
  }

  /** What one operation may do to one run. */
  ghost predicate RunStep(db: Db, op: Op, r: string)
    requires r in db.runs
  {
    var db' := Apply(db, op);
    && r in db'.runs
    && Moves(db.runs[r], db'.runs[r])
    && Seals(db.items, op, r, db.runs[r], db'.runs[r])
    && (db.runs[r].status == RunRunning && db'.runs[r].status != RunRunning ==>
          ClosesRightly(db'.items, r, db'.runs[r]) && ClosedBy(db.items, op, r, db'.runs[r]))
  }

  lemma ResolvedRunMoves(items: map<string, ItemRow>, r: string, run: RunRow, status: ItemStatus, now: int)
    requires run.completed >= 0 && run.failed >= 0 && Terminal(status)
    requires run.completedAt.None? <==> run.status == RunRunning
    ensures var after := Promoted(items, r, RolledUp(Counted(run, status), now), now);
            && Moves(run, after) && after.total == run.total
            && (run.status == RunRunning && after.status != RunRunning ==> ClosesRightly(items, r, after) && after.completedAt == Some(now))
            && (run.total == 0 && run.status == RunRunning ==> after.status == RunRunning)
  {
  }

  lemma StatusMoves(db: Db, id: string, status: ItemStatus, now: int, r: string)
    requires RunsOk(db) && Allowed(db, OpStatus(id, status, now)) && r in db.runs
    ensures RunStep(db, OpStatus(id, status, now), r)
  {
    assert RunOk(db.items, r, db.runs[r]);
    if Terminal(status) {
      ResolvedRunMoves(AfterSetStatus(db, id, status, now).items, r, db.runs[r], status, now);
    }
  }

  /** A run without items has nothing counted. */
  lemma NoItemsNothingCounted(items: map<string, ItemRow>, r: string, run: RunRow)
    requires RunOk(items, r, run) && |ItemsOf(items, r)| == 0
    ensures run.completed == 0 && run.failed == 0
  {
    assert ItemsWith(items, r, ItemCompleted) <= ItemsOf(items, r);
    assert ItemsWith(items, r, ItemFailed) <= ItemsOf(items, r);
    assert ItemsOf(items, r) == {};
  }

  lemma SealedRunMoves(items: map<string, ItemRow>, r: string, run: RunRow, now: int)
    requires RunOk(items, r, run)
    ensures var after := Promoted(items, r, Sealed(run, |ItemsOf(items, r)|, now), now);
            && Moves(run, after) && after.total == |ItemsOf(items, r)|
            && (after.completed + after.failed >= after.total ==> after.status != RunRunning)
            && (run.status == RunRunning && after.status != RunRunning ==> ClosesRightly(items, r, after) && after.completedAt == Some(now))
  {
    if |ItemsOf(items, r)| == 0 {
      NoItemsNothingCounted(items, r, run);
    }
  }

  lemma FinalizeMoves(db: Db, q: string, now: int, r: string)
    requires RunsOk(db) && r in db.runs
    ensures RunStep(db, OpFinalize(q, now), r)
  {
    assert RunOk(db.items, r, db.runs[r]);
    if q == r {
      SealedRunMoves(db.items, r, db.runs[r], now);
    } else {
      assert AfterFinalize(db, q, now).runs[r] == db.runs[r];
    }
  }

  lemma PromotionMoves(items: map<string, ItemRow>, r: string, run: RunRow, now: int)
    requires run.completedAt.None? <==> run.status == RunRunning
    ensures Moves(run, Promoted(items, r, run, now))
    ensures run.status == RunRunning ==> Promoted(items, r, run, now) == run
  {
  }

  lemma DisposeOnlyPromotes(db: Db, id: string, d: Disposition, from: Option<string>, now: int, r: string)
    requires r in db.runs
    ensures var db' := AfterDispose(db, id, d, from, now);
            r in db'.runs && (db'.runs[r] == db.runs[r] || db'.runs[r] == Promoted(db'.items, r, db.runs[r], now))
  {
  }

  /** Triage may promote a run and does nothing else to runs. */
  lemma DisposeMoves(db: Db, id: string, d: Disposition, from: Option<string>, now: int, r: string)
    requires RunsOk(db) && r in db.runs
    ensures RunStep(db, OpDispose(id, d, from, now), r)
  {
    assert RunOk(db.items, r, db.runs[r]);
    PromotionMoves(AfterDispose(db, id, d, from, now).items, r, db.runs[r], now);
    DisposeOnlyPromotes(db, id, d, from, now, r);
  }

  /** The remaining operations leave every known run as it is. */
  lemma OtherOpsLeaveRuns(db: Db, op: Op, r: string)
    requires r in db.runs && !op.OpStatus? && !op.OpFinalize? && !op.OpDispose?
    ensures r in Apply(db, op).runs && Apply(db, op).runs[r] == db.runs[r]
  {
  }

  lemma OtherOpsLeaveRunsRunning(db: Db, op: Op, r: string)
    requires RunsOk(db) && Allowed(db, op) && r in db.runs && !op.OpStatus? && !op.OpFinalize?
    ensures RunStep(db, op, r)
  {
    if op.OpDispose? {
      DisposeMoves(db, op.id, op.d, op.from, op.now, r);
    } else {
      OtherOpsLeaveRuns(db, op, r);
    }
  }

  lemma {:induction false} OpMovesRuns(db: Db, op: Op, r: string)
    requires RunsOk(db) && Allowed(db, op) && r in db.runs
    ensures RunStep(db, op, r)
  {
    match op {
      case OpStatus(id, status, now) => StatusMoves(db, id, status, now, r);
      case OpFinalize(q, now) => FinalizeMoves(db, q, now, r);
      case _ => OtherOpsLeaveRunsRunning(db, op, r);
    }
  }

  ghost predicate EveryRunStep(db: Db, ops: seq<Op>)
    decreases |ops|
  {
    ops == [] || ((forall r :: r in db.runs ==> RunStep(db, ops[0], r)) && EveryRunStep(Apply(db, ops[0]), ops[1..]))
  }

  lemma {:induction false} HistoryKeepsRuns(db: Db, ops: seq<Op>, last: Db)
    requires RunsOk(db) && History(db, ops, last)
    ensures RunsOk(last)
    ensures EveryRunStep(db, ops)
    decreases |ops|
  {
    if ops == [] {
    } else {
      OpKeepsRuns(db, ops[0]);
      forall r | r in db.runs
        ensures RunStep(db, ops[0], r)
      {
        OpMovesRuns(db, ops[0], r);
      }
      HistoryKeepsRuns(Apply(db, ops[0]), ops[1..], last);
    }
  }

  /** The run rollup over all histories of a new ledger: in every state it can reach
      every run's counters are the numbers of its terminal items, a sealed run whose items
      have resolved is closed, and every partial run has an untriaged failed item; and
      every step on the way moves a run only the ways listed, an open run staying open
      until it is finalized, with as many items as it then has. */
  lemma RollupStateMachine(envFence: Option<int>, ops: seq<Op>, last: Db)
    requires History(Fresh(envFence), ops, last)
    ensures RunsOk(last)
    ensures EveryRunStep(Fresh(envFence), ops)
  {
    FreshIsOk(envFence);
    HistoryKeepsRuns(Fresh(envFence), ops, last);
  }

  lemma FreshIsOk(envFence: Option<int>)
    ensures RunsOk(Fresh(envFence))
  {
  }

  lemma RewriteShrinks(items: map<string, ItemRow>, id: string, status: ItemStatus, r: string)
    requires id in items && items[id].runId == Some(r) && status != items[id].status
    ensures |ItemsWith(items[id := items[id].(status := status)], r, items[id].status)| + 1 == |ItemsWith(items, r, items[id].status)|
  {
    var items' := items[id := items[id].(status := status)];
    assert ItemsWith(items, r, items[id].status) == ItemsWith(items', r, items[id].status) + {id};
  }

  /** Writing to an item that has already resolved: the counters of its run survive
      exactly when the status is the one it has. */
  lemma RewritingATerminalItem(db: Db, id: string, status: ItemStatus, now: int)
    requires RunsOk(db) && id in db.items && Terminal(db.items[id].status) && db.items[id].runId.Some?
    ensures RunsOk(AfterSetStatus(db, id, status, now)) <==> status == db.items[id].status
  {
    var r, cur, db' := db.items[id].runId.value, db.items[id].status, AfterSetStatus(db, id, status, now);
    if status == cur {
      assert db'.items == db.items;
    } else {
      RewriteShrinks(db.items, id, status, r);
      assert RunOk(db.items, r, db.runs[r]);
      assert db'.runs[r] == db.runs[r];
    }
  }
}
