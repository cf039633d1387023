/** The life of an item row in the local ledger, and of the run a direct call gets.
    Models src/papayya/durable/sqlite_store.py. */
module ItemRows {
  import opened Types
  import opened Ledger
  import opened SqliteSpec
  import opened StoreRuns
  import opened Rollup

  // ---- what an operation does to an item ----

  /** `op` decides on a failed item that nobody has decided on. */
  predicate Decides(op: Op, id: string, before: ItemRow) {
    op.OpDispose? && op.id == id && before.status == ItemFailed && before.disposition == None
  }

  /** `op` saves an execution the item has no row for. */
  predicate SavesAnew(db: Db, op: Op, id: string) {
    op.OpSave? && op.id == id && !Known(RowsOf(db.steps, id), op.e)
  }

  /** What one operation may do to a known item: the status is the one last set, the first
      decision on a failed item stands, the link is the one last made, and the run is the
      one it was created in. */
  ghost predicate ItemStep(op: Op, id: string, before: ItemRow, after: ItemRow) {
    && after.runId == before.runId
    && after.status == (if op.OpStatus? && op.id == id then op.status else before.status)
    && after.disposition == (if Decides(op, id, before) then Some(op.d) else before.disposition)
    && after.replayedFrom == if op.OpLink? && op.id == id then Some(op.source)
                             else if Decides(op, id, before) && op.from.Some? then op.from
                             else before.replayedFrom
  }

  /** What a save does to it: the first item id becomes the customer's, and the aggregates
      go up, the worst status to the more severe one. */
  ghost predicate SaveStep(db: Db, op: Op, id: string, before: ItemRow, after: ItemRow) {
    if SavesAnew(db, op, id) then
      && after.customerId == (if before.customerId.Some? then before.customerId else op.e.itemId)
      && after.degraded == before.degraded + (if op.e.outcome == OutcomeOk then 0 else 1)
      && (after.worst == before.worst || after.worst == op.e.outcome)
      && Severity(after.worst) >= Severity(before.worst) && Severity(after.worst) >= Severity(op.e.outcome)
    else
      after.customerId == before.customerId && after.degraded == before.degraded && after.worst == before.worst
  }

  lemma StatusItemStep(db: Db, other: string, status: ItemStatus, now: int, id: string)
    requires id in db.items
    ensures AfterSetStatus(db, other, status, now).items ==
            if other in db.items then db.items[other := db.items[other].(status := status)] else db.items
  {
  }

  lemma DisposeItemStep(db: Db, other: string, d: Disposition, from: Option<string>, now: int, id: string)
    requires id in db.items
    ensures var op, items := OpDispose(other, d, from, now), AfterDispose(db, other, d, from, now).items;
            id in items && ItemStep(op, id, db.items[id], items[id]) && SaveStep(db, op, id, db.items[id], items[id])
  {
    if other in db.items {
      DisposeIsTriage(db, other, d, from, now);
    }
  }

  lemma SaveItemStep(db: Db, other: string, e: TaskEntry, id: string)
    requires id in db.items
    ensures var op, items := OpSave(other, e), AfterSave(db, other, e).items;
            id in items && ItemStep(op, id, db.items[id], items[id]) && SaveStep(db, op, id, db.items[id], items[id])
  {
  }

  /** Every operation of a history changes an item as listed, and leaves the others. */
  lemma ItemChangesOnlyAsAsked(db: Db, op: Op, id: string)
    requires id in db.items
    ensures id in Apply(db, op).items
    ensures ItemStep(op, id, db.items[id], Apply(db, op).items[id])
    ensures SaveStep(db, op, id, db.items[id], Apply(db, op).items[id])
  {
    match op {
      case OpStatus(other, status, now) => StatusItemStep(db, other, status, now, id);
      case OpDispose(other, d, from, now) => DisposeItemStep(db, other, d, from, now, id);
      case OpSave(other, e) => SaveItemStep(db, other, e, id);
      case _ =>
    }
  }

  /** An item comes from its creation, running, in the run named or, for a direct call with
      capture on, in one of its own, and without rows counted against it. */
  lemma ItemIsCreated(db: Db, op: Op, id: string)
    requires id !in db.items && id in Apply(db, op).items
    ensures op.OpCreate? && op.id == id
    ensures Apply(db, op).items[id] ==
            ItemRow(ItemRunning, if op.invocation.Some? || !db.capture then op.invocation else Some("single-" + id),
                    op.customerId, OutcomeOk, 0, None, None)
  {
    match op {
      case OpDispose(other, d, from, now) =>
        if other in db.items {
          DisposeIsTriage(db, other, d, from, now);
        }
      case _ =>
    }
  }

  /** A run is opened by name, for as many items as said, or for the one item of a direct
      call; running, with nothing counted. */
  lemma RunIsOpened(db: Db, op: Op, r: string)
    requires r !in db.runs && r in Apply(db, op).runs
    ensures || (op.OpCreateRun? && op.r == r && Apply(db, op).runs[r] == RunRow(RunRunning, op.total, 0, 0, None))
            || (op.OpCreate? && op.invocation == None && r == "single-" + op.id && Apply(db, op).runs[r] == RunRow(RunRunning, 1, 0, 0, None))
  {
  }

  /** With capture off no item opens, counts in or closes a run: only the operations on
      runs themselves, and triage, touch them. */
  lemma CaptureOffLeavesRuns(db: Db, op: Op)
    requires !db.capture && !op.OpCreateRun? && !op.OpFinalize? && !op.OpDispose?
    ensures Apply(db, op).runs == db.runs && !Apply(db, op).capture
  {
  }

  /** Over every history: an item stays in its run, the customer id it has once got and the
      first decision about it stand, and its worst status never gets milder. */
  lemma {:induction false} ItemKeeps(db: Db, ops: seq<Op>, last: Db, id: string)
    requires History(db, ops, last) && id in db.items
    ensures id in last.items && last.items[id].runId == db.items[id].runId
    ensures db.items[id].customerId.Some? ==> last.items[id].customerId == db.items[id].customerId
    ensures db.items[id].disposition.Some? ==> last.items[id].disposition == db.items[id].disposition
    ensures Severity(last.items[id].worst) >= Severity(db.items[id].worst) && last.items[id].degraded >= db.items[id].degraded
    decreases |ops|
  {
    if ops == [] {
    } else {
      ItemChangesOnlyAsAsked(db, ops[0], id);
      ItemKeeps(Apply(db, ops[0]), ops[1..], last, id);
    }
  }

  // ---- the run of a direct call ----

  /** The item is the only one of its own run, which is as it was opened. */
  ghost predicate OnItsOwn(db: Db, id: string) {
    var r := "single-" + id;
    && id in db.items && db.items[id].runId == Some(r) && !Terminal(db.items[id].status)
    && (forall other :: other in db.items && other != id ==> db.items[other].runId != Some(r))
    && r in db.runs && db.runs[r] == RunRow(RunRunning, 1, 0, 0, None)
    && db.capture
  }

  /** `op` neither ends the item, nor finalizes its run, nor puts another item into it. */
  predicate Apart(op: Op, id: string) {
    match op
    case OpStatus(other, status, _) => other != id || !Terminal(status)
    case OpFinalize(r, _) => r != "single-" + id
    case OpCreate(_, invocation, _) => invocation != Some("single-" + id)
    case _ => true
  }

  lemma SingleIdsDiffer(a: string, b: string)
    ensures SingleRunId(a) == "single-" + b <==> a == b
  {
    assert SingleRunId(a)[|"single-"|..] == a;
    assert ("single-" + b)[|"single-"|..] == b;
  }

  lemma ApartKeepsItems(db: Db, op: Op, id: string)
    requires OnItsOwn(db, id) && Allowed(db, op) && Apart(op, id)
    ensures var items := Apply(db, op).items;
            && id in items && items[id].runId == Some("single-" + id) && !Terminal(items[id].status)
            && forall other :: other in items && other != id ==> items[other].runId != Some("single-" + id)
  {
    ItemChangesOnlyAsAsked(db, op, id);
    forall other | other in Apply(db, op).items && other != id
      ensures Apply(db, op).items[other].runId != Some("single-" + id)
    {
      SingleIdsDiffer(other, id);
      if other in db.items {
        ItemChangesOnlyAsAsked(db, op, other);
      } else {
        ItemIsCreated(db, op, other);
      }
    }
  }

  lemma ApartKeepsRun(db: Db, op: Op, id: string)
    requires OnItsOwn(db, id) && Allowed(db, op) && Apart(op, id)
    ensures "single-" + id in Apply(db, op).runs && Apply(db, op).runs["single-" + id] == RunRow(RunRunning, 1, 0, 0, None)
  {
    if op.OpDispose? {
      DisposeOnlyPromotes(db, op.id, op.d, op.from, op.now, "single-" + id);
    }
  }

  lemma {:induction false} ApartHistory(db: Db, ops: seq<Op>, last: Db, id: string)
    requires OnItsOwn(db, id) && History(db, ops, last) && forall i :: 0 <= i < |ops| ==> Apart(ops[i], id)
    ensures OnItsOwn(last, id)
    decreases |ops|
  {
    if ops == [] {
    } else {
      ApartKeepsItems(db, ops[0], id);
      ApartKeepsRun(db, ops[0], id);
      ApartHistory(Apply(db, ops[0]), ops[1..], last, id);
    }
  }

  lemma CreatedOnItsOwn(db: Db, id: string, customerId: Option<string>)
    requires RunsOk(db) && id !in db.items && "single-" + id !in db.runs
    ensures OnItsOwn(Apply(db, OpCreate(id, None, customerId)), id)
  {
  }

  /** A direct call has a run of its own, which closes with it: whatever else happens to the
      ledger in between, when the item resolves its run is completed or failed as it is, at
      that moment. */
  lemma DirectCallCloses(db: Db, id: string, customerId: Option<string>, ops: seq<Op>, mid: Db, status: ItemStatus, now: int)
    requires RunsOk(db) && id !in db.items && "single-" + id !in db.runs
    requires History(Apply(db, OpCreate(id, None, customerId)), ops, mid) && forall i :: 0 <= i < |ops| ==> Apart(ops[i], id)
    requires status == ItemCompleted || status == ItemFailed
    ensures var runs := Apply(mid, OpStatus(id, status, now)).runs;
            && "single-" + id in runs
            && runs["single-" + id].status == (if status == ItemCompleted then RunCompleted else RunFailed)
            && runs["single-" + id].completedAt == Some(now)
  {
    CreatedOnItsOwn(db, id, customerId);
    ApartHistory(Apply(db, OpCreate(id, None, customerId)), ops, mid, id);
  }
}
