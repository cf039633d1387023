/** What an item saves to the local ledger is what it loads.
    About `save_task` and `load` of src/papayya/durable/sqlite_store.py. */
module Loaded {
  import opened Types
  import opened Ledger
  import opened SqliteSpec
  import opened StoreRuns
  import opened Aggregates

  /** The executions one operation hands over. */
  function SavedBy(op: Op, id: string): seq<TaskEntry> {
    if op.OpSave? && op.id == id then [op.e] else []
  }

  /** The executions handed to the ledger for one item, in order, redeliveries included. */
  function SavedTo(ops: seq<Op>, id: string): seq<TaskEntry> {
    if ops == [] then []
    else SavedBy(ops[0], id) + SavedTo(ops[1..], id)
  }

  /** `row` is the execution `saved`, but for what the table has no columns for. */
  predicate SameExecution(saved: TaskEntry, row: TaskEntry) {
    && row.key == saved.key && row.attempt == saved.attempt && row.token == saved.token
    && row.result == saved.result && row.completedAt == saved.completedAt && row.itemId == saved.itemId
    && row.outcome == saved.outcome && row.reason == saved.reason
    && row.taintedBy == saved.taintedBy && row.taintedReason == saved.taintedReason
    && row.retryCount == 0 && row.reusedFrom == None
  }

  ghost predicate SameExecutions(saved: seq<TaskEntry>, rows: seq<TaskEntry>) {
    |rows| == |saved| && forall i :: 0 <= i < |rows| ==> SameExecution(saved[i], rows[i])
  }

  lemma SameExecutionsKnowTheSame(saved: seq<TaskEntry>, rows: seq<TaskEntry>, e: TaskEntry)
    requires SameExecutions(saved, rows)
    ensures Known(rows, e) <==> Known(saved, e)
  {
    forall i | 0 <= i < |rows|
      ensures IdentityOf(rows[i]) == IdentityOf(saved[i])
    {
      assert SameExecution(saved[i], rows[i]);
    }
  }

  lemma SaveKeepsExecutions(db: Db, id: string, e: TaskEntry, before: seq<TaskEntry>)
    requires SameExecutions(Deliver([], before), RowsOf(db.steps, id))
    ensures SameExecutions(Deliver([], before + [e]), RowsOf(AfterSave(db, id, e).steps, id))
  {
    assert (before + [e])[..|before|] == before;
    SameExecutionsKnowTheSame(Deliver([], before), RowsOf(db.steps, id), e);
    RowsAfterSave(db, id, e, id);
  }

  lemma OpKeepsExecutions(db: Db, op: Op, id: string, before: seq<TaskEntry>)
    requires SameExecutions(Deliver([], before), RowsOf(db.steps, id))
    ensures SameExecutions(Deliver([], before + SavedBy(op, id)), RowsOf(Apply(db, op).steps, id))
  {
    assert before + [] == before;
    if op.OpSave? {
      if op.id == id {
        SaveKeepsExecutions(db, id, op.e, before);
      } else {
        RowsAfterSave(db, op.id, op.e, id);
      }
    } else {
      OtherOpsKeepTheAggregates(db, op, id);
    }
  }

  lemma OneAfterTheOther(a: seq<TaskEntry>, b: seq<TaskEntry>, c: seq<TaskEntry>)
    ensures a + b + c == a + (b + c)
  {
  }

  lemma SavedNext(before: seq<TaskEntry>, ops: seq<Op>, id: string)
    requires ops != []
    ensures before + SavedBy(ops[0], id) + SavedTo(ops[1..], id) == before + SavedTo(ops, id)
  {
    OneAfterTheOther(before, SavedBy(ops[0], id), SavedTo(ops[1..], id));
  }

  lemma {:induction false} HistoryKeepsExecutions(db: Db, ops: seq<Op>, last: Db, id: string, before: seq<TaskEntry>)
    requires History(db, ops, last) && SameExecutions(Deliver([], before), RowsOf(db.steps, id))
    ensures SameExecutions(Deliver([], before + SavedTo(ops, id)), RowsOf(last.steps, id))
    decreases |ops|
  {
    if ops == [] {
      assert before + [] == before;
    } else {
      OpKeepsExecutions(db, ops[0], id, before);
      HistoryKeepsExecutions(Apply(db, ops[0]), ops[1..], last, id, before + SavedBy(ops[0], id));
      SavedNext(before, ops, id);
    }
  }

  /** In every history a new ledger can have: the rows an item loads are, in order, the
      executions saved for it whose identity had not been saved before, each as it was
      saved. */
  lemma LoadedIsWhatWasSaved(envFence: Option<int>, ops: seq<Op>, last: Db, id: string)
    requires History(Fresh(envFence), ops, last)
    ensures var kept, rows := Deliver([], SavedTo(ops, id)), RowsOf(last.steps, id);
            |rows| == |kept| && forall i :: 0 <= i < |rows| ==> SameExecution(kept[i], rows[i])
  {
    HistoryKeepsExecutions(Fresh(envFence), ops, last, id, []);
    assert [] + SavedTo(ops, id) == SavedTo(ops, id);
  }
}
