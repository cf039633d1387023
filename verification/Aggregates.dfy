/** The item's incremental aggregates are what a recomputation over its rows would
    give, whatever was delivered, how often and in which order. */
module Aggregates {
  import opened Types
  import opened Latest
  import opened Ledger
  import opened SqliteSpec
  import opened StoreRuns

  /** How many rows are not ok. */
  function NotOk(rows: seq<TaskEntry>): nat {
    if rows == [] then 0
    else NotOk(rows[..|rows| - 1]) + (if rows[|rows| - 1].outcome == OutcomeOk then 0 else 1)
  }

  /** `w` has the maximum severity over the rows, and is ok or one of their statuses. */
  ghost predicate IsWorst(rows: seq<TaskEntry>, w: Outcome) {
    && (forall e :: e in rows ==> Severity(e.outcome) <= Severity(w))
    && (w == OutcomeOk || (Severity(w) > 0 && exists e :: e in rows && e.outcome == w))
  }

  ghost predicate ItemAggregated(db: Db, id: string) {
    && Distinct(RowsOf(db.steps, id))
    && if id in db.items then
         db.items[id].degraded == NotOk(RowsOf(db.steps, id)) && IsWorst(RowsOf(db.steps, id), db.items[id].worst)
       else RowsOf(db.steps, id) == []
  }

  ghost predicate AllAggregated(db: Db) {
    forall id :: ItemAggregated(db, id)
  }

  lemma RowsAfterSave(db: Db, id: string, e: TaskEntry, other: string)
    ensures RowsOf(AfterSave(db, id, e).steps, other) ==
            if other != id || Known(RowsOf(db.steps, id), e) then RowsOf(db.steps, other)
            else RowsOf(db.steps, other) + [Persisted(e)]
  {
    var row := StepRow(id, Persisted(e));
    assert (db.steps + [row])[..|db.steps|] == db.steps;
  }

  /** Saving to one item is saving to its own row list. */
  lemma SaveIsSaveRow(db: Db, id: string, e: TaskEntry)
    ensures RowsOf(AfterSave(db, id, e).steps, id) == SaveRow(RowsOf(db.steps, id), Persisted(e))
  {
    RowsAfterSave(db, id, e, id);
    assert Known(RowsOf(db.steps, id), e) <==> Known(RowsOf(db.steps, id), Persisted(e));
  }

  lemma WorseIsWorst(rows: seq<TaskEntry>, w: Outcome, e: TaskEntry)
    requires IsWorst(rows, w)
    ensures IsWorst(rows + [e], Worse(e.outcome, w))
  {
    assert forall f :: f in rows + [e] <==> f in rows || f == e;
    assert (rows + [e])[|rows|] == e;
  }

  lemma OneMoreDistinct(rows: seq<TaskEntry>, e: TaskEntry)
    requires Distinct(rows) && !Known(rows, e)
    ensures Distinct(rows + [Persisted(e)])
  {
  }

  lemma OneMoreNotOk(rows: seq<TaskEntry>, e: TaskEntry)
    ensures NotOk(rows + [Persisted(e)]) == NotOk(rows) + (if e.outcome == OutcomeOk then 0 else 1)
  {
    assert (rows + [Persisted(e)])[..|rows|] == rows;
  }

  lemma SaveAggregates(db: Db, id: string, e: TaskEntry)
    requires ItemAggregated(db, id) && id in db.items
    ensures ItemAggregated(AfterSave(db, id, e), id)
  {
    var rows := RowsOf(db.steps, id);
    RowsAfterSave(db, id, e, id);
    if !Known(rows, e) {
      WorseIsWorst(rows, db.items[id].worst, Persisted(e));
      OneMoreNotOk(rows, e);
      OneMoreDistinct(rows, e);
    }
  }

  lemma SaveKeepsAggregates(db: Db, id: string, e: TaskEntry)
    requires AllAggregated(db) && id in db.items
    ensures AllAggregated(AfterSave(db, id, e))
  {
    forall other
      ensures ItemAggregated(AfterSave(db, id, e), other)
    {
      assert ItemAggregated(db, other);
      if other == id {
        SaveAggregates(db, id, e);
      } else {
        RowsAfterSave(db, id, e, other);
      }
    }
  }

  lemma StatusKeepsTheAggregates(db: Db, other: string, status: ItemStatus, now: int, id: string)
    ensures var db' := AfterSetStatus(db, other, status, now);
            && db'.steps == db.steps && (id in db'.items <==> id in db.items)
            && (id in db.items ==> db'.items[id].worst == db.items[id].worst && db'.items[id].degraded == db.items[id].degraded)
  {
  }

  lemma DisposeKeepsTheAggregates(db: Db, other: string, d: Disposition, from: Option<string>, now: int, id: string)
    ensures var db' := AfterDispose(db, other, d, from, now);
            && db'.steps == db.steps && (id in db'.items <==> id in db.items)
            && (id in db.items ==> db'.items[id].worst == db.items[id].worst && db'.items[id].degraded == db.items[id].degraded)
  {
  }

  lemma OtherOpsKeepTheAggregates(db: Db, op: Op, id: string)
    requires !op.OpSave?
    ensures Apply(db, op).steps == db.steps
    ensures id in db.items ==>
              && id in Apply(db, op).items
              && Apply(db, op).items[id].worst == db.items[id].worst && Apply(db, op).items[id].degraded == db.items[id].degraded
    ensures id !in db.items && id in Apply(db, op).items ==>
              Apply(db, op).items[id].worst == OutcomeOk && Apply(db, op).items[id].degraded == 0
  {
    match op {
      case OpStatus(other, status, now) => StatusKeepsTheAggregates(db, other, status, now, id);
      case OpDispose(other, d, from, now) => DisposeKeepsTheAggregates(db, other, d, from, now, id);
      case _ =>
    }
  }

  lemma OtherOpsKeepAggregates(db: Db, op: Op)
    requires AllAggregated(db) && !op.OpSave?
    ensures AllAggregated(Apply(db, op))
  {
    forall id
      ensures ItemAggregated(Apply(db, op), id)
    {
      assert ItemAggregated(db, id);
      OtherOpsKeepTheAggregates(db, op, id);
    }
  }

  lemma {:induction false} HistoryKeepsAggregates(db: Db, ops: seq<Op>, last: Db)
    requires AllAggregated(db) && History(db, ops, last)
    ensures AllAggregated(last)
    decreases |ops|
  {
    if ops == [] {
    } else {
      if ops[0].OpSave? {
        SaveKeepsAggregates(db, ops[0].id, ops[0].e);
      } else {
        OtherOpsKeepAggregates(db, ops[0]);
      }
      HistoryKeepsAggregates(Apply(db, ops[0]), ops[1..], last);
    }
  }

  /** In every state a new ledger can reach, the stored aggregates of every item equal
      a recomputation over its rows, and no execution is stored twice. */
  lemma AggregatesAreRecomputed(envFence: Option<int>, ops: seq<Op>, last: Db)
    requires History(Fresh(envFence), ops, last)
    ensures AllAggregated(last)
  {
    HistoryKeepsAggregates(Fresh(envFence), ops, last);
  }

  /** The worst status of a list of rows: failed if any has failed, else degraded if any has
      degraded, else ok; statuses of other kinds count for ok. */
  lemma WorstMeaning(rows: seq<TaskEntry>, w: Outcome)
    requires IsWorst(rows, w)
    ensures w == if exists e :: e in rows && e.outcome == OutcomeFailed then OutcomeFailed
                 else if exists e :: e in rows && e.outcome == OutcomeDegraded then OutcomeDegraded
                 else OutcomeOk
  {
  }

  /** The rows that are not ok, by their places. */
  function PlacesNotOk(rows: seq<TaskEntry>): set<nat> {
    set i: nat | i < |rows| && rows[i].outcome != OutcomeOk
  }

  lemma {:induction false} NotOkMeaning(rows: seq<TaskEntry>)
    ensures NotOk(rows) == |PlacesNotOk(rows)|
  {
    if rows == [] {
    } else {
      var n := |rows| - 1;
      var init := rows[..n];
      NotOkMeaning(init);
      if rows[n].outcome == OutcomeOk {
        assert PlacesNotOk(rows) == PlacesNotOk(init);
      } else {
        assert PlacesNotOk(rows) == PlacesNotOk(init) + {n};
      }
    }
  }

  /** So in every state a new ledger can reach: the item counts its rows that are not ok, and
      its worst status is failed, degraded or ok as the most severe of them. */
  lemma AggregatesMeaning(envFence: Option<int>, ops: seq<Op>, last: Db, id: string)
    requires History(Fresh(envFence), ops, last) && id in last.items
    ensures var rows := RowsOf(last.steps, id);
            && last.items[id].degraded == |set i: nat | i < |rows| && rows[i].outcome != OutcomeOk|
            && last.items[id].worst == if exists e :: e in rows && e.outcome == OutcomeFailed then OutcomeFailed
                                       else if exists e :: e in rows && e.outcome == OutcomeDegraded then OutcomeDegraded
                                       else OutcomeOk
  {
    AggregatesAreRecomputed(envFence, ops, last);
    assert ItemAggregated(last, id);
    NotOkMeaning(RowsOf(last.steps, id));
    WorstMeaning(RowsOf(last.steps, id), last.items[id].worst);
  }

  lemma {:induction false} NotOkCounts(rows: seq<TaskEntry>)
    ensures NotOk(rows) == 0 <==> forall e :: e in rows ==> e.outcome == OutcomeOk
  {
    if rows == [] {
    } else {
      var init, e := rows[..|rows| - 1], rows[|rows| - 1];
      assert rows == init + [e];
      NotOkCounts(init);
    }
  }

  /** An item created over rows saved before it starts from zero, which is right
      exactly when all of those rows are ok. */
  lemma LateCreateIsAggregated(db: Db, id: string, invocation: Option<string>, status: ItemStatus, customerId: Option<string>)
    requires id !in db.items && Distinct(RowsOf(db.steps, id))
    ensures ItemAggregated(AfterCreate(db, id, invocation, status, customerId), id) <==>
            forall e :: e in RowsOf(db.steps, id) ==> e.outcome == OutcomeOk
  {
    NotOkCounts(RowsOf(db.steps, id));
  }
}
