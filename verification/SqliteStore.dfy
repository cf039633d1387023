/** The store object: each method writes its tables statement by statement and is
    proved to amount to one transition of SqliteSpec.
    Models `SQLiteStore` in src/papayya/durable/sqlite_store.py. */
module SqliteStore {
  import opened Types
  import opened Latest
  import opened Ledger
  import opened SqliteSpec

  class SQLiteStore {
    var steps: seq<StepRow>
    var items: map<string, ItemRow>
    var runs: map<string, RunRow>
    var pendingPauses: map<string, PauseReason>
    var runFences: map<string, int>
    const envFence: Option<int>
    const capture: bool

    function State(): Db
      reads this
    {
      Db(steps, items, runs, pendingPauses, runFences, envFence, capture)
    }

    constructor (envFence: Option<int>, capture: bool)
      ensures State() == Db([], map[], map[], map[], map[], envFence, capture)
    {
      steps, items, runs := [], map[], map[];
      pendingPauses, runFences := map[], map[];
      this.envFence := envFence;
      this.capture := capture;
    }

    method SetRunFence(id: string, k: int)
      modifies this`runFences
      ensures State() == AfterSetFence(old(State()), id, k)
    {
      runFences := runFences[id := k];
    }

    function PendingPause(id: string): Option<PauseReason>
      reads this
    {
      if id in pendingPauses then Some(pendingPauses[id]) else None
    }

    method ClearPendingPause(id: string)
      modifies this`pendingPauses
      ensures State() == AfterClearPause(old(State()), id)
      ensures PendingPause(id) == None
    {
      pendingPauses := pendingPauses - {id};
    }

    /** The stored executions of an item, in insertion order. */
    method Load(id: string) returns (tasks: Option<seq<TaskEntry>>)
      ensures tasks == if id in items then Some(RowsOf(steps, id)) else None
    {
      if id !in items {
        return None;
      }
      var out := StepRows(id);
      tasks := Some(out);
    }

    method StepRows(id: string) returns (out: seq<TaskEntry>)
      ensures out == RowsOf(steps, id)
    {
      out := [];
      for i := 0 to |steps|
        invariant out == RowsOf(steps[..i], id)
      {
        assert steps[..i + 1][..i] == steps[..i];
        if steps[i].item == id {
          out := out + [steps[i].entry];
        }
      }
      assert steps[..|steps|] == steps;
    }

    /** The guard's two queries: by token, or by label among rows without one. */
    method AlreadyStored(id: string, e: TaskEntry) returns (already: bool)
      ensures already <==> Known(RowsOf(steps, id), e)
    {
      var rows := StepRows(id);
      if e.token != "" {
        already := exists i :: 0 <= i < |rows| && rows[i].token == e.token;
      } else {
        already := exists i :: 0 <= i < |rows| && rows[i].key == e.key && rows[i].token == "";
      }
    }

    /** The last `k` rows exist and none of them is ok. */
    method StreakOf(id: string, k: int) returns (tripped: bool)
      requires k > 0
      ensures tripped <==> TrailingBad(RowsOf(steps, id)) >= k
    {
      var rows := StepRows(id);
      var recent := if |rows| < k then rows else rows[|rows| - k..];
      LastRowsBad(rows, k);
      tripped := |recent| == k && forall i :: 0 <= i < |recent| ==> recent[i].outcome != OutcomeOk;
    }

    method SaveTask(id: string, e: TaskEntry)
      modifies this`steps, this`items, this`pendingPauses
      ensures State() == AfterSave(old(State()), id, e)
    {
      var already := AlreadyStored(id, e);
      if already {
        return;
      }
      ghost var before := State();
      SavedRow(before, id, e);
      steps := steps + [StepRow(id, Persisted(e))];
      Aggregate(id, e);
      EvaluateFence(id, e);
    }

    method Aggregate(id: string, e: TaskEntry)
      modifies this`items
      ensures items == if id in old(items) then old(items)[id := Aggregated(old(items)[id], e)] else old(items)
    {
      if id in items {
        var row := items[id];
        if e.itemId.Some? && row.customerId.None? {
          row := row.(customerId := e.itemId);
        }
        var nextStatus := if Severity(e.outcome) > Severity(row.worst) then e.outcome else row.worst;
        var nextCount := row.degraded + (if e.outcome == OutcomeOk then 0 else 1);
        items := items[id := row.(worst := nextStatus, degraded := nextCount)];
      }
    }

    /** Set the pause once the stored rows end in enough degraded ones. */
    method EvaluateFence(id: string, e: TaskEntry)
      requires e.outcome == OutcomeOk ==> TrailingBad(RowsOf(steps, id)) == 0
      modifies this`pendingPauses
      ensures pendingPauses ==
              var k := FenceFor(State(), id);
              if k > 0 && id !in old(pendingPauses) && TrailingBad(RowsOf(steps, id)) >= k
              then old(pendingPauses)[id := PauseReason(k, Detail(e))] else old(pendingPauses)
    {
      var k := ResolveK(id);
      if k > 0 && e.outcome != OutcomeOk && id !in pendingPauses {
        var tripped := StreakOf(id, k);
        if tripped {
          var detail := if e.reason.Some? && e.reason.value != "" then Because(e.reason.value) else Status(e.outcome);
          pendingPauses := pendingPauses[id := PauseReason(k, detail)];
        }
      }
    }

    function ResolveK(id: string): int
      reads this
      ensures ResolveK(id) == FenceFor(State(), id)
    {
      if envFence.Some? then envFence.value else if id in runFences then runFences[id] else 3
    }

    method SetStatus(id: string, status: ItemStatus, now: int)
      modifies this`items, this`runs
      ensures State() == AfterSetStatus(old(State()), id, status, now)
    {
      if id !in items {
        return;
      }
      var row := items[id];
      items := items[id := row.(status := status)];
      if capture && row.runId.Some? && !Terminal(row.status) && Terminal(status) {
        var r := row.runId.value;
        if r in runs {
          if status == ItemCompleted {
            runs := runs[r := runs[r].(completed := runs[r].completed + 1)];
          } else {
            runs := runs[r := runs[r].(failed := runs[r].failed + 1)];
          }
        }
        RollUp(r, now);
        PromotePartialIfDrained(r, now);
      }
    }

    /** Close run `r` if it is sealed, open-ended no more, and fully resolved. */
    method RollUp(r: string, now: int)
      modifies this`runs
      ensures runs == if r in old(runs) then old(runs)[r := RolledUp(old(runs)[r], now)] else old(runs)
    {
      if r in runs {
        var run := runs[r];
        if run.completedAt.None? && run.total > 0 && run.completed + run.failed >= run.total {
          var status := if run.failed == 0 then RunCompleted else if run.completed == 0 then RunFailed else RunPartial;
          runs := runs[r := run.(status := status, completedAt := Some(now))];
        }
      }
    }

    method PromotePartialIfDrained(r: string, now: int)
      modifies this`runs
      ensures runs == if r in old(runs) then old(runs)[r := Promoted(items, r, old(runs)[r], now)] else old(runs)
    {
      if r in runs && runs[r].status == RunPartial {
        if !exists id :: id in items && items[id].runId == Some(r) && items[id].status == ItemFailed && items[id].disposition.None? {
          var at := if runs[r].completedAt.None? then Some(now) else runs[r].completedAt;
          runs := runs[r := runs[r].(status := RunCompleted, completedAt := at)];
        }
      }
    }

    method Create(id: string, invocation: Option<string>, status: ItemStatus, customerId: Option<string>) returns (ok: bool)
      modifies this`items, this`runs
      ensures State() == AfterCreate(old(State()), id, invocation, status, customerId)
      ensures ok <==> id !in old(items)
    {
      var runId := invocation;
      if runId.None? && capture {
        var single := "single-" + id;
        runId := Some(single);
        if single !in runs {
          runs := runs[single := RunRow(RunRunning, 1, 0, 0, None)];
        }
      }
      if id in items {
        return false;
      }
      items := items[id := ItemRow(status, runId, customerId, OutcomeOk, 0, None, None)];
      ok := true;
    }

    method CreateRun(r: string, total: int) returns (ok: bool)
      modifies this`runs
      ensures State() == AfterCreateRun(old(State()), r, total)
      ensures ok <==> r !in old(runs)
    {
      if r in runs {
        return false;
      }
      runs := runs[r := RunRow(RunRunning, total, 0, 0, None)];
      ok := true;
    }

    method FinalizeRun(r: string, now: int)
      modifies this`runs
      ensures State() == AfterFinalize(old(State()), r, now)
    {
      if r in runs {
        var count := |set id | id in items && items[id].runId == Some(r)|;
        runs := runs[r := runs[r].(total := count)];
      }
      RollUp(r, now);
      if r in runs && runs[r].total == 0 && runs[r].completedAt.None? {
        runs := runs[r := runs[r].(status := RunCompleted, completedAt := Some(now))];
      }
      PromotePartialIfDrained(r, now);
    }

    method MarkDlqDisposition(id: string, d: Disposition, from: Option<string>, now: int)
      modifies this`items, this`runs
      ensures State() == AfterDispose(old(State()), id, d, from, now)
    {
      if id !in items {
        return;
      }
      var parent := items[id].runId;
      if items[id].status == ItemFailed && items[id].disposition.None? {
        var link := if from.Some? then from else items[id].replayedFrom;
        items := items[id := items[id].(disposition := Some(d), replayedFrom := link)];
      }
      if parent.Some? {
        PromotePartialIfDrained(parent.value, now);
      }
    }

    method SetItemReplayedFrom(id: string, source: string)
      modifies this`items
      ensures State() == AfterLink(old(State()), id, source)
    {
      if id in items {
        items := items[id := items[id].(replayedFrom := Some(source))];
      }
    }
  }

  lemma {:induction false} LastRowsBad(rows: seq<TaskEntry>, k: int)
    requires k > 0
    ensures TrailingBad(rows) >= k <==>
            |rows| >= k && forall i :: |rows| - k <= i < |rows| ==> rows[i].outcome != OutcomeOk
    decreases k
  {
    if rows == [] || rows[|rows| - 1].outcome == OutcomeOk || k == 1 {
    } else {
      LastRowsBad(rows[..|rows| - 1], k - 1);
    }
  }

  lemma RowsAppended(steps: seq<StepRow>, id: string, row: TaskEntry)
    ensures RowsOf(steps + [StepRow(id, row)], id) == RowsOf(steps, id) + [row]
  {
    assert (steps + [StepRow(id, row)])[..|steps|] == steps;
  }

  /** What one more row means for the streak. */
  lemma SavedRow(db: Db, id: string, e: TaskEntry)
    ensures var rows := RowsOf(db.steps + [StepRow(id, Persisted(e))], id);
            TrailingBad(rows) == TrailingBad(RowsOf(db.steps, id) + [e]) && (e.outcome == OutcomeOk ==> TrailingBad(rows) == 0)
  {
    RowsAppended(db.steps, id, Persisted(e));
    TrailingBadPersisted(RowsOf(db.steps, id), e);
  }

  lemma TrailingBadPersisted(rows: seq<TaskEntry>, e: TaskEntry)
    ensures TrailingBad(rows + [Persisted(e)]) == TrailingBad(rows + [e])
    ensures e.outcome == OutcomeOk ==> TrailingBad(rows + [e]) == 0
  {
    assert (rows + [e])[..|rows|] == rows == (rows + [Persisted(e)])[..|rows|];
  }
}
