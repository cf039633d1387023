/** One loop over items is one run. Models `_iter_gen` with `_mint_invocation` and
    `_finalize_invocation` in src/papayya/iterators.py over the local store. */
module IterLoop {
  import opened Types
  import opened Ledger
  import opened SqliteSpec
  import opened SqliteStore
  import opened Loaded

  /** How the loop body leaves. A body that raises, or leaves a plain `for` loop early
      in any other way, reaches the suspended generator as the same `GeneratorExit`, even
      when what it raised is a pause: all of that is `Raises`. A pause or credit signal is
      recognised, and passed through untouched, only when it is thrown into the
      generator; that is `Signals`. */
  datatype BodyOutcome = Finishes | Raises | Signals

  /** One element of the iterable: the row id its record gets, whether the workload
      fence has stopped the agent by then, the steps its body saves, the key of the
      synthetic entry should it fail, how the body leaves, and the time. */
  datatype LoopItem = LoopItem(
    rowId: string,
    customerId: string,
    fenced: bool,
    saves: seq<TaskEntry>,
    markKey: string,
    body: BodyOutcome,
    now: int)

  datatype LoopEnd = Exhausted | BodyRaised | BodySignalled | FenceStopped

  /** The context variable that names the active run. */
  class Context {
    var activeRun: Option<string>
  }

  /** The first element that stops the loop, or the length. */
  function FirstStop(items: seq<LoopItem>, i: nat): (k: nat)
    requires i <= |items|
    ensures i <= k <= |items|
    ensures forall j :: i <= j < k ==> !items[j].fenced && items[j].body.Finishes?
    ensures k < |items| ==> items[k].fenced || !items[k].body.Finishes?
    decreases |items| - i
  {
    if i == |items| || items[i].fenced || !items[i].body.Finishes? then i else FirstStop(items, i + 1)
  }

  function Minted(items: seq<LoopItem>): (n: nat)
    ensures n <= |items|
  {
    var k := FirstStop(items, 0);
    if k == |items| || items[k].fenced then k else k + 1
  }

  function SyntheticFailure(it: LoopItem): TaskEntry {
    TaskEntry(it.markKey, Value(0, Null), it.now, Some(it.customerId), OutcomeFailed, Some("loop_body_exception"),
              None, None, it.markKey + "|1", 1, 0, None)
  }

  function EndStatus(body: BodyOutcome): ItemStatus {
    match body
    case Finishes => ItemCompleted
    case Raises => ItemFailed
    case Signals => ItemRunning
  }

  /** The step rows after one more save, and after several. */
  function SaveStep(steps: seq<StepRow>, id: string, e: TaskEntry): seq<StepRow> {
    if Known(RowsOf(steps, id), e) then steps else steps + [StepRow(id, Persisted(e))]
  }

  function SaveSteps(steps: seq<StepRow>, id: string, writes: seq<TaskEntry>): seq<StepRow> {
    if writes == [] then steps else SaveStep(SaveSteps(steps, id, writes[..|writes| - 1]), id, writes[|writes| - 1])
  }

  lemma SaveOneMore(steps: seq<StepRow>, id: string, writes: seq<TaskEntry>, e: TaskEntry)
    ensures SaveSteps(steps, id, writes + [e]) == SaveSteps(SaveSteps(steps, id, writes), id, [e])
  {
    assert (writes + [e])[..|writes|] == writes;
    assert [e][..0] == [];
  }

  /** What is saved for one element: the body's steps, and the synthetic entry should it raise. */
  function WritesOf(it: LoopItem): seq<TaskEntry> {
    if it.body.Raises? then it.saves + [SyntheticFailure(it)] else it.saves
  }

  /** The step rows after the first `n` elements. */
  function LoopSteps(steps: seq<StepRow>, items: seq<LoopItem>, n: nat): seq<StepRow>
    requires n <= |items|
  {
    if n == 0 then steps else SaveSteps(LoopSteps(steps, items, n - 1), items[n - 1].rowId, WritesOf(items[n - 1]))
  }

  /** A failed step that returned nothing, for the customer's item, at the time. */
  predicate IsFailureRow(it: LoopItem, row: TaskEntry) {
    && row.key == it.markKey && row.attempt == 1 && row.token == it.markKey + "|1"
    && row.outcome == OutcomeFailed && row.reason == Some("loop_body_exception") && row.result.shape == Null
    && row.itemId == Some(it.customerId) && row.completedAt == it.now
    && row.taintedBy == None && row.taintedReason == None && row.retryCount == 0 && row.reusedFrom == None
  }

  /** The rows of a record whose body raised are those the body saved and then the
      synthetic failed entry, exactly when the body saved nothing with its token. */
  lemma FailureIsRecorded(steps: seq<StepRow>, it: LoopItem)
    requires it.body.Raises?
    ensures var saved, rows := RowsOf(SaveSteps(steps, it.rowId, it.saves), it.rowId), RowsOf(SaveSteps(steps, it.rowId, WritesOf(it)), it.rowId);
            && (|rows| == |saved| + 1 <==> !Known(saved, SyntheticFailure(it)))
            && (|rows| == |saved| + 1 ==>
                  && rows[..|saved|] == saved && IsFailureRow(it, rows[|saved|]))
  {
    var before, f := SaveSteps(steps, it.rowId, it.saves), SyntheticFailure(it);
    assert (it.saves + [f])[..|it.saves|] == it.saves;
    assert (before + [StepRow(it.rowId, Persisted(f))])[..|before|] == before;
  }

  lemma {:induction false} SaveStepsElsewhere(steps: seq<StepRow>, id: string, writes: seq<TaskEntry>, other: string)
    requires id != other
    ensures RowsOf(SaveSteps(steps, id, writes), other) == RowsOf(steps, other)
  {
    if writes == [] {
    } else {
      var before, e := SaveSteps(steps, id, writes[..|writes| - 1]), writes[|writes| - 1];
      SaveStepsElsewhere(steps, id, writes[..|writes| - 1], other);
      assert (before + [StepRow(id, Persisted(e))])[..|before|] == before;
    }
  }

  lemma {:induction false} SaveStepsDeliver(steps: seq<StepRow>, id: string, writes: seq<TaskEntry>)
    requires RowsOf(steps, id) == []
    ensures SameExecutions(Deliver([], writes), RowsOf(SaveSteps(steps, id, writes), id))
  {
    if writes == [] {
    } else {
      var init, e := writes[..|writes| - 1], writes[|writes| - 1];
      var before := SaveSteps(steps, id, init);
      SaveStepsDeliver(steps, id, init);
      SameExecutionsKnowTheSame(Deliver([], init), RowsOf(before, id), e);
      assert (before + [StepRow(id, Persisted(e))])[..|before|] == before;
    }
  }

  lemma {:induction false} NotYetReached(steps: seq<StepRow>, items: seq<LoopItem>, n: nat, j: nat)
    requires n <= j < |items| && forall a, b :: 0 <= a < b < |items| ==> items[a].rowId != items[b].rowId
    ensures RowsOf(LoopSteps(steps, items, n), items[j].rowId) == RowsOf(steps, items[j].rowId)
  {
    if n == 0 {
    } else {
      NotYetReached(steps, items, n - 1, j);
      SaveStepsElsewhere(LoopSteps(steps, items, n - 1), items[n - 1].rowId, WritesOf(items[n - 1]), items[j].rowId);
    }
  }

  /** The rows of an element the loop has reached: the steps its body saved, and the
      synthetic failure if it raised, each once. */
  lemma {:induction false} RowsOfAnElement(steps: seq<StepRow>, items: seq<LoopItem>, n: nat, j: nat)
    requires j < n <= |items| && forall a, b :: 0 <= a < b < |items| ==> items[a].rowId != items[b].rowId
    requires RowsOf(steps, items[j].rowId) == []
    ensures var writes := items[j].saves + (if items[j].body.Raises? then [SyntheticFailure(items[j])] else []);
            SameExecutions(Deliver([], writes), RowsOf(LoopSteps(steps, items, n), items[j].rowId))
  {
    if j == n - 1 {
      NotYetReached(steps, items, j, j);
      SaveStepsDeliver(LoopSteps(steps, items, j), items[j].rowId, WritesOf(items[j]));
      assert items[j].saves + [] == items[j].saves;
    } else {
      RowsOfAnElement(steps, items, n - 1, j);
      SaveStepsElsewhere(LoopSteps(steps, items, n - 1), items[n - 1].rowId, WritesOf(items[n - 1]), items[j].rowId);
    }
  }

  /** `items'` is `items` with one new record of run `r`, for customer item `c`, of the
      given status. */
  ghost predicate OneMore(items: map<string, ItemRow>, items': map<string, ItemRow>, id: string, c: string, r: string, status: ItemStatus) {
    && items'.Keys == items.Keys + {id}
    && (forall other :: other in items && other != id ==> items'[other] == items[other])
    && items'[id].runId == Some(r) && items'[id].customerId == Some(c)
    && items'[id].status == status && items'[id].disposition.None?
  }

  /** The steps a body saves do not touch the run or the standing of its item. */
  method SaveAll(store: SQLiteStore, id: string, c: string, r: string, writes: seq<TaskEntry>, ghost before: map<string, ItemRow>)
    requires OneMore(before, store.items, id, c, r, ItemRunning)
    modifies store
    ensures store.runs == old(store.runs) && OneMore(before, store.items, id, c, r, ItemRunning)
    ensures store.steps == SaveSteps(old(store.steps), id, writes)
  {
    for i := 0 to |writes|
      invariant store.runs == old(store.runs) && OneMore(before, store.items, id, c, r, ItemRunning)
      invariant store.steps == SaveSteps(old(store.steps), id, writes[..i])
    {
      assert writes[..i + 1][..i] == writes[..i];
      store.SaveTask(id, writes[i]);
    }
    assert writes[..|writes|] == writes;
  }

  /** Closing a record of an open run counts it there and leaves the run open. */
  lemma CloseRecord(db: Db, before: map<string, ItemRow>, id: string, c: string, r: string, status: ItemStatus, now: int)
    requires db.capture && OneMore(before, db.items, id, c, r, ItemRunning) && Terminal(status)
    requires r in db.runs && db.runs[r].total == 0 && db.runs[r].status == RunRunning
    ensures var db' := AfterSetStatus(db, id, status, now);
            && OneMore(before, db'.items, id, c, r, status) && db'.steps == db.steps
            && db'.runs == db.runs[r := Counted(db.runs[r], status)]
  {
  }

  /** What one element does to the ledger. */
  ghost predicate Processed(mid: Db, after: Db, it: LoopItem, r: string)
    requires r in mid.runs
  {
    && OneMore(mid.items, after.items, it.rowId, it.customerId, r, EndStatus(it.body))
    && after.runs == (if it.body.Signals? then mid.runs else mid.runs[r := Counted(mid.runs[r], EndStatus(it.body))])
    && after.steps == SaveSteps(mid.steps, it.rowId, WritesOf(it))
  }

  /** Open a record for one element, run the body, and close the record. */
  method ProcessItem(store: SQLiteStore, ctx: Context, r: string, it: LoopItem)
    requires store.capture && it.rowId !in store.items
    requires r in store.runs && store.runs[r].total == 0 && store.runs[r].status == RunRunning
    modifies store, ctx
    ensures ctx.activeRun == old(ctx.activeRun)
    ensures Processed(old(store.State()), store.State(), it, r)
  {
    ghost var before := store.items;
    var created := store.Create(it.rowId, Some(r), ItemRunning, Some(it.customerId));
    var token := ctx.activeRun;
    ctx.activeRun := Some(it.rowId);
    SaveAll(store, it.rowId, it.customerId, r, it.saves, before);
    match it.body {
      case Finishes =>
        CloseRecord(store.State(), before, it.rowId, it.customerId, r, ItemCompleted, it.now);
        store.SetStatus(it.rowId, ItemCompleted, it.now);
      case Raises =>
        SaveOneMore(old(store.steps), it.rowId, it.saves, SyntheticFailure(it));
        SaveAll(store, it.rowId, it.customerId, r, [SyntheticFailure(it)], before);
        CloseRecord(store.State(), before, it.rowId, it.customerId, r, ItemFailed, it.now);
        store.SetStatus(it.rowId, ItemFailed, it.now);
      case Signals =>
    }
    ctx.activeRun := token;
  }

  function RowIds(items: seq<LoopItem>, n: nat): set<string>
    requires n <= |items|
  {
    if n == 0 then {} else RowIds(items, n - 1) + {items[n - 1].rowId}
  }

  lemma {:induction false} RowIdHasIndex(items: seq<LoopItem>, n: nat, id: string) returns (j: nat)
    requires n <= |items| && id in RowIds(items, n)
    ensures j < n && items[j].rowId == id
  {
    if id == items[n - 1].rowId {
      j := n - 1;
    } else {
      j := RowIdHasIndex(items, n - 1, id);
    }
  }

  lemma NextIsNew(items: seq<LoopItem>, n: nat)
    requires n < |items| && forall i, j :: 0 <= i < j < |items| ==> items[i].rowId != items[j].rowId
    ensures items[n].rowId !in RowIds(items, n)
  {
    if items[n].rowId in RowIds(items, n) {
      var j := RowIdHasIndex(items, n, items[n].rowId);
    }
  }

  lemma {:induction false} RowIdsCount(items: seq<LoopItem>, n: nat)
    requires n <= |items| && forall i, j :: 0 <= i < j < |items| ==> items[i].rowId != items[j].rowId
    ensures |RowIds(items, n)| == n
  {
    if n == 0 {
    } else {
      RowIdsCount(items, n - 1);
      NextIsNew(items, n - 1);
    }
  }

  /** The first `n` elements have records in run `r`, completed up to `k`. */
  ghost predicate Recorded(before: map<string, ItemRow>, after: map<string, ItemRow>, items: seq<LoopItem>, n: nat, k: nat, r: string)
    requires n <= |items|
  {
    && after.Keys == before.Keys + RowIds(items, n)
    && (forall id :: id in before ==> after[id] == before[id])
    && (forall j :: 0 <= j < n ==> items[j].rowId in after)
    && (forall j :: 0 <= j < n ==>
          && after[items[j].rowId].runId == Some(r) && after[items[j].rowId].customerId == Some(items[j].customerId)
          && after[items[j].rowId].disposition.None?
          && (j < k ==> after[items[j].rowId].status == ItemCompleted))
  }

  ghost predicate NewRecords(before: map<string, ItemRow>, items: seq<LoopItem>) {
    && (forall i :: 0 <= i < |items| ==> items[i].rowId !in before)
    && (forall i, j :: 0 <= i < j < |items| ==> items[i].rowId != items[j].rowId)
  }

  lemma RecordOneMore(before: map<string, ItemRow>, mid: map<string, ItemRow>, after: map<string, ItemRow>, items: seq<LoopItem>, n: nat, r: string)
    requires n < |items| && NewRecords(before, items)
    requires Recorded(before, mid, items, n, n, r)
    requires OneMore(mid, after, items[n].rowId, items[n].customerId, r, EndStatus(items[n].body))
    ensures Recorded(before, after, items, n + 1, if items[n].body.Finishes? then n + 1 else n, r)
  {
    forall j | 0 <= j < n
      ensures items[j].rowId in after && after[items[j].rowId] == mid[items[j].rowId]
    {
      assert items[j].rowId != items[n].rowId;
    }
  }

  lemma RunHoldsTheRecords(before: map<string, ItemRow>, after: map<string, ItemRow>, items: seq<LoopItem>, n: nat, k: nat, r: string)
    requires n <= |items| && NewRecords(before, items) && Recorded(before, after, items, n, k, r)
    requires forall id :: id in before ==> before[id].runId != Some(r)
    ensures |ItemsOf(after, r)| == n
  {
    RowIdsCount(items, n);
    forall id | id in RowIds(items, n)
      ensures id in ItemsOf(after, r)
    {
      var j := RowIdHasIndex(items, n, id);
    }
    forall id | id in ItemsOf(after, r)
      ensures id in RowIds(items, n)
    {
      assert id in after.Keys;
      assert id !in before;
    }
    assert ItemsOf(after, r) == RowIds(items, n);
  }

  /** How the loop over `items` ends. */
  function EndOf(items: seq<LoopItem>): LoopEnd {
    var k := FirstStop(items, 0);
    if k == |items| then Exhausted
    else if items[k].fenced then FenceStopped
    else if items[k].body.Raises? then BodyRaised
    else BodySignalled
  }

  /** The row of the run before it is sealed. */
  function OpenRow(items: seq<LoopItem>): RunRow {
    RunRow(RunRunning, 0, FirstStop(items, 0), if EndOf(items).BodyRaised? then 1 else 0, None)
  }

  /** The record the loop stopped in, if the body left early. */
  ghost predicate StoppedRecord(after: map<string, ItemRow>, items: seq<LoopItem>, r: string) {
    var k := FirstStop(items, 0);
    k < |items| && !items[k].fenced ==>
      && items[k].rowId in after && after[items[k].rowId].runId == Some(r) && after[items[k].rowId].disposition.None?
      && after[items[k].rowId].status == if items[k].body.Raises? then ItemFailed else ItemRunning
  }

  lemma SetTwice(runs: map<string, RunRow>, r: string, a: RunRow, b: RunRow)
    ensures runs[r := a][r := b] == runs[r := b]
  {
  }

  /** An element whose body does not finish is the last one, and counts as failed if
      the body raised. */
  lemma StopsHere(items: seq<LoopItem>, i: nat)
    requires i < |items| && FirstStop(items, 0) == i && !items[i].fenced && !items[i].body.Finishes?
    ensures Minted(items) == i + 1
    ensures EndOf(items) == if items[i].body.Raises? then BodyRaised else BodySignalled
    ensures OpenRow(items) == if items[i].body.Signals? then RunRow(RunRunning, 0, i, 0, None)
                              else Counted(RunRow(RunRunning, 0, i, 0, None), ItemFailed)
  {
  }

  /** The ledger once the first `n` elements have been processed, `k` of them
      completed, the run standing at `row`. */
  ghost predicate Reached(db0: Db, db: Db, items: seq<LoopItem>, n: nat, k: nat, r: string, row: RunRow)
    requires n <= |items|
  {
    && Recorded(db0.items, db.items, items, n, k, r)
    && db.runs == db0.runs[r := row]
    && db.steps == LoopSteps(db0.steps, items, n)
  }

  function OpenAt(k: nat, failed: nat): RunRow {
    RunRow(RunRunning, 0, k, failed, None)
  }

  lemma ReachOneMore(db0: Db, mid: Db, after: Db, items: seq<LoopItem>, i: nat, r: string)
    requires i < |items| && NewRecords(db0.items, items) && Reached(db0, mid, items, i, i, r, OpenAt(i, 0))
    requires Processed(mid, after, items[i], r)
    ensures Reached(db0, after, items, i + 1, if items[i].body.Finishes? then i + 1 else i, r, OpenAfter(items[i].body, i))
  {
    RecordOneMore(db0.items, mid.items, after.items, items, i, r);
    CountOneMore(db0.runs, mid.runs, after.runs, items[i].body, i, r);
  }

  /** The row of the open run after element `i`, all before it completed. */
  function OpenAfter(body: BodyOutcome, i: nat): RunRow {
    match body
    case Finishes => OpenAt(i + 1, 0)
    case Raises => OpenAt(i, 1)
    case Signals => OpenAt(i, 0)
  }

  lemma CountOneMore(runs0: map<string, RunRow>, mid: map<string, RunRow>, after: map<string, RunRow>, body: BodyOutcome, i: nat, r: string)
    requires mid == runs0[r := OpenAt(i, 0)]
    requires after == if body.Signals? then mid else mid[r := Counted(mid[r], EndStatus(body))]
    ensures after == runs0[r := OpenAfter(body, i)]
  {
    SetTwice(runs0, r, OpenAt(i, 0), Counted(OpenAt(i, 0), EndStatus(body)));
  }

  /** What the loop leaves: the ledger and the record it stopped in. */
  ghost predicate Driven(db0: Db, db: Db, items: seq<LoopItem>, r: string) {
    Reached(db0, db, items, Minted(items), FirstStop(items, 0), r, OpenRow(items)) && StoppedRecord(db.items, items, r)
  }

  /** The loop is over before element `i`: exhausted, or stopped by the fence. */
  lemma DrivenBefore(db0: Db, db: Db, items: seq<LoopItem>, i: nat, r: string)
    requires i <= |items| && FirstStop(items, 0) == i && (i < |items| ==> items[i].fenced)
    requires Reached(db0, db, items, i, i, r, OpenAt(i, 0))
    ensures Driven(db0, db, items, r)
    ensures EndOf(items) == if i < |items| then FenceStopped else Exhausted
  {
  }

  /** The loop is over with element `i`, whose body did not finish. */
  lemma DrivenWith(db0: Db, mid: Db, after: Db, items: seq<LoopItem>, i: nat, r: string)
    requires i < |items| && NewRecords(db0.items, items) && Reached(db0, mid, items, i, i, r, OpenAt(i, 0))
    requires FirstStop(items, 0) == i && !items[i].fenced && !items[i].body.Finishes?
    requires Processed(mid, after, items[i], r)
    ensures Driven(db0, after, items, r)
    ensures EndOf(items) == if items[i].body.Raises? then BodyRaised else BodySignalled
  {
    ReachOneMore(db0, mid, after, items, i, r);
    StopsHere(items, i);
  }

  /** Process elements until one stops the loop. */
  method DriveItems(store: SQLiteStore, ctx: Context, r: string, items: seq<LoopItem>) returns (end: LoopEnd)
    requires store.capture && r in store.runs && store.runs[r] == OpenAt(0, 0)
    requires NewRecords(store.items, items)
    modifies store, ctx
    ensures ctx.activeRun == old(ctx.activeRun) && end == EndOf(items)
    ensures Driven(old(store.State()), store.State(), items, r)
  {
    ghost var db0 := store.State();
    var i := 0;
    while i < |items|
      invariant i <= |items| && FirstStop(items, i) == FirstStop(items, 0)
      invariant Reached(db0, store.State(), items, i, i, r, OpenAt(i, 0))
      invariant ctx.activeRun == old(ctx.activeRun)
    {
      ghost var mid := store.State();
      if items[i].fenced {
        DrivenBefore(db0, mid, items, i, r);
        return FenceStopped;
      }
      NextIsNew(items, i);
      ProcessItem(store, ctx, r, items[i]);
      if !items[i].body.Finishes? {
        DrivenWith(db0, mid, store.State(), items, i, r);
        return if items[i].body.Raises? then BodyRaised else BodySignalled;
      }
      ReachOneMore(db0, mid, store.State(), items, i, r);
      i := i + 1;
    }
    DrivenBefore(db0, store.State(), items, |items|, r);
    end := Exhausted;
  }

  /** The loop of the source: mint one open run, process the elements, and seal the
      run on every way out. */
  method IterGen(store: SQLiteStore, ctx: Context, r: string, items: seq<LoopItem>, now: int) returns (end: LoopEnd)
    requires store.capture && r !in store.runs && NewRecords(store.items, items)
    requires forall id :: id in store.items ==> store.items[id].runId != Some(r)
    modifies store, ctx
    // the active-run variable is restored on every exit
    ensures ctx.activeRun == old(ctx.activeRun)
    ensures end == EndOf(items)
    // records exist for exactly the elements reached, all in this one run
    ensures Recorded(old(store.items), store.items, items, Minted(items), FirstStop(items, 0), r)
    ensures StoppedRecord(store.items, items, r)
    ensures |ItemsOf(store.items, r)| == Minted(items)
    // the steps of those elements, and the synthetic entry of one that raised
    ensures store.steps == LoopSteps(old(store.steps), items, Minted(items))
    // the run row, and no other
    ensures store.runs == old(store.runs)[r := ClosedRow(items, now)]
  {
    ghost var before := store.items;
    var minted := store.CreateRun(r, 0);
    end := DriveItems(store, ctx, r, items);
    RunHoldsTheRecords(before, store.items, items, Minted(items), FirstStop(items, 0), r);
    SealingClosesTheRow(store.items, items, r, now);
    SetTwice(old(store.runs), r, RunRow(RunRunning, 0, 0, 0, None), OpenRow(items));
    SetTwice(old(store.runs), r, OpenRow(items), ClosedRow(items, now));
    store.FinalizeRun(r, now);
  }

  /** The row of the run once it is sealed: as many items as were minted, all
      completed but the one that failed, and a status that says so. */
  function ClosedRow(items: seq<LoopItem>, now: int): RunRow {
    var k, end := FirstStop(items, 0), EndOf(items);
    var status :=
      match end
      case Exhausted => RunCompleted
      case FenceStopped => RunCompleted
      case BodyRaised => if k == 0 then RunFailed else RunPartial
      case BodySignalled => RunRunning;
    RunRow(status, Minted(items), k, if end.BodyRaised? then 1 else 0, if end.BodySignalled? then None else Some(now))
  }

  lemma SealingClosesTheRow(after: map<string, ItemRow>, items: seq<LoopItem>, r: string, now: int)
    requires StoppedRecord(after, items, r)
    ensures Promoted(after, r, Sealed(OpenRow(items), Minted(items), now), now) == ClosedRow(items, now)
  {
    assert EndOf(items).BodyRaised? ==> HasDeadLetter(after, r);
  }

  /** Element `k` is the first at which the loop stops; `|items|` when it goes through. */
  ghost predicate StopsFirstAt(items: seq<LoopItem>, k: nat) {
    && k <= |items| && (forall j :: 0 <= j < k ==> !items[j].fenced && items[j].body == Finishes)
    && (k < |items| ==> items[k].fenced || items[k].body != Finishes)
  }

  lemma {:induction false} StopIs(items: seq<LoopItem>, i: nat, k: nat)
    requires i <= k && StopsFirstAt(items, k)
    ensures FirstStop(items, i) == k
    decreases k - i
  {
    if i == k {
    } else {
      StopIs(items, i + 1, k);
    }
  }

  /** What a loop that first stops at `k` comes to: how it ends, how many records it makes,
      and the row of its run. A pass through, and a stop by the fence, complete the run; a
      body that raises fails it, in part if anything was completed; a signal leaves it open. */
  lemma LoopMeaning(items: seq<LoopItem>, now: int, k: nat)
    requires StopsFirstAt(items, k)
    ensures k == |items| ==> EndOf(items) == Exhausted && Minted(items) == k && ClosedRow(items, now) == RunRow(RunCompleted, k, k, 0, Some(now))
    ensures k < |items| && items[k].fenced ==>
              EndOf(items) == FenceStopped && Minted(items) == k && ClosedRow(items, now) == RunRow(RunCompleted, k, k, 0, Some(now))
    ensures k < |items| && !items[k].fenced && items[k].body == Raises ==>
              && EndOf(items) == BodyRaised && Minted(items) == k + 1
              && ClosedRow(items, now) == RunRow(if k == 0 then RunFailed else RunPartial, k + 1, k, 1, Some(now))
    ensures k < |items| && !items[k].fenced && items[k].body == Signals ==>
              EndOf(items) == BodySignalled && Minted(items) == k + 1 && ClosedRow(items, now) == RunRow(RunRunning, k + 1, k, 0, None)
  {
    StopIs(items, 0, k);
  }
}
