/** The degraded-streak fence: a run cannot go on degrading unnoticed. */
module Fence {
  import opened Types
  import opened Ledger
  import opened SqliteSpec
  import opened StoreRuns
  import opened Aggregates

  /** The longest run of consecutive rows that are not ok. */
  function LongestBad(rows: seq<TaskEntry>): nat {
    if rows == [] then 0
    else
      var before := LongestBad(rows[..|rows| - 1]);
      if TrailingBad(rows) > before then TrailingBad(rows) else before
  }

  /** No stretch of rows longer than the longest is all bad. */
  lemma {:induction false} LongestBadBounds(rows: seq<TaskEntry>, lo: nat, hi: nat)
    requires lo <= hi <= |rows| && forall i :: lo <= i < hi ==> rows[i].outcome != OutcomeOk
    ensures hi - lo <= LongestBad(rows)
    decreases |rows|
  {
    if rows == [] {
    } else if hi < |rows| {
      LongestBadBounds(rows[..|rows| - 1], lo, hi);
    } else {
      TrailingAtLeast(rows, lo);
    }
  }

  lemma {:induction false} TrailingAtLeast(rows: seq<TaskEntry>, lo: nat)
    requires lo <= |rows| && forall i :: lo <= i < |rows| ==> rows[i].outcome != OutcomeOk
    ensures TrailingBad(rows) >= |rows| - lo
    decreases |rows|
  {
    if lo == |rows| {
    } else {
      TrailingAtLeast(rows[..|rows| - 1], lo);
    }
  }

  /** A step body of the item: it never saves while a pause is pending, because the
      item checks the fence before every step. */
  predicate Gated(db: Db, op: Op, id: string) {
    op.OpSave? && op.id == id ==> id !in db.pending
  }

  ghost predicate GatedHistory(db: Db, ops: seq<Op>, id: string, last: Db)
    decreases |ops|
  {
    if ops == [] then last == db
    else Allowed(db, ops[0]) && Gated(db, ops[0], id) && GatedHistory(Apply(db, ops[0]), ops[1..], id, last)
  }

  predicate Clears(op: Op, id: string) {
    op.OpRestart? || (op.OpClearPause? && op.id == id)
  }

  function ClearCount(ops: seq<Op>, id: string): nat {
    if ops == [] then 0 else (if Clears(ops[0], id) then 1 else 0) + ClearCount(ops[1..], id)
  }

  /** The fence in force at every save of the item is between `lo` and `hi`. A restart
      forgets the fences; the item registers its own again when a pass begins. */
  ghost predicate FencedBy(db: Db, ops: seq<Op>, id: string, lo: int, hi: int)
    decreases |ops|
  {
    || ops == []
    || (&& (ops[0].OpSave? && ops[0].id == id ==> lo <= FenceFor(db, id) <= hi)
        && FencedBy(Apply(db, ops[0]), ops[1..], id, lo, hi))
  }

  /** With fences of at most `k` and `n` clears so far. */
  ghost predicate StreakInv(db: Db, id: string, k: int, n: nat) {
    var rows := RowsOf(db.steps, id);
    && k > 0
    && LongestBad(rows) <= k + n
    && TrailingBad(rows) <= k + n - (if id in db.pending then 0 else 1)
  }

  lemma SaveKeepsStreak(db: Db, id: string, e: TaskEntry, k: int, n: nat)
    requires StreakInv(db, id, k, n) && id !in db.pending && 1 <= FenceFor(db, id) <= k
    ensures StreakInv(AfterSave(db, id, e), id, k, n)
  {
    var rows, row := RowsOf(db.steps, id), Persisted(e);
    RowsAfterSave(db, id, e, id);
    assert (rows + [row])[..|rows|] == rows;
    assert (rows + [e])[..|rows|] == rows;
    assert TrailingBad(rows + [row]) == TrailingBad(rows + [e]);
  }

  lemma OtherOpsLeaveStreaks(db: Db, op: Op, id: string)
    requires !op.OpSave?
    ensures Apply(db, op).steps == db.steps
    ensures id in Apply(db, op).pending <==> id in db.pending && !Clears(op, id)
    ensures id in Apply(db, op).pending ==> Apply(db, op).pending[id] == db.pending[id]
  {
  }

  lemma {:induction false} OpKeepsStreak(db: Db, op: Op, id: string, k: int, n: nat)
    requires StreakInv(db, id, k, n) && Gated(db, op, id)
    requires op.OpSave? && op.id == id ==> 1 <= FenceFor(db, id) <= k
    ensures StreakInv(Apply(db, op), id, k, n + (if Clears(op, id) then 1 else 0))
  {
    if op.OpSave? {
      if op.id == id {
        SaveKeepsStreak(db, id, op.e, k, n);
      } else {
        RowsAfterSave(db, op.id, op.e, id);
      }
    } else {
      OtherOpsLeaveStreaks(db, op, id);
    }
  }

  /** A pause is set only by a save that leaves at least `k` bad rows at the end,
      and every save that does so sets it. */
  lemma PauseIsEarned(db: Db, id: string, e: TaskEntry)
    requires id !in db.pending && FenceFor(db, id) > 0 && !Known(RowsOf(db.steps, id), e)
    ensures id in AfterSave(db, id, e).pending <==>
            TrailingBad(RowsOf(AfterSave(db, id, e).steps, id)) >= FenceFor(db, id)
  {
    var rows, row := RowsOf(db.steps, id), Persisted(e);
    RowsAfterSave(db, id, e, id);
    assert (rows + [row])[..|rows|] == rows == (rows + [e])[..|rows|];
    assert TrailingBad(rows + [row]) == TrailingBad(rows + [e]);
  }

  lemma {:induction false} StreakHistory(db: Db, ops: seq<Op>, id: string, last: Db, k: int, n: nat)
    requires StreakInv(db, id, k, n) && GatedHistory(db, ops, id, last) && FencedBy(db, ops, id, 1, k)
    ensures StreakInv(last, id, k, n + ClearCount(ops, id))
    decreases |ops|
  {
    if ops == [] {
    } else {
      OpKeepsStreak(db, ops[0], id, k, n);
      StreakHistory(Apply(db, ops[0]), ops[1..], id, last, k, n + (if Clears(ops[0], id) then 1 else 0));
    }
  }

  /** Over every history of an item whose fence is on, and at most `k`, whenever it saves:
      no more than `k` plus the number of times a pause was cleared consecutive rows are
      not ok. */
  lemma StreakIsBounded(db: Db, ops: seq<Op>, id: string, last: Db, k: nat, lo: nat, hi: nat)
    requires RowsOf(db.steps, id) == [] && id !in db.pending && k > 0
    requires GatedHistory(db, ops, id, last) && FencedBy(db, ops, id, 1, k)
    requires lo <= hi <= |RowsOf(last.steps, id)|
    requires forall i :: lo <= i < hi ==> RowsOf(last.steps, id)[i].outcome != OutcomeOk
    ensures hi - lo <= k + ClearCount(ops, id)
  {
    StreakHistory(db, ops, id, last, k, 0);
    LongestBadBounds(RowsOf(last.steps, id), lo, hi);
  }

  /** A fence of 0 or less is off: over every history in which it is off whenever the item
      saves, nothing ever pauses it. */
  lemma {:induction false} FenceOffNeverPauses(db: Db, ops: seq<Op>, id: string, last: Db, lo: int)
    requires id !in db.pending && History(db, ops, last) && FencedBy(db, ops, id, lo, 0)
    ensures id !in last.pending
    decreases |ops|
  {
    if ops == [] {
    } else {
      if ops[0].OpSave? {
        if ops[0].id != id {
          OtherSaveKeepsPause(db, ops[0].id, ops[0].e, id);
        }
      } else {
        OtherOpsLeaveStreaks(db, ops[0], id);
      }
      FenceOffNeverPauses(Apply(db, ops[0]), ops[1..], id, last, lo);
    }
  }

  /** Whether, after `op`, a pause was cleared since the last new row. */
  function StillCleared(db: Db, op: Op, id: string, cleared: bool): bool {
    if Clears(op, id) then true
    else if RowsOf(Apply(db, op).steps, id) != RowsOf(db.steps, id) then false
    else cleared
  }

  /** A pause was cleared after the last new row; `cleared` says whether one was before. */
  function ClearedSince(db: Db, ops: seq<Op>, id: string, cleared: bool): bool
    decreases |ops|
  {
    if ops == [] then cleared
    else ClearedSince(Apply(db, ops[0]), ops[1..], id, StillCleared(db, ops[0], id, cleared))
  }

  /** A pause names the fence, and the reason of the last row, or its status if it has none. */
  predicate PauseSays(pause: PauseReason, k: int, rows: seq<TaskEntry>) {
    && rows != [] && pause.k == k
    && match rows[|rows| - 1].reason
       case Some(text) => pause.detail == if text == "" then Status(rows[|rows| - 1].outcome) else Because(text)
       case None => pause.detail == Status(rows[|rows| - 1].outcome)
  }

  ghost predicate PauseInv(db: Db, id: string, k: int, cleared: bool) {
    && k > 0 && (id in db.pending <==> TrailingBad(RowsOf(db.steps, id)) >= k && !cleared)
    && (id in db.pending ==> PauseSays(db.pending[id], k, RowsOf(db.steps, id)))
  }

  lemma SaveKeepsPause(db: Db, id: string, e: TaskEntry, k: int, cleared: bool)
    requires PauseInv(db, id, k, cleared) && id !in db.pending && FenceFor(db, id) == k
    ensures PauseInv(AfterSave(db, id, e), id, k, StillCleared(db, OpSave(id, e), id, cleared))
  {
    RowsAfterSave(db, id, e, id);
    if !Known(RowsOf(db.steps, id), e) {
      PauseIsEarned(db, id, e);
    }
  }

  lemma OtherSaveKeepsPause(db: Db, other: string, e: TaskEntry, id: string)
    requires other != id
    ensures var db' := AfterSave(db, other, e);
            && RowsOf(db'.steps, id) == RowsOf(db.steps, id) && (id in db'.pending <==> id in db.pending)
            && (id in db.pending ==> db'.pending[id] == db.pending[id])
  {
    RowsAfterSave(db, other, e, id);
  }

  lemma OpKeepsPause(db: Db, op: Op, id: string, k: int, cleared: bool)
    requires PauseInv(db, id, k, cleared) && Gated(db, op, id)
    requires op.OpSave? && op.id == id ==> FenceFor(db, id) == k
    ensures PauseInv(Apply(db, op), id, k, StillCleared(db, op, id, cleared))
  {
    if op.OpSave? {
      if op.id == id {
        SaveKeepsPause(db, id, op.e, k, cleared);
      } else {
        OtherSaveKeepsPause(db, op.id, op.e, id);
      }
    } else {
      OtherOpsLeaveStreaks(db, op, id);
    }
  }

  lemma {:induction false} PauseHistory(db: Db, ops: seq<Op>, id: string, last: Db, k: int, cleared: bool)
    requires PauseInv(db, id, k, cleared) && GatedHistory(db, ops, id, last) && FencedBy(db, ops, id, k, k)
    ensures PauseInv(last, id, k, ClearedSince(db, ops, id, cleared))
    decreases |ops|
  {
    if ops == [] {
    } else {
      OpKeepsPause(db, ops[0], id, k, cleared);
      PauseHistory(Apply(db, ops[0]), ops[1..], id, last, k, StillCleared(db, ops[0], id, cleared));
    }
  }

  /** Over every history under the fence `k`: the item is paused exactly when its rows end
      in `k` or more bad ones and no pause was cleared since the last of them; and the pause
      says so, with what the last of them says. */
  lemma FenceTrips(db: Db, ops: seq<Op>, id: string, last: Db, k: nat)
    requires RowsOf(db.steps, id) == [] && id !in db.pending && k > 0
    requires GatedHistory(db, ops, id, last) && FencedBy(db, ops, id, k, k)
    ensures id in last.pending <==> TrailingBad(RowsOf(last.steps, id)) >= k && !ClearedSince(db, ops, id, false)
    ensures id in last.pending ==> PauseSays(last.pending[id], k, RowsOf(last.steps, id))
  {
    PauseHistory(db, ops, id, last, k, false);
  }
}
