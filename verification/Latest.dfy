/** Collapsing several executions of a step to the latest one
    (`latest_per_label` in src/papayya/durable/types.py). */
module Latest {
  import opened Types

  /** Order on the client's stamps `(attempt, completed_at)`. */
  predicate NotAfter(a: TaskEntry, b: TaskEntry) {
    a.attempt < b.attempt || (a.attempt == b.attempt && a.completedAt <= b.completedAt)
  }

  predicate Has(rows: seq<TaskEntry>, key: string) {
    exists i :: 0 <= i < |rows| && rows[i].key == key
  }

  /** The entry the collapse keeps for `key`: a later row replaces an earlier one
      unless its stamp is smaller. */
  function Winner(rows: seq<TaskEntry>, key: string): (w: Option<TaskEntry>)
    ensures w.Some? <==> Has(rows, key)
    ensures w.Some? ==> w.value in rows && w.value.key == key
  {
    if rows == [] then None
    else
      var init, last := rows[..|rows| - 1], rows[|rows| - 1];
      var prior := Winner(init, key);
      if last.key == key && (prior.None? || NotAfter(prior.value, last)) then Some(last) else prior
  }

  /** The keys in order of first appearance. */
  function FirstSeen(rows: seq<TaskEntry>): (keys: seq<string>)
    ensures forall k :: k in keys <==> Has(rows, k)
  {
    if rows == [] then []
    else
      var init, last := rows[..|rows| - 1], rows[|rows| - 1];
      var keys := FirstSeen(init);
      if last.key in keys then keys else keys + [last.key]
  }

  function Collapse(rows: seq<TaskEntry>): (out: seq<TaskEntry>)
    ensures |out| == |FirstSeen(rows)|
    ensures forall i :: 0 <= i < |out| ==> out[i].key == FirstSeen(rows)[i]
  {
    var keys := FirstSeen(rows);
    seq(|keys|, i requires 0 <= i < |keys| => Winner(rows, keys[i]).value)
  }

  /** The loop of the source: one pass with a dictionary and an order list. */
  method LatestPerLabel(tasks: seq<TaskEntry>) returns (out: seq<TaskEntry>)
    ensures out == Collapse(tasks)
  {
    var latest: map<string, TaskEntry> := map[];
    var order: seq<string> := [];
    for i := 0 to |tasks|
      invariant order == FirstSeen(tasks[..i])
      invariant forall k :: k in latest <==> k in order
      invariant forall k :: k in latest ==> Winner(tasks[..i], k) == Some(latest[k])
    {
      var entry := tasks[i];
      assert tasks[..i + 1][..i] == tasks[..i];
      if entry.key !in latest {
        order := order + [entry.key];
        latest := latest[entry.key := entry];
      } else if NotAfter(latest[entry.key], entry) {
        latest := latest[entry.key := entry];
      }
    }
    assert tasks[..|tasks|] == tasks;
    out := seq(|order|, i requires 0 <= i < |order| && order[i] in latest => latest[order[i]]);
  }

  // ---- what the kept entry is ----

  /** Nothing under the same key has a larger stamp. */
  ghost predicate OnTop(rows: seq<TaskEntry>, e: TaskEntry) {
    e in rows && forall f :: f in rows && f.key == e.key ==> NotAfter(f, e)
  }

  lemma {:induction false} WinnerOnTop(rows: seq<TaskEntry>, key: string)
    requires Has(rows, key)
    ensures OnTop(rows, Winner(rows, key).value)
  {
    var init, last := rows[..|rows| - 1], rows[|rows| - 1];
    assert rows == init + [last];
    if Has(init, key) {
      WinnerOnTop(init, key);
    } else {
      assert last.key == key;
    }
  }

  /** The last row wins when its stamp is not smaller than any other of its key. */
  lemma LastOnTopWins(rows: seq<TaskEntry>, e: TaskEntry)
    requires forall f :: f in rows && f.key == e.key ==> NotAfter(f, e)
    ensures Winner(rows + [e], e.key) == Some(e)
  {
    assert (rows + [e])[..|rows|] == rows;
  }

  lemma OtherKeysKeepWinner(rows: seq<TaskEntry>, e: TaskEntry, key: string)
    requires key != e.key
    ensures Winner(rows + [e], key) == Winner(rows, key)
  {
    assert (rows + [e])[..|rows|] == rows;
  }

  lemma {:induction false} FirstSeenDistinct(rows: seq<TaskEntry>)
    ensures forall i, j :: 0 <= i < j < |FirstSeen(rows)| ==> FirstSeen(rows)[i] != FirstSeen(rows)[j]
  {
    if rows == [] {
    } else {
      FirstSeenDistinct(rows[..|rows| - 1]);
    }
  }

  /** The collapse holds one entry for each key that occurs, no key twice, and each
      entry is one of the rows with a largest stamp for its key. */
  lemma CollapseMeaning(rows: seq<TaskEntry>)
    ensures forall i, j :: 0 <= i < j < |Collapse(rows)| ==> Collapse(rows)[i].key != Collapse(rows)[j].key
    ensures forall k :: (exists e :: e in Collapse(rows) && e.key == k) <==> Has(rows, k)
    ensures forall e :: e in Collapse(rows) ==> OnTop(rows, e)
  {
    FirstSeenDistinct(rows);
    var out, keys := Collapse(rows), FirstSeen(rows);
    forall k
      ensures (exists e :: e in out && e.key == k) <==> Has(rows, k)
    {
      if Has(rows, k) {
        assert k in keys;
        var i :| 0 <= i < |keys| && keys[i] == k;
        assert out[i] in out && out[i].key == k;
      }
    }
    forall e | e in out
      ensures OnTop(rows, e)
    {
      WinnerOnTop(rows, e.key);
    }
  }

  /** Row `i` is the first with its key. */
  ghost predicate IsFirst(rows: seq<TaskEntry>, i: nat) {
    i < |rows| && forall j :: 0 <= j < i ==> rows[j].key != rows[i].key
  }

  /** The labels keep the order in which they appeared: of two entries of the collapse,
      the one whose label appeared first is first. */
  lemma {:induction false} CollapseKeepsOrder(rows: seq<TaskEntry>, p: nat, q: nat, i: nat, j: nat)
    requires p < q < |Collapse(rows)|
    requires IsFirst(rows, i) && rows[i].key == Collapse(rows)[p].key
    requires IsFirst(rows, j) && rows[j].key == Collapse(rows)[q].key
    ensures i < j
  {
    var n := |rows| - 1;
    var init := rows[..n];
    FirstSeenDistinct(rows);
    if rows[n].key in FirstSeen(init) || q < |FirstSeen(init)| {
      FirstInPrefix(rows, n, i, FirstSeen(init)[p]);
      FirstInPrefix(rows, n, j, FirstSeen(init)[q]);
      CollapseKeepsOrder(init, p, q, i, j);
    } else {
      FirstInPrefix(rows, n, i, FirstSeen(init)[p]);
      assert !Has(init, rows[n].key);
    }
  }

  /** The first row of a key that occurs in a beginning is in that beginning. */
  lemma FirstInPrefix(rows: seq<TaskEntry>, n: nat, i: nat, key: string)
    requires n <= |rows| && IsFirst(rows, i) && rows[i].key == key && Has(rows[..n], key)
    ensures i < n && IsFirst(rows[..n], i)
  {
    var k :| 0 <= k < n && rows[..n][k].key == key;
    assert rows[k].key == key;
  }

  /** Which row of a key is kept: the last of those with the highest attempt and, among
      these, the latest completion. */
  ghost predicate IsLatest(rows: seq<TaskEntry>, i: nat) {
    && i < |rows|
    && forall j :: 0 <= j < |rows| && rows[j].key == rows[i].key ==>
         && rows[j].attempt <= rows[i].attempt
         && (rows[j].attempt == rows[i].attempt ==>
               rows[j].completedAt < rows[i].completedAt || (rows[j].completedAt == rows[i].completedAt && j <= i))
  }

  lemma {:induction false} KeptIsTheLatest(rows: seq<TaskEntry>, key: string) returns (i: nat)
    requires Has(rows, key)
    ensures IsLatest(rows, i) && rows[i].key == key && Winner(rows, key) == Some(rows[i])
  {
    var n := |rows| - 1;
    var init := rows[..n];
    assert forall j :: 0 <= j < n ==> rows[j] == init[j];
    if Has(init, key) {
      i := KeptIsTheLatest(init, key);
      if rows[n].key == key && NotAfter(init[i], rows[n]) {
        i := n;
      }
    } else {
      i := n;
    }
  }

  // ---- independence of the order of arrival ----

  ghost predicate SameElements(xs: seq<TaskEntry>, ys: seq<TaskEntry>) {
    forall e :: e in xs <==> e in ys
  }

  /** No two different rows of `key` share the largest stamp. */
  ghost predicate UniqueTop(rows: seq<TaskEntry>, key: string) {
    forall a, b :: OnTop(rows, a) && OnTop(rows, b) && a.key == key && b.key == key ==> a == b
  }

  lemma {:induction false} SameElementsSameWinner(xs: seq<TaskEntry>, ys: seq<TaskEntry>, key: string)
    requires SameElements(xs, ys) && UniqueTop(xs, key)
    ensures Winner(xs, key) == Winner(ys, key)
  {
    if Has(xs, key) {
      var i :| 0 <= i < |xs| && xs[i].key == key;
      assert xs[i] in ys;
      WinnerOnTop(xs, key);
      WinnerOnTop(ys, key);
      assert OnTop(xs, Winner(ys, key).value);
    }
  }

  ghost function MovedLast(rows: seq<TaskEntry>, i: nat): (moved: seq<TaskEntry>)
    requires i < |rows|
    ensures multiset(moved) == multiset(rows)
    ensures SameElements(moved, rows)
  {
    var moved := rows[..i] + rows[i + 1..] + [rows[i]];
    assert rows == rows[..i] + [rows[i]] + rows[i + 1..];
    assert forall e :: e in moved <==> e in multiset(moved);
    assert forall e :: e in rows <==> e in multiset(rows);
    moved
  }

  /** A row with a largest stamp wins in some arrival order. */
  lemma TopCanWin(rows: seq<TaskEntry>, e: TaskEntry) returns (ys: seq<TaskEntry>)
    requires OnTop(rows, e)
    ensures multiset(ys) == multiset(rows) && Winner(ys, e.key) == Some(e)
  {
    var i :| 0 <= i < |rows| && rows[i] == e;
    ys := MovedLast(rows, i);
    var init := rows[..i] + rows[i + 1..];
    assert forall f :: f in init ==> f in rows;
    LastOnTopWins(init, e);
  }

  /** The kept entry is the same in every arrival order exactly when no two
      different rows of the key share the largest stamp. */
  lemma OrderIndependence(rows: seq<TaskEntry>, key: string)
    ensures (forall ys :: multiset(ys) == multiset(rows) ==> Winner(ys, key) == Winner(rows, key))
       <==> UniqueTop(rows, key)
  {
    if UniqueTop(rows, key) {
      forall ys | multiset(ys) == multiset(rows)
        ensures Winner(ys, key) == Winner(rows, key)
      {
        assert forall e :: e in ys <==> e in multiset(ys);
        assert forall e :: e in rows <==> e in multiset(rows);
        SameElementsSameWinner(rows, ys, key);
      }
    } else {
      var a, b :| OnTop(rows, a) && OnTop(rows, b) && a.key == key && b.key == key && a != b;
      var ys := TopCanWin(rows, a);
      var zs := TopCanWin(rows, b);
      assert Winner(ys, key) != Winner(zs, key);
    }
  }

  /** A row whose stamp is smaller than another row's of its key is never kept. */
  lemma StaleNeverWins(rows: seq<TaskEntry>, stale: TaskEntry, newer: TaskEntry)
    requires stale.key == newer.key && newer in rows && !NotAfter(newer, stale)
    ensures Winner(rows, stale.key) != Some(stale)
    ensures stale !in Collapse(rows)
  {
    var i :| 0 <= i < |rows| && rows[i] == newer;
    WinnerOnTop(rows, stale.key);
    CollapseMeaning(rows);
  }

  // ---- attempts ----

  /** The highest attempt recorded for `key`, 0 when there is none. */
  function MaxAttempt(rows: seq<TaskEntry>, key: string): (m: int)
    ensures m >= 0
    ensures forall i :: 0 <= i < |rows| && rows[i].key == key ==> rows[i].attempt <= m
    ensures m > 0 ==> exists i :: 0 <= i < |rows| && rows[i].key == key && rows[i].attempt == m
  {
    if rows == [] then 0
    else
      var init, last := rows[..|rows| - 1], rows[|rows| - 1];
      var prior := MaxAttempt(init, key);
      if last.key == key && last.attempt > prior then last.attempt else prior
  }

  lemma MaxAttemptAppend(rows: seq<TaskEntry>, e: TaskEntry, key: string)
    ensures MaxAttempt(rows + [e], key) ==
            if e.key == key && e.attempt > MaxAttempt(rows, key) then e.attempt else MaxAttempt(rows, key)
  {
    assert (rows + [e])[..|rows|] == rows;
  }
}
