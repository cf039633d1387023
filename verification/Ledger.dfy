/** The rows of one item, as every store keeps them: appended once per execution,
    redeliveries ignored (src/papayya/durable/sqlite_store.py, and the control
    plane's row rule described in src/papayya/durable/lineage_journal.py). */
module Ledger {
  import opened Types
  import opened Latest

  /** A row with the same identity is already stored. */
  predicate Known(rows: seq<TaskEntry>, e: TaskEntry) {
    exists i :: 0 <= i < |rows| && IdentityOf(rows[i]) == IdentityOf(e)
  }

  /** What makes two writes one: the same token, or, without tokens, the same key. */
  lemma KnownMeaning(rows: seq<TaskEntry>, e: TaskEntry)
    ensures e.token != "" ==> (Known(rows, e) <==> exists i :: 0 <= i < |rows| && rows[i].token == e.token)
    ensures e.token == "" ==> (Known(rows, e) <==> exists i :: 0 <= i < |rows| && rows[i].token == "" && rows[i].key == e.key)
  {
    forall i | 0 <= i < |rows|
      ensures IdentityOf(rows[i]) == IdentityOf(e) <==> rows[i].token == e.token && (e.token == "" ==> rows[i].key == e.key)
    {
    }
  }

  function SaveRow(rows: seq<TaskEntry>, e: TaskEntry): seq<TaskEntry> {
    if Known(rows, e) then rows else rows + [e]
  }

  /** Deliver writes one after the other. */
  function Deliver(rows: seq<TaskEntry>, writes: seq<TaskEntry>): seq<TaskEntry> {
    if writes == [] then rows
    else SaveRow(Deliver(rows, writes[..|writes| - 1]), writes[|writes| - 1])
  }

  /** Writes that share an identity are redeliveries of one write. */
  ghost predicate Redeliveries(writes: seq<TaskEntry>) {
    forall a, b :: a in writes && b in writes && IdentityOf(a) == IdentityOf(b) ==> a == b
  }

  ghost predicate Distinct(rows: seq<TaskEntry>) {
    forall i, j :: 0 <= i < j < |rows| ==> IdentityOf(rows[i]) != IdentityOf(rows[j])
  }

  /** Nothing with the identity of `e` arrived before `e`. */
  ghost predicate ArrivedFirst(writes: seq<TaskEntry>, e: TaskEntry) {
    exists i :: 0 <= i < |writes| && writes[i] == e && !Known(writes[..i], e)
  }

  lemma KnownAppend(rows: seq<TaskEntry>, e: TaskEntry, w: TaskEntry)
    ensures Known(rows + [e], w) <==> Known(rows, w) || IdentityOf(e) == IdentityOf(w)
  {
    if Known(rows, w) {
      var i :| 0 <= i < |rows| && IdentityOf(rows[i]) == IdentityOf(w);
      assert (rows + [e])[i] == rows[i];
    }
    assert (rows + [e])[|rows|] == e;
  }

  lemma ArrivedFirstStays(writes: seq<TaskEntry>, e: TaskEntry, w: TaskEntry)
    requires ArrivedFirst(writes, w)
    ensures ArrivedFirst(writes + [e], w)
  {
    var i :| 0 <= i < |writes| && writes[i] == w && !Known(writes[..i], w);
    assert (writes + [e])[i] == w && (writes + [e])[..i] == writes[..i];
  }

  lemma ArrivedFirstBefore(writes: seq<TaskEntry>, e: TaskEntry, w: TaskEntry)
    requires ArrivedFirst(writes + [e], w)
    ensures ArrivedFirst(writes, w) || (w == e && !Known(writes, e))
  {
    var all := writes + [e];
    var i :| 0 <= i < |all| && all[i] == w && !Known(all[..i], w);
    if i < |writes| {
      assert writes[i] == w && writes[..i] == all[..i];
    } else {
      assert all[..i] == writes;
    }
  }

  lemma ArrivedFirstAppend(writes: seq<TaskEntry>, e: TaskEntry, w: TaskEntry)
    ensures ArrivedFirst(writes + [e], w) <==> ArrivedFirst(writes, w) || (w == e && !Known(writes, e))
  {
    if ArrivedFirst(writes + [e], w) {
      ArrivedFirstBefore(writes, e, w);
    }
    if ArrivedFirst(writes, w) {
      ArrivedFirstStays(writes, e, w);
    }
    if w == e && !Known(writes, e) {
      assert (writes + [e])[|writes|] == e && (writes + [e])[..|writes|] == writes;
    }
  }

  lemma {:induction false} DeliverKnows(writes: seq<TaskEntry>, w: TaskEntry)
    ensures Known(Deliver([], writes), w) <==> Known(writes, w)
  {
    if writes == [] {
    } else {
      var init, e := writes[..|writes| - 1], writes[|writes| - 1];
      assert writes == init + [e];
      DeliverKnows(init, w);
      DeliverKnows(init, e);
      KnownAppend(init, e, w);
      KnownAppend(Deliver([], init), e, w);
      if Known(init, e) && IdentityOf(e) == IdentityOf(w) {
        var i :| 0 <= i < |init| && IdentityOf(init[i]) == IdentityOf(e);
      }
    }
  }

  lemma {:induction false} DeliverIsDistinct(writes: seq<TaskEntry>)
    ensures Distinct(Deliver([], writes))
  {
    if writes == [] {
    } else {
      DeliverIsDistinct(writes[..|writes| - 1]);
    }
  }

  lemma {:induction false} DeliverHolds(writes: seq<TaskEntry>, w: TaskEntry)
    ensures w in Deliver([], writes) <==> ArrivedFirst(writes, w)
  {
    if writes == [] {
    } else {
      var init, e := writes[..|writes| - 1], writes[|writes| - 1];
      assert writes == init + [e];
      DeliverHolds(init, w);
      DeliverKnows(init, e);
      ArrivedFirstAppend(init, e, w);
    }
  }

  /** However often and in whatever order writes arrive: of the writes with one
      identity exactly the first to arrive is stored, once. */
  lemma DeliverKeepsTheFirst(writes: seq<TaskEntry>)
    ensures Distinct(Deliver([], writes))
    ensures forall e :: e in Deliver([], writes) <==> ArrivedFirst(writes, e)
    ensures forall e :: Known(Deliver([], writes), e) <==> Known(writes, e)
  {
    DeliverIsDistinct(writes);
    forall e
      ensures e in Deliver([], writes) <==> ArrivedFirst(writes, e)
      ensures Known(Deliver([], writes), e) <==> Known(writes, e)
    {
      DeliverHolds(writes, e);
      DeliverKnows(writes, e);
    }
  }

  /** Behind a write with the same identity no write is first. */
  lemma BehindAnother(before: seq<TaskEntry>, xs: seq<TaskEntry>, f: TaskEntry, r: TaskEntry)
    requires f in before && IdentityOf(f) == IdentityOf(r) && r !in before
    ensures !ArrivedFirst(before + xs, r)
  {
    var all := before + xs;
    var j :| 0 <= j < |before| && before[j] == f;
    assert forall k :: 0 <= k < |before| ==> all[k] == before[k] && before[k] in before;
    forall i | 0 <= i < |all| && all[i] == r
      ensures Known(all[..i], r)
    {
      assert all[..i][j] == f;
    }
  }

  lemma StoredRowsArrived(writes: seq<TaskEntry>)
    ensures forall e :: e in Deliver([], writes) ==> e in writes
  {
    DeliverKeepsTheFirst(writes);
  }

  lemma KnownHasMember(rows: seq<TaskEntry>, e: TaskEntry) returns (r: TaskEntry)
    requires Known(rows, e)
    ensures r in rows && IdentityOf(r) == IdentityOf(e)
  {
    var i :| 0 <= i < |rows| && IdentityOf(rows[i]) == IdentityOf(e);
    r := rows[i];
  }

  /** No other write has the identity of `e`. */
  ghost predicate OnlyOfItsIdentity(writes: seq<TaskEntry>, e: TaskEntry) {
    forall f :: f in writes && IdentityOf(f) == IdentityOf(e) ==> f == e
  }

  /** A write that is alone with its identity is stored. */
  lemma AloneIsStored(writes: seq<TaskEntry>, e: TaskEntry)
    requires e in writes && OnlyOfItsIdentity(writes, e)
    ensures e in Deliver([], writes)
  {
    DeliverKeepsTheFirst(writes);
    var i :| 0 <= i < |writes| && writes[i] == e;
    assert Known(writes, e);
    var r := KnownHasMember(Deliver([], writes), e);
    StoredRowsArrived(writes);
    assert r in writes;
  }

  /** Everything that arrives is stored exactly when only redeliveries share an
      identity. */
  lemma DeliverStoresEverything(writes: seq<TaskEntry>)
    ensures SameElements(Deliver([], writes), writes) <==> Redeliveries(writes)
  {
    StoredRowsArrived(writes);
    if Redeliveries(writes) {
      forall e | e in writes
        ensures e in Deliver([], writes)
      {
        AloneIsStored(writes, e);
      }
    }
    if SameElements(Deliver([], writes), writes) {
      DeliverKeepsTheFirst(writes);
      forall a, b | a in writes && b in writes && IdentityOf(a) == IdentityOf(b)
        ensures a == b
      {
        DistinctRowsDiffer(Deliver([], writes), a, b);
      }
    }
  }

  lemma DistinctRowsDiffer(rows: seq<TaskEntry>, a: TaskEntry, b: TaskEntry)
    requires Distinct(rows) && a in rows && b in rows && IdentityOf(a) == IdentityOf(b)
    ensures a == b
  {
    var i :| 0 <= i < |rows| && rows[i] == a;
    var j :| 0 <= j < |rows| && rows[j] == b;
  }

  /** Lists without duplicates over the same elements are permutations. */
  lemma {:induction false} SameElementsPermute(xs: seq<TaskEntry>, ys: seq<TaskEntry>)
    requires Distinct(xs) && Distinct(ys) && SameElements(xs, ys)
    ensures multiset(xs) == multiset(ys)
  {
    forall e
      ensures multiset(xs)[e] == multiset(ys)[e]
    {
      DistinctCount(xs, e);
      DistinctCount(ys, e);
    }
  }

  lemma {:induction false} DistinctCount(xs: seq<TaskEntry>, e: TaskEntry)
    requires Distinct(xs)
    ensures multiset(xs)[e] == if e in xs then 1 else 0
  {
    if xs == [] {
    } else {
      var init, last := xs[..|xs| - 1], xs[|xs| - 1];
      assert xs == init + [last];
      DistinctCount(init, e);
    }
  }

  // ---- exactly when the order of arrival does not matter ----

  lemma {:induction false} DeliverCons(rows: seq<TaskEntry>, a: TaskEntry, writes: seq<TaskEntry>)
    ensures Deliver(rows, [a] + writes) == Deliver(SaveRow(rows, a), writes)
  {
    var all := [a] + writes;
    if writes == [] {
      assert all[..|all| - 1] == [] && all[|all| - 1] == a;
    } else {
      assert all[..|all| - 1] == [a] + writes[..|writes| - 1];
      DeliverCons(rows, a, writes[..|writes| - 1]);
    }
  }

  /** Two writes with one identity, one of them first: the rest is stored alike. */
  lemma {:induction false} FirstHeadStays(a: TaskEntry, b: TaskEntry, writes: seq<TaskEntry>)
    requires IdentityOf(a) == IdentityOf(b)
    ensures var ra, rb := Deliver([a], writes), Deliver([b], writes);
            |ra| == |rb| > 0 && ra[0] == a && rb[0] == b && ra[1..] == rb[1..]
  {
    if writes == [] {
    } else {
      var init, e := writes[..|writes| - 1], writes[|writes| - 1];
      FirstHeadStays(a, b, init);
      var ra, rb := Deliver([a], init), Deliver([b], init);
      assert forall i :: 0 < i < |ra| ==> ra[i] == ra[1..][i - 1] && rb[i] == rb[1..][i - 1];
      assert Known(ra, e) <==> Known(rb, e);
      assert (ra + [e])[1..] == ra[1..] + [e] && (rb + [e])[1..] == rb[1..] + [e];
    }
  }

  /** What is stored when `a`, or `b` with the same identity, arrives before the rest. */
  lemma EitherFirst(a: TaskEntry, b: TaskEntry, writes: seq<TaskEntry>) returns (rest: seq<TaskEntry>)
    requires IdentityOf(a) == IdentityOf(b)
    ensures Deliver([], [a] + writes) == [a] + rest && Deliver([], [b] + writes) == [b] + rest
  {
    DeliverCons([], a, writes);
    DeliverCons([], b, writes);
    FirstHeadStays(a, b, writes);
    rest := Deliver([a], writes)[1..];
    assert SaveRow([], a) == [a] && SaveRow([], b) == [b];
    assert Deliver([a], writes) == [Deliver([a], writes)[0]] + rest;
    assert Deliver([b], writes) == [Deliver([b], writes)[0]] + rest;
  }

  lemma SameElementsCons(writes: seq<TaskEntry>, a: TaskEntry)
    requires a in writes
    ensures SameElements(writes, [a] + writes)
  {
  }

  /** The same writes leave the same rows, whatever the order and number of arrivals. */
  ghost predicate OrderFree(writes: seq<TaskEntry>) {
    forall ys, zs :: SameElements(writes, ys) && SameElements(writes, zs) ==>
      multiset(Deliver([], ys)) == multiset(Deliver([], zs))
  }

  lemma SameRowsEitherWay(xs: seq<TaskEntry>, ys: seq<TaskEntry>)
    requires SameElements(xs, ys) && Redeliveries(xs)
    ensures SameElements(Deliver([], xs), Deliver([], ys))
    ensures multiset(Deliver([], xs)) == multiset(Deliver([], ys))
  {
    DeliverStoresEverything(xs);
    DeliverStoresEverything(ys);
    DeliverKeepsTheFirst(xs);
    DeliverKeepsTheFirst(ys);
    SameElementsPermute(Deliver([], xs), Deliver([], ys));
  }

  lemma SameHead(a: TaskEntry, b: TaskEntry, rest: seq<TaskEntry>)
    ensures multiset([a] + rest) == multiset([b] + rest) <==> a == b
  {
    assert multiset([a] + rest)[a] == multiset(rest)[a] + 1;
  }

  lemma SameOrder(xs: seq<TaskEntry>, ys: seq<TaskEntry>, zs: seq<TaskEntry>)
    requires OrderFree(xs) && SameElements(xs, ys) && SameElements(xs, zs)
    ensures multiset(Deliver([], ys)) == multiset(Deliver([], zs))
  {
  }

  lemma OrderShows(xs: seq<TaskEntry>, a: TaskEntry, b: TaskEntry)
    requires OrderFree(xs) && a in xs && b in xs && IdentityOf(a) == IdentityOf(b)
    ensures a == b
  {
    SameElementsCons(xs, a);
    SameElementsCons(xs, b);
    SameOrder(xs, [a] + xs, [b] + xs);
    var rest := EitherFirst(a, b, xs);
    SameHead(a, b, rest);
  }

  /** Delivery converges exactly when writes that share an identity are one write. */
  lemma OrderFreeIffRedeliveries(xs: seq<TaskEntry>)
    ensures OrderFree(xs) <==> Redeliveries(xs)
  {
    if Redeliveries(xs) {
      forall ys, zs | SameElements(xs, ys) && SameElements(xs, zs)
        ensures multiset(Deliver([], ys)) == multiset(Deliver([], zs))
      {
        SameRowsEitherWay(xs, ys);
        SameRowsEitherWay(xs, zs);
      }
    }
    if OrderFree(xs) {
      forall a, b | a in xs && b in xs && IdentityOf(a) == IdentityOf(b)
        ensures a == b
      {
        OrderShows(xs, a, b);
      }
    }
  }

  /** `top` is kept when the writes arrive as `ys`. */
  ghost predicate KeptBy(xs: seq<TaskEntry>, ys: seq<TaskEntry>, top: TaskEntry) {
    SameElements(xs, ys) ==> Winner(Deliver([], ys), top.key) == Some(top)
  }

  ghost predicate KeptInEveryOrder(xs: seq<TaskEntry>, top: TaskEntry) {
    forall ys :: KeptBy(xs, ys, top)
  }

  /** The latest execution of a key, the one with the largest stamp, is kept in every
      order of arrival exactly when no other write has its identity. */
  lemma LatestConvergesIff(xs: seq<TaskEntry>, top: TaskEntry)
    requires OnTop(xs, top) && UniqueTop(xs, top.key)
    ensures KeptInEveryOrder(xs, top) <==> OnlyOfItsIdentity(xs, top)
  {
    if OnlyOfItsIdentity(xs, top) {
      forall ys
        ensures KeptBy(xs, ys, top)
      {
        if SameElements(xs, ys) {
          StoredTopWins(xs, ys, top);
        }
      }
    } else {
      var f :| f in xs && IdentityOf(f) == IdentityOf(top) && f != top;
      SameElementsCons(xs, f);
      ShadowedIsNotStored(xs, f, top);
      NotStoredNotKept(xs, [f] + xs, top);
    }
  }

  lemma NotStoredNotKept(xs: seq<TaskEntry>, ys: seq<TaskEntry>, top: TaskEntry)
    requires SameElements(xs, ys) && top !in Deliver([], ys)
    ensures !KeptInEveryOrder(xs, top)
  {
    assert !KeptBy(xs, ys, top);
  }

  lemma StoredTopWins(xs: seq<TaskEntry>, ys: seq<TaskEntry>, top: TaskEntry)
    requires OnTop(xs, top) && UniqueTop(xs, top.key) && SameElements(xs, ys) && OnlyOfItsIdentity(xs, top)
    ensures Winner(Deliver([], ys), top.key) == Some(top)
  {
    var rows := Deliver([], ys);
    StoredRowsArrived(ys);
    AloneIsStored(ys, top);
    var i :| 0 <= i < |rows| && rows[i] == top;
    assert Has(rows, top.key);
    WinnerOnTop(rows, top.key);
    assert OnTop(xs, Winner(rows, top.key).value);
  }

  lemma ShadowedIsNotStored(xs: seq<TaskEntry>, f: TaskEntry, top: TaskEntry)
    requires IdentityOf(f) == IdentityOf(top) && f != top
    ensures top !in Deliver([], [f] + xs)
  {
    var rest := EitherFirst(f, f, xs);
    DeliverIsDistinct([f] + xs);
    if top in Deliver([], [f] + xs) {
      DistinctRowsDiffer([f] + rest, f, top);
    }
  }

  /** How often a key has been executed. */
  function Executions(rows: seq<TaskEntry>, key: string): nat {
    if rows == [] then 0
    else Executions(rows[..|rows| - 1], key) + (if rows[|rows| - 1].key == key then 1 else 0)
  }

  lemma ExecutionsAppend(rows: seq<TaskEntry>, e: TaskEntry, key: string)
    ensures Executions(rows + [e], key) == Executions(rows, key) + (if e.key == key then 1 else 0)
  {
    assert (rows + [e])[..|rows|] == rows;
  }

  lemma HasAppend(rows: seq<TaskEntry>, e: TaskEntry, key: string)
    ensures Has(rows + [e], key) <==> Has(rows, key) || e.key == key
  {
    if Has(rows, key) {
      var i :| 0 <= i < |rows| && rows[i].key == key;
      assert (rows + [e])[i] == rows[i];
    }
    assert (rows + [e])[|rows|] == e;
  }

  lemma {:induction false} ExecutedHas(rows: seq<TaskEntry>, key: string)
    ensures Executions(rows, key) > 0 <==> Has(rows, key)
  {
    if rows == [] {
    } else {
      var init, last := rows[..|rows| - 1], rows[|rows| - 1];
      assert rows == init + [last];
      ExecutedHas(init, key);
      HasAppend(init, last, key);
    }
  }

  /** The row of a key executed once is the one the collapse keeps. */
  lemma {:induction false} OnlyRowWins(rows: seq<TaskEntry>, i: nat)
    requires i < |rows| && Executions(rows, rows[i].key) <= 1
    ensures Winner(rows, rows[i].key) == Some(rows[i])
  {
    var init, last := rows[..|rows| - 1], rows[|rows| - 1];
    assert rows == init + [last];
    if i < |init| {
      ExecutedHas(init, init[i].key);
      OnlyRowWins(init, i);
    } else {
      ExecutedHas(init, last.key);
    }
  }
}
