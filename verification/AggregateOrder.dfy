/** Exactly when an item's aggregates do not depend on the order and number of
    deliveries of its executions. */
module AggregateOrder {
  import opened Types
  import opened Latest
  import opened Ledger
  import opened SqliteSpec
  import opened Aggregates

  function BadIdentities(rows: seq<TaskEntry>): set<Identity> {
    set e | e in rows && e.outcome != OutcomeOk :: IdentityOf(e)
  }

  lemma BadIdentitiesAppend(init: seq<TaskEntry>, e: TaskEntry)
    ensures BadIdentities(init + [e]) == BadIdentities(init) + (if e.outcome == OutcomeOk then {} else {IdentityOf(e)})
  {
    assert forall f :: f in init + [e] <==> f in init || f == e;
  }

  lemma NewIdentity(init: seq<TaskEntry>, e: TaskEntry)
    requires Distinct(init + [e])
    ensures forall f :: f in init ==> IdentityOf(f) != IdentityOf(e)
  {
    forall i | 0 <= i < |init|
      ensures IdentityOf(init[i]) != IdentityOf(e)
    {
      assert (init + [e])[i] == init[i] && (init + [e])[|init|] == e;
    }
  }

  /** Without duplicates the number of bad rows is the number of their identities. */
  lemma {:induction false} NotOkIsIdentityCount(rows: seq<TaskEntry>)
    requires Distinct(rows)
    ensures NotOk(rows) == |BadIdentities(rows)|
  {
    if rows == [] {
    } else {
      var init, e := rows[..|rows| - 1], rows[|rows| - 1];
      assert rows == init + [e];
      NotOkIsIdentityCount(init);
      BadIdentitiesAppend(init, e);
      NewIdentity(init, e);
    }
  }

  /** Save a list of writes to one item, first to last. */
  function Saves(db: Db, id: string, writes: seq<TaskEntry>): (db': Db)
    ensures db'.items.Keys == db.items.Keys
  {
    if writes == [] then db else AfterSave(Saves(db, id, writes[..|writes| - 1]), id, writes[|writes| - 1])
  }

  /** What the store keeps of a list of entries. */
  function PersistedAll(rows: seq<TaskEntry>): seq<TaskEntry> {
    seq(|rows|, i requires 0 <= i < |rows| => Persisted(rows[i]))
  }

  lemma SaveRowPersists(rows: seq<TaskEntry>, e: TaskEntry)
    ensures SaveRow(PersistedAll(rows), Persisted(e)) == PersistedAll(SaveRow(rows, e))
  {
    if Known(rows, e) {
      var i :| 0 <= i < |rows| && IdentityOf(rows[i]) == IdentityOf(e);
      assert IdentityOf(PersistedAll(rows)[i]) == IdentityOf(Persisted(e));
    }
  }

  lemma {:induction false} SavesDeliver(db: Db, id: string, writes: seq<TaskEntry>)
    requires AllAggregated(db) && id in db.items && RowsOf(db.steps, id) == []
    ensures AllAggregated(Saves(db, id, writes))
    ensures RowsOf(Saves(db, id, writes).steps, id) == PersistedAll(Deliver([], writes))
  {
    if writes == [] {
    } else {
      var init, e := writes[..|writes| - 1], writes[|writes| - 1];
      SavesDeliver(db, id, init);
      SaveKeepsAggregates(Saves(db, id, init), id, e);
      SaveIsSaveRow(Saves(db, id, init), id, e);
      SaveRowPersists(Deliver([], init), e);
    }
  }

  lemma {:induction false} NotOkPersisted(rows: seq<TaskEntry>)
    ensures NotOk(PersistedAll(rows)) == NotOk(rows)
  {
    if rows == [] {
    } else {
      NotOkPersisted(rows[..|rows| - 1]);
      assert PersistedAll(rows)[..|rows| - 1] == PersistedAll(rows[..|rows| - 1]);
    }
  }

  lemma WorstPersisted(rows: seq<TaskEntry>, w: Outcome)
    ensures IsWorst(PersistedAll(rows), w) ==> IsWorst(rows, w)
  {
    if IsWorst(PersistedAll(rows), w) {
      forall e | e in rows
        ensures Severity(e.outcome) <= Severity(w)
      {
        var i :| 0 <= i < |rows| && rows[i] == e;
        assert PersistedAll(rows)[i] in PersistedAll(rows);
      }
      if w != OutcomeOk {
        var e :| e in PersistedAll(rows) && e.outcome == w;
        var i :| 0 <= i < |rows| && PersistedAll(rows)[i] == e;
        assert rows[i] in rows;
      }
    }
  }

  /** After any deliveries the aggregates are those of the entries stored: of the ones
      with one identity, the first to arrive. The fields the store drops play no part. */
  lemma DeliveredAggregates(db: Db, id: string, xs: seq<TaskEntry>)
    requires AllAggregated(db) && id in db.items && RowsOf(db.steps, id) == []
    ensures Saves(db, id, xs).items[id].degraded == NotOk(Deliver([], xs))
    ensures IsWorst(Deliver([], xs), Saves(db, id, xs).items[id].worst)
  {
    SavesDeliver(db, id, xs);
    assert ItemAggregated(Saves(db, id, xs), id);
    NotOkPersisted(Deliver([], xs));
    WorstPersisted(Deliver([], xs), Saves(db, id, xs).items[id].worst);
  }

  // ---- the count ----

  /** Entries with one identity are all ok or all not. */
  ghost predicate BadnessAgrees(xs: seq<TaskEntry>) {
    forall a, b :: a in xs && b in xs && IdentityOf(a) == IdentityOf(b) ==> (a.outcome == OutcomeOk <==> b.outcome == OutcomeOk)
  }

  lemma StoredBadIdentities(xs: seq<TaskEntry>, ys: seq<TaskEntry>)
    requires BadnessAgrees(xs) && SameElements(xs, ys)
    ensures NotOk(Deliver([], ys)) == |BadIdentities(xs)|
  {
    var rows := Deliver([], ys);
    DeliverKeepsTheFirst(ys);
    StoredRowsArrived(ys);
    NotOkIsIdentityCount(rows);
    forall e | e in xs && e.outcome != OutcomeOk
      ensures IdentityOf(e) in BadIdentities(rows)
    {
      var i :| 0 <= i < |ys| && ys[i] == e;
      assert Known(ys, e);
      var r := KnownHasMember(rows, e);
      assert r in xs;
    }
    assert BadIdentities(rows) == BadIdentities(xs);
  }

  lemma {:induction false} NotOkCons(e: TaskEntry, rest: seq<TaskEntry>)
    ensures NotOk([e] + rest) == NotOk(rest) + (if e.outcome == OutcomeOk then 0 else 1)
  {
    var all := [e] + rest;
    if rest == [] {
      assert all[..0] == [];
    } else {
      NotOkCons(e, rest[..|rest| - 1]);
      assert all[..|all| - 1] == [e] + rest[..|rest| - 1];
    }
  }

  ghost predicate CountIsOrderFree(xs: seq<TaskEntry>) {
    forall ys, zs :: SameElements(xs, ys) && SameElements(xs, zs) ==> NotOk(Deliver([], ys)) == NotOk(Deliver([], zs))
  }

  lemma CountShows(xs: seq<TaskEntry>, a: TaskEntry, b: TaskEntry)
    requires CountIsOrderFree(xs) && a in xs && b in xs && IdentityOf(a) == IdentityOf(b)
    ensures a.outcome == OutcomeOk <==> b.outcome == OutcomeOk
  {
    SameElementsCons(xs, a);
    SameElementsCons(xs, b);
    var rest := EitherFirst(a, b, xs);
    NotOkCons(a, rest);
    NotOkCons(b, rest);
    assert NotOk(Deliver([], [a] + xs)) == NotOk(Deliver([], [b] + xs));
  }

  lemma CountIffBadnessAgrees(xs: seq<TaskEntry>)
    ensures CountIsOrderFree(xs) <==> BadnessAgrees(xs)
  {
    if BadnessAgrees(xs) {
      forall ys, zs | SameElements(xs, ys) && SameElements(xs, zs)
        ensures NotOk(Deliver([], ys)) == NotOk(Deliver([], zs))
      {
        StoredBadIdentities(xs, ys);
        StoredBadIdentities(xs, zs);
      }
    }
    if CountIsOrderFree(xs) {
      forall a, b | a in xs && b in xs && IdentityOf(a) == IdentityOf(b)
        ensures a.outcome == OutcomeOk <==> b.outcome == OutcomeOk
      {
        CountShows(xs, a, b);
      }
    }
  }

  ghost predicate SavedCountIsOrderFree(db: Db, id: string, xs: seq<TaskEntry>)
    requires id in db.items
  {
    forall ys, zs :: SameElements(xs, ys) && SameElements(xs, zs) ==>
      Saves(db, id, ys).items[id].degraded == Saves(db, id, zs).items[id].degraded
  }

  lemma SavedCountIffCount(db: Db, id: string, xs: seq<TaskEntry>)
    requires AllAggregated(db) && id in db.items && RowsOf(db.steps, id) == []
    ensures SavedCountIsOrderFree(db, id, xs) <==> CountIsOrderFree(xs)
  {
    forall ys | SameElements(xs, ys)
      ensures Saves(db, id, ys).items[id].degraded == NotOk(Deliver([], ys))
    {
      DeliveredAggregates(db, id, ys);
    }
  }

  /** The degraded count of an item does not depend on the order and number of
      deliveries exactly when entries with one identity agree on being ok. */
  lemma CountIgnoresOrder(db: Db, id: string, xs: seq<TaskEntry>)
    requires AllAggregated(db) && id in db.items && RowsOf(db.steps, id) == []
    ensures SavedCountIsOrderFree(db, id, xs) <==> BadnessAgrees(xs)
  {
    SavedCountIffCount(db, id, xs);
    CountIffBadnessAgrees(xs);
  }

  // ---- the worst status ----

  /** Entries with the identity of `e` all have the outcome `w`. */
  ghost predicate OnlyOutcome(xs: seq<TaskEntry>, w: Outcome, e: TaskEntry) {
    forall f :: f in xs && IdentityOf(f) == IdentityOf(e) ==> f.outcome == w
  }

  /** `w` is the worst of the entries, and some identity has no other outcome. */
  ghost predicate SettledAt(xs: seq<TaskEntry>, w: Outcome) {
    && IsWorst(xs, w)
    && (w == OutcomeOk || exists e :: e in xs && OnlyOutcome(xs, w, e))
  }

  lemma WorstIsUnique(rows: seq<TaskEntry>, v: Outcome, w: Outcome)
    requires IsWorst(rows, v) && IsWorst(rows, w)
    ensures v == w
  {
  }

  lemma {:induction false} HasWorst(rows: seq<TaskEntry>) returns (w: Outcome)
    ensures IsWorst(rows, w)
  {
    if rows == [] {
      w := OutcomeOk;
    } else {
      var init, e := rows[..|rows| - 1], rows[|rows| - 1];
      var before := HasWorst(init);
      WorseIsWorst(init, before, e);
      assert rows == init + [e];
      w := Worse(e.outcome, before);
    }
  }

  lemma SettledStored(xs: seq<TaskEntry>, ys: seq<TaskEntry>, w: Outcome)
    requires SettledAt(xs, w) && SameElements(xs, ys)
    ensures IsWorst(Deliver([], ys), w)
  {
    var rows := Deliver([], ys);
    StoredRowsArrived(ys);
    if w != OutcomeOk {
      var e :| e in xs && OnlyOutcome(xs, w, e);
      var i :| 0 <= i < |ys| && ys[i] == e;
      assert Known(ys, e);
      DeliverKnows(ys, e);
      var r := KnownHasMember(rows, e);
      assert r in xs;
    }
  }

  /** The entries whose outcome is `w`, or those whose outcome is not. */
  function Only(xs: seq<TaskEntry>, w: Outcome, equal: bool): (out: seq<TaskEntry>)
    ensures forall e :: e in out <==> e in xs && (e.outcome == w <==> equal)
  {
    if xs == [] then []
    else
      var init, e := xs[..|xs| - 1], xs[|xs| - 1];
      assert xs == init + [e];
      if e.outcome == w <==> equal then Only(init, w, equal) + [e] else Only(init, w, equal)
  }

  /** No identity has `w` for its only outcome. */
  ghost predicate NeverAlone(xs: seq<TaskEntry>, w: Outcome) {
    forall e :: e in xs && e.outcome == w ==> !OnlyOutcome(xs, w, e)
  }

  lemma NotStoredBehind(xs: seq<TaskEntry>, w: Outcome, r: TaskEntry)
    requires NeverAlone(xs, w) && r in xs && r.outcome == w
    ensures r !in Deliver([], Only(xs, w, false) + xs)
  {
    assert !OnlyOutcome(xs, w, r);
    var f :| f in xs && IdentityOf(f) == IdentityOf(r) && f.outcome != w;
    BehindAnother(Only(xs, w, false), xs, f, r);
    DeliverHolds(Only(xs, w, false) + xs, r);
  }

  /** With every other outcome first, no row with outcome `w` is stored. */
  lemma OthersFirst(xs: seq<TaskEntry>, w: Outcome)
    requires NeverAlone(xs, w)
    ensures forall r :: r in Deliver([], Only(xs, w, false) + xs) ==> r.outcome != w
  {
    var others := Only(xs, w, false);
    forall r | r in xs && r.outcome == w
      ensures r !in Deliver([], others + xs)
    {
      NotStoredBehind(xs, w, r);
    }
    StoredRowsArrived(others + xs);
  }

  lemma WorstFirst(xs: seq<TaskEntry>, w: Outcome)
    requires IsWorst(xs, w) && w != OutcomeOk
    ensures SameElements(xs, Only(xs, w, true) + xs) && IsWorst(Deliver([], Only(xs, w, true) + xs), w)
  {
    var zs := Only(xs, w, true) + xs;
    StoredRowsArrived(zs);
    var e :| e in xs && e.outcome == w;
    assert e in Only(xs, w, true);
    assert zs[0] in Only(xs, w, true);
    assert zs[..0] == [];
    DeliverHolds(zs, zs[0]);
  }

  ghost predicate SavedWorstIsOrderFree(db: Db, id: string, xs: seq<TaskEntry>)
    requires id in db.items
  {
    forall ys, zs :: SameElements(xs, ys) && SameElements(xs, zs) ==>
      Saves(db, id, ys).items[id].worst == Saves(db, id, zs).items[id].worst
  }

  lemma SettledIsStored(db: Db, id: string, xs: seq<TaskEntry>, ys: seq<TaskEntry>, w: Outcome)
    requires AllAggregated(db) && id in db.items && RowsOf(db.steps, id) == []
    requires SettledAt(xs, w) && SameElements(xs, ys)
    ensures Saves(db, id, ys).items[id].worst == w
  {
    DeliveredAggregates(db, id, ys);
    SettledStored(xs, ys, w);
    WorstIsUnique(Deliver([], ys), w, Saves(db, id, ys).items[id].worst);
  }

  lemma WorstOccurs(rows: seq<TaskEntry>, v: Outcome, w: Outcome)
    requires IsWorst(rows, v) && w != OutcomeOk && forall r :: r in rows ==> r.outcome != w
    ensures v != w
  {
  }

  lemma WorstOthersFirst(db: Db, id: string, xs: seq<TaskEntry>, w: Outcome)
    requires AllAggregated(db) && id in db.items && RowsOf(db.steps, id) == []
    requires w != OutcomeOk && NeverAlone(xs, w)
    ensures SameElements(xs, Only(xs, w, false) + xs)
    ensures Saves(db, id, Only(xs, w, false) + xs).items[id].worst != w
  {
    var ys := Only(xs, w, false) + xs;
    OthersFirst(xs, w);
    DeliveredAggregates(db, id, ys);
    WorstOccurs(Deliver([], ys), Saves(db, id, ys).items[id].worst, w);
  }

  lemma WorstItFirst(db: Db, id: string, xs: seq<TaskEntry>, w: Outcome)
    requires AllAggregated(db) && id in db.items && RowsOf(db.steps, id) == []
    requires IsWorst(xs, w) && w != OutcomeOk
    ensures SameElements(xs, Only(xs, w, true) + xs)
    ensures Saves(db, id, Only(xs, w, true) + xs).items[id].worst == w
  {
    var zs := Only(xs, w, true) + xs;
    WorstFirst(xs, w);
    DeliveredAggregates(db, id, zs);
    WorstIsUnique(Deliver([], zs), w, Saves(db, id, zs).items[id].worst);
  }

  lemma UnsettledDiffers(db: Db, id: string, xs: seq<TaskEntry>, w: Outcome)
    requires AllAggregated(db) && id in db.items && RowsOf(db.steps, id) == []
    requires IsWorst(xs, w) && w != OutcomeOk && NeverAlone(xs, w)
    ensures !SavedWorstIsOrderFree(db, id, xs)
  {
    WorstOthersFirst(db, id, xs, w);
    WorstItFirst(db, id, xs, w);
    TwoDiffer(db, id, xs, Only(xs, w, false) + xs, Only(xs, w, true) + xs);
  }

  lemma TwoDiffer(db: Db, id: string, xs: seq<TaskEntry>, ys: seq<TaskEntry>, zs: seq<TaskEntry>)
    requires id in db.items && SameElements(xs, ys) && SameElements(xs, zs)
    requires Saves(db, id, ys).items[id].worst != Saves(db, id, zs).items[id].worst
    ensures !SavedWorstIsOrderFree(db, id, xs)
  {
  }

  lemma SettledIsOrderFree(db: Db, id: string, xs: seq<TaskEntry>, w: Outcome)
    requires AllAggregated(db) && id in db.items && RowsOf(db.steps, id) == []
    requires SettledAt(xs, w)
    ensures SavedWorstIsOrderFree(db, id, xs)
  {
    forall ys, zs | SameElements(xs, ys) && SameElements(xs, zs)
      ensures Saves(db, id, ys).items[id].worst == Saves(db, id, zs).items[id].worst
    {
      SettledIsStored(db, id, xs, ys, w);
      SettledIsStored(db, id, xs, zs, w);
    }
  }

  lemma UnsettledIsNeverAlone(xs: seq<TaskEntry>, w: Outcome)
    requires IsWorst(xs, w) && !SettledAt(xs, w)
    ensures w != OutcomeOk && NeverAlone(xs, w)
  {
    assert w != OutcomeOk;
    assert forall e :: e in xs ==> !OnlyOutcome(xs, w, e);
  }

  /** The worst status of an item does not depend on the order and number of
      deliveries exactly when it is settled. */
  lemma WorstIgnoresOrder(db: Db, id: string, xs: seq<TaskEntry>)
    requires AllAggregated(db) && id in db.items && RowsOf(db.steps, id) == []
    ensures SavedWorstIsOrderFree(db, id, xs) <==> exists w :: SettledAt(xs, w)
  {
    if w :| SettledAt(xs, w) {
      SettledIsOrderFree(db, id, xs, w);
    } else {
      var w := HasWorst(xs);
      UnsettledIsNeverAlone(xs, w);
      UnsettledDiffers(db, id, xs, w);
    }
  }
}
