/** Declared triggers against the control plane: diff, then apply.
    Models src/papayya/_reconcile.py. */
module Reconcile {
  import opened Types
  import Cron

  datatype Kind = Schedules | Webhooks

  /** A server row: a schedule with its cron expression, or a webhook with its name. */
  datatype Row = Row(id: string, name: Option<string>, managedBy: Option<string>)

  /** A missing owner counts as not ours. */
  predicate IsCodeManaged(row: Row) {
    row.managedBy == Some("code")
  }

  /** What entries of a kind are compared by. */
  function KeyOf(kind: Kind): string -> string {
    match kind
    case Schedules => (cron: string) => Cron.Normalize(cron)
    case Webhooks => (name: string) => name
  }

  /** The name of a row as entries are compared with it. */
  function NameOf(row: Row): string {
    if row.name.Some? then row.name.value else ""
  }

  function RowKey(key: string -> string, row: Row): string {
    key(NameOf(row))
  }

  datatype Action = Create(rename: bool) | Delete | Unchanged

  datatype Op = Op(action: Action, name: string, remoteId: Option<string>)

  /** The keys of the rows the reconciler owns. */
  function CodeKeys(key: string -> string, rows: seq<Row>): set<string> {
    if rows == [] then {}
    else
      var before, last := CodeKeys(key, rows[..|rows| - 1]), rows[|rows| - 1];
      if IsCodeManaged(last) then before + {RowKey(key, last)} else before
  }

  /** The owned row of a key; of several, the last. */
  function OwnedRow(key: string -> string, rows: seq<Row>, k: string): (row: Option<Row>)
    ensures row.Some? <==> k in CodeKeys(key, rows)
    ensures row.Some? ==> row.value in rows && IsCodeManaged(row.value) && RowKey(key, row.value) == k
  {
    if rows == [] then None
    else
      var last := rows[|rows| - 1];
      if IsCodeManaged(last) && RowKey(key, last) == k then Some(last) else OwnedRow(key, rows[..|rows| - 1], k)
  }

  function Keys(key: string -> string, names: seq<string>): set<string> {
    set i | 0 <= i < |names| :: key(names[i])
  }

  /** How many of the wanted entries are not there. */
  function MissingCount(key: string -> string, wanted: seq<string>, there: set<string>): nat {
    if wanted == [] then 0
    else MissingCount(key, wanted[..|wanted| - 1], there) + (if key(wanted[|wanted| - 1]) in there then 0 else 1)
  }

  /** The work between what is declared and what is there. */
  function Work(key: string -> string, rows: seq<Row>, wanted: seq<string>): nat {
    |CodeKeys(key, rows) - Keys(key, wanted)| + MissingCount(key, wanted, CodeKeys(key, rows))
  }

  function ChangeCount(ops: seq<Op>): nat {
    if ops == [] then 0
    else ChangeCount(ops[..|ops| - 1]) + (if ops[|ops| - 1].action.Unchanged? then 0 else 1)
  }

  /** The names a PUT would carry: everything but the deletes. */
  function DesiredNames(ops: seq<Op>): seq<string> {
    if ops == [] then []
    else
      var init, last := DesiredNames(ops[..|ops| - 1]), ops[|ops| - 1];
      if last.action.Delete? then init else init + [last.name]
  }

  function OpKey(key: string -> string, op: Op): string {
    key(op.name)
  }

  function KeysOf(key: string -> string, ops: seq<Op>): set<string> {
    if ops == [] then {} else KeysOf(key, ops[..|ops| - 1]) + {OpKey(key, ops[|ops| - 1])}
  }

  /** One delete for every code-managed key that is not wanted. */
  ghost predicate DeletesFor(key: string -> string, there: set<string>, wantedKeys: set<string>, ops: seq<Op>) {
    && |ops| == |there - wantedKeys|
    && (forall i :: 0 <= i < |ops| ==> ops[i].action.Delete?)
    && KeysOf(key, ops) == there - wantedKeys
  }

  /** One op for every wanted entry, in order: a create when it is missing. */
  ghost predicate KeepsFor(key: string -> string, there: set<string>, wanted: seq<string>, rename: bool, ops: seq<Op>) {
    && |ops| == |wanted|
    && forall i :: 0 <= i < |ops| ==>
         && ops[i].name == wanted[i]
         && ops[i].action == if key(wanted[i]) in there then Unchanged else Create(rename)
  }

  /** A plan for one resource: the deletes, then the wanted entries. A created webhook
      next to a delete is reported as a rename. */
  ghost predicate OpsFor(kind: Kind, rows: seq<Row>, wanted: seq<string>, ops: seq<Op>) {
    var d, key := |ops| - |wanted|, KeyOf(kind);
    && d >= 0
    && DeletesFor(key, CodeKeys(key, rows), Keys(key, wanted), ops[..d])
    && KeepsFor(key, CodeKeys(key, rows), wanted, kind.Webhooks? && d > 0, ops[d..])
  }

  /** An op names the row it is about. */
  predicate Refers(key: string -> string, byKey: map<string, Row>, op: Op) {
    if op.action.Create? then op.remoteId.None?
    else OpKey(key, op) in byKey && op.remoteId == Some(byKey[OpKey(key, op)].id)
  }

  ghost predicate AllRefer(key: string -> string, byKey: map<string, Row>, ops: seq<Op>) {
    forall i :: 0 <= i < |ops| ==> Refers(key, byKey, ops[i])
  }

  /** Every delete and every unchanged op carries the id of the owned row of its key. */
  ghost predicate NamesTheRows(key: string -> string, rows: seq<Row>, ops: seq<Op>) {
    forall i :: 0 <= i < |ops| ==>
      var row := OwnedRow(key, rows, OpKey(key, ops[i]));
      && (row.None? ==> ops[i].action.Create?)
      && ops[i].remoteId == if ops[i].action.Create? || row.None? then None else Some(row.value.id)
  }

  lemma ReferredRows(key: string -> string, rows: seq<Row>, byKey: map<string, Row>, a: seq<Op>, b: seq<Op>)
    requires AllRefer(key, byKey, a) && AllRefer(key, byKey, b)
    requires forall k :: k in byKey ==> OwnedRow(key, rows, k) == Some(byKey[k])
    ensures NamesTheRows(key, rows, a + b)
  {
    forall i | 0 <= i < |a + b|
      ensures Refers(key, byKey, (a + b)[i])
    {
      if i < |a| {
        assert (a + b)[i] == a[i];
      } else {
        assert (a + b)[i] == b[i - |a|];
      }
    }
  }

  /** Row `n` is the last one marked `code` with the key. */
  ghost predicate IsLastOf(key: string -> string, rows: seq<Row>, n: int, k: string) {
    && 0 <= n < |rows| && rows[n].managedBy == Some("code") && key(NameOf(rows[n])) == k
    && forall m :: n < m < |rows| && rows[m].managedBy == Some("code") ==> key(NameOf(rows[m])) != k
  }

  lemma {:induction false} OwnedIsLast(key: string -> string, rows: seq<Row>, k: string) returns (n: nat)
    requires OwnedRow(key, rows, k).Some?
    ensures IsLastOf(key, rows, n, k) && OwnedRow(key, rows, k) == Some(rows[n])
  {
    n := |rows| - 1;
    var init := rows[..n];
    if IsCodeManaged(rows[n]) && RowKey(key, rows[n]) == k {
    } else {
      assert forall m :: 0 <= m < |init| ==> init[m] == rows[m];
      n := OwnedIsLast(key, init, k);
    }
  }

  /** What a plan may touch, and must: every delete and every unchanged op is about a row
      marked `code`, the last with its key; and a row marked `code` that no entry wants has
      its key deleted. */
  ghost predicate TouchesOnlyCode(kind: Kind, rows: seq<Row>, wanted: seq<string>, ops: seq<Op>) {
    && (forall i :: 0 <= i < |ops| && !ops[i].action.Create? ==>
          exists n :: IsLastOf(KeyOf(kind), rows, n, KeyOf(kind)(ops[i].name)) && ops[i].remoteId == Some(rows[n].id))
    && (forall r :: r in rows && r.managedBy == Some("code") && (forall w :: w in wanted ==> KeyOf(kind)(w) != KeyOf(kind)(NameOf(r))) ==>
          exists i :: 0 <= i < |ops| && ops[i].action.Delete? && KeyOf(kind)(ops[i].name) == KeyOf(kind)(NameOf(r)))
  }

  lemma {:induction false} CodeKeysMeaning(key: string -> string, rows: seq<Row>, k: string)
    ensures k in CodeKeys(key, rows) <==> exists r :: r in rows && r.managedBy == Some("code") && key(NameOf(r)) == k
  {
    if rows == [] {
    } else {
      var init, last := rows[..|rows| - 1], rows[|rows| - 1];
      assert rows == init + [last];
      CodeKeysMeaning(key, init, k);
      assert forall r :: r in rows <==> r in init || r == last;
    }
  }

  lemma {:induction false} KeyHasOp(key: string -> string, ops: seq<Op>, k: string) returns (i: nat)
    requires k in KeysOf(key, ops)
    ensures i < |ops| && key(ops[i].name) == k
  {
    if OpKey(key, ops[|ops| - 1]) == k {
      i := |ops| - 1;
    } else {
      i := KeyHasOp(key, ops[..|ops| - 1], k);
    }
  }

  lemma PlanTouchesOnlyCode(kind: Kind, rows: seq<Row>, wanted: seq<string>, ops: seq<Op>)
    requires OpsFor(kind, rows, wanted, ops) && NamesTheRows(KeyOf(kind), rows, ops)
    ensures TouchesOnlyCode(kind, rows, wanted, ops)
  {
    var key, d := KeyOf(kind), |ops| - |wanted|;
    forall i | 0 <= i < |ops| && !ops[i].action.Create?
      ensures exists n :: IsLastOf(key, rows, n, key(ops[i].name)) && ops[i].remoteId == Some(rows[n].id)
    {
      assert OwnedRow(key, rows, OpKey(key, ops[i])).Some?;
      var n := OwnedIsLast(key, rows, OpKey(key, ops[i]));
    }
    forall r | r in rows && r.managedBy == Some("code") && forall w :: w in wanted ==> key(w) != key(NameOf(r))
      ensures exists i :: 0 <= i < |ops| && ops[i].action.Delete? && key(ops[i].name) == key(NameOf(r))
    {
      CodeKeysMeaning(key, rows, RowKey(key, r));
      assert RowKey(key, r) !in Keys(key, wanted);
      var i := KeyHasOp(key, ops[..d], RowKey(key, r));
      assert ops[..d][i] == ops[i];
    }
  }

  /** The deletes and the wanted entries together are a plan. */
  lemma PlanIsMade(kind: Kind, rows: seq<Row>, wanted: seq<string>, byKey: map<string, Row>, deletes: seq<Op>, keeps: seq<Op>)
    requires byKey.Keys == CodeKeys(KeyOf(kind), rows) && forall k :: k in byKey ==> OwnedRow(KeyOf(kind), rows, k) == Some(byKey[k])
    requires DeletesFor(KeyOf(kind), byKey.Keys, Keys(KeyOf(kind), wanted), deletes)
    requires KeepsFor(KeyOf(kind), byKey.Keys, wanted, kind.Webhooks? && deletes != [], keeps)
    requires AllRefer(KeyOf(kind), byKey, deletes) && AllRefer(KeyOf(kind), byKey, keeps)
    ensures OpsFor(kind, rows, wanted, deletes + keeps)
    ensures NamesTheRows(KeyOf(kind), rows, deletes + keeps)
    ensures TouchesOnlyCode(kind, rows, wanted, deletes + keeps)
  {
    ReferredRows(KeyOf(kind), rows, byKey, deletes, keeps);
    PlanHasParts(kind, rows, wanted, deletes, keeps);
    PlanTouchesOnlyCode(kind, rows, wanted, deletes + keeps);
  }

  lemma PlanHasParts(kind: Kind, rows: seq<Row>, wanted: seq<string>, deletes: seq<Op>, keeps: seq<Op>)
    requires DeletesFor(KeyOf(kind), CodeKeys(KeyOf(kind), rows), Keys(KeyOf(kind), wanted), deletes)
    requires KeepsFor(KeyOf(kind), CodeKeys(KeyOf(kind), rows), wanted, kind.Webhooks? && deletes != [], keeps)
    ensures OpsFor(kind, rows, wanted, deletes + keeps)
  {
    var ops := deletes + keeps;
    assert ops[..|deletes|] == deletes && ops[|deletes|..] == keeps;
  }

  /** Compute the plan for one resource. */
  method Diff(kind: Kind, rows: seq<Row>, wanted: seq<string>) returns (ops: seq<Op>)
    ensures OpsFor(kind, rows, wanted, ops)
    ensures NamesTheRows(KeyOf(kind), rows, ops)
    ensures TouchesOnlyCode(kind, rows, wanted, ops)
  {
    var key := KeyOf(kind);
    Cron.NormalizeKeepsTheFields("", "");
    var order, byKey := IndexRows(key, rows);
    var wantedKeys := set i | 0 <= i < |wanted| :: key(wanted[i]);
    var deletes := Deletes(key, order, byKey, wantedKeys);
    var keeps := Keeps(key, wanted, byKey, kind.Webhooks? && deletes != []);
    ops := deletes + keeps;
    PlanIsMade(kind, rows, wanted, byKey, deletes, keeps);
  }

  /** Schedules are the same when their fields are, webhooks when their names are. */
  lemma SameKeyIff(a: string, b: string)
    ensures KeyOf(Schedules)(a) == KeyOf(Schedules)(b) <==> Cron.Fields(a) == Cron.Fields(b)
    ensures KeyOf(Webhooks)(a) == KeyOf(Webhooks)(b) <==> a == b
  {
    Cron.NormalizeKeepsTheFields(a, b);
  }

  method Keeps(key: string -> string, wanted: seq<string>, byKey: map<string, Row>, rename: bool) returns (ops: seq<Op>)
    ensures KeepsFor(key, byKey.Keys, wanted, rename, ops)
    ensures AllRefer(key, byKey, ops)
  {
    ops := [];
    for i := 0 to |wanted|
      invariant |ops| == i
      invariant forall w :: 0 <= w < i ==>
                  ops[w] == if key(wanted[w]) in byKey then Op(Unchanged, wanted[w], Some(byKey[key(wanted[w])].id))
                            else Op(Create(rename), wanted[w], None)
    {
      if key(wanted[i]) !in byKey {
        ops := ops + [Op(Create(rename), wanted[i], None)];
      } else {
        ops := ops + [Op(Unchanged, wanted[i], Some(byKey[key(wanted[i])].id))];
      }
    }
  }

  lemma OneMoreRow(key: string -> string, rows: seq<Row>, n: nat)
    requires n < |rows|
    ensures var mine, k := IsCodeManaged(rows[n]), RowKey(key, rows[n]);
            && CodeKeys(key, rows[..n + 1]) == CodeKeys(key, rows[..n]) + (if mine then {k} else {})
            && forall j :: OwnedRow(key, rows[..n + 1], j) == if mine && k == j then Some(rows[n]) else OwnedRow(key, rows[..n], j)
  {
    var longer := rows[..n + 1];
    assert longer[..n] == rows[..n] && longer[|longer| - 1] == rows[n];
    forall j
      ensures OwnedRow(key, longer, j) == if IsCodeManaged(rows[n]) && RowKey(key, rows[n]) == j then Some(rows[n]) else OwnedRow(key, rows[..n], j)
    {
    }
  }

  /** `byKey` holds the owned row of every key, and `order` lists the keys. */
  ghost predicate Indexed(key: string -> string, rows: seq<Row>, order: seq<string>, byKey: map<string, Row>) {
    && byKey.Keys == CodeKeys(key, rows)
    && Lists(order, byKey.Keys)
    && forall k :: k in byKey ==> OwnedRow(key, rows, k) == Some(byKey[k])
  }

  lemma IndexOneMore(key: string -> string, rows: seq<Row>, n: nat, order: seq<string>, byKey: map<string, Row>)
    requires n < |rows| && Indexed(key, rows[..n], order, byKey)
    ensures !IsCodeManaged(rows[n]) ==> Indexed(key, rows[..n + 1], order, byKey)
    ensures var k := RowKey(key, rows[n]);
            IsCodeManaged(rows[n]) ==> Indexed(key, rows[..n + 1], if k in byKey then order else order + [k], byKey[k := rows[n]])
  {
    var k := RowKey(key, rows[n]);
    OneMoreRow(key, rows, n);
    if k !in byKey {
      ListsMore(order, byKey.Keys, k);
    }
    assert byKey[k := rows[n]].Keys == byKey.Keys + {k};
  }

  /** The rows the reconciler owns, by key, in order of first appearance. */
  method IndexRows(key: string -> string, rows: seq<Row>) returns (order: seq<string>, byKey: map<string, Row>)
    ensures Indexed(key, rows, order, byKey)
  {
    order, byKey := [], map[];
    for n := 0 to |rows|
      invariant Indexed(key, rows[..n], order, byKey)
    {
      IndexOneMore(key, rows, n, order, byKey);
      if IsCodeManaged(rows[n]) {
        var k := RowKey(key, rows[n]);
        if k !in byKey {
          order := order + [k];
        }
        byKey := byKey[k := rows[n]];
      }
    }
    assert rows[..|rows|] == rows;
  }

  /** `order` lists the elements of `keys`, each once. */
  ghost predicate Lists(order: seq<string>, keys: set<string>) {
    && (forall i :: 0 <= i < |order| ==> order[i] in keys)
    && (forall i, j :: 0 <= i < j < |order| ==> order[i] != order[j])
    && (forall k :: k in keys ==> exists i :: 0 <= i < |order| && order[i] == k)
  }

  lemma ListsMore(order: seq<string>, keys: set<string>, key: string)
    requires Lists(order, keys) && key !in keys
    ensures Lists(order + [key], keys + {key})
  {
    var longer := order + [key];
    forall k | k in keys + {key}
      ensures exists i :: 0 <= i < |longer| && longer[i] == k
    {
      if k in keys {
        var i :| 0 <= i < |order| && order[i] == k;
        assert longer[i] == k;
      } else {
        assert longer[|order|] == k;
      }
    }
  }

  method Deletes(key: string -> string, order: seq<string>, byKey: map<string, Row>, wantedKeys: set<string>) returns (ops: seq<Op>)
    requires Lists(order, byKey.Keys)
    requires key(key("")) == key("")
    requires forall k :: k in byKey ==> RowKey(key, byKey[k]) == k
    ensures DeletesFor(key, byKey.Keys, wantedKeys, ops)
    ensures AllRefer(key, byKey, ops)
  {
    ops := [];
    for n := 0 to |order|
      invariant DeletesFor(key, Elements(order[..n]), wantedKeys, ops) && AllRefer(key, byKey, ops)
    {
      NextElement(order, byKey.Keys, n);
      var op := DeleteOp(key, order[n], byKey[order[n]]);
      OneMoreKey(key, Elements(order[..n]), wantedKeys, ops, op);
      OneMoreReferred(key, byKey, ops, op);
      if order[n] !in wantedKeys {
        ops := ops + [op];
      }
    }
    AllElements(order, byKey.Keys);
  }

  lemma OneMoreReferred(key: string -> string, byKey: map<string, Row>, ops: seq<Op>, op: Op)
    requires AllRefer(key, byKey, ops) && Refers(key, byKey, op)
    ensures AllRefer(key, byKey, ops + [op])
  {
  }

  function Elements(order: seq<string>): set<string> {
    if order == [] then {} else Elements(order[..|order| - 1]) + {order[|order| - 1]}
  }

  lemma {:induction false} ElementsMeaning(order: seq<string>, k: string)
    ensures k in Elements(order) <==> exists i :: 0 <= i < |order| && order[i] == k
  {
    if order == [] {
    } else {
      var init := order[..|order| - 1];
      ElementsMeaning(init, k);
      if k in Elements(init) {
        var i :| 0 <= i < |init| && init[i] == k;
        assert order[i] == k;
      }
    }
  }

  lemma NextElement(order: seq<string>, keys: set<string>, n: nat)
    requires Lists(order, keys) && n < |order|
    ensures order[n] in keys && order[n] !in Elements(order[..n])
    ensures Elements(order[..n + 1]) == Elements(order[..n]) + {order[n]}
  {
    ElementsMeaning(order[..n], order[n]);
    assert order[..n + 1][..n] == order[..n];
  }

  lemma AllElements(order: seq<string>, keys: set<string>)
    requires Lists(order, keys)
    ensures order[..|order|] == order && Elements(order) == keys
  {
    forall k
      ensures k in Elements(order) <==> k in keys
    {
      ElementsMeaning(order, k);
    }
  }

  lemma OneMoreKey(key: string -> string, seen: set<string>, wantedKeys: set<string>, ops: seq<Op>, op: Op)
    requires DeletesFor(key, seen, wantedKeys, ops) && OpKey(key, op) !in seen && op.action.Delete?
    ensures DeletesFor(key, seen + {OpKey(key, op)}, wantedKeys, if OpKey(key, op) in wantedKeys then ops else ops + [op])
  {
    var k := OpKey(key, op);
    if k in wantedKeys {
      assert seen + {k} - wantedKeys == seen - wantedKeys;
    } else {
      assert seen + {k} - wantedKeys == (seen - wantedKeys) + {k};
      assert (ops + [op])[..|ops|] == ops;
    }
  }

  /** A row without a name is filed, and deleted, under the empty key. */
  function DeleteOp(key: string -> string, k: string, row: Row): (op: Op)
    requires RowKey(key, row) == k && key(key("")) == key("")
    ensures OpKey(key, op) == k && op.action.Delete? && op.remoteId == Some(row.id)
  {
    Op(Delete, if row.name.Some? then row.name.value else k, Some(row.id))
  }

  /** Every row marked `code` is wanted, and every wanted entry has such a row, as this
      kind compares names. */
  ghost predicate InStep(kind: Kind, rows: seq<Row>, wanted: seq<string>) {
    && (forall r :: r in rows && r.managedBy == Some("code") ==> exists w :: w in wanted && KeyOf(kind)(w) == KeyOf(kind)(NameOf(r)))
    && (forall w :: w in wanted ==> exists r :: r in rows && r.managedBy == Some("code") && KeyOf(kind)(NameOf(r)) == KeyOf(kind)(w))
  }

  // ---- facts about a plan ----

  lemma {:induction false} DeletesCount(ops: seq<Op>)
    requires forall i :: 0 <= i < |ops| ==> ops[i].action.Delete?
    ensures ChangeCount(ops) == |ops| && DesiredNames(ops) == []
  {
    if ops == [] {
    } else {
      DeletesCount(ops[..|ops| - 1]);
    }
  }

  lemma {:induction false} KeepsCount(key: string -> string, there: set<string>, wanted: seq<string>, rename: bool, ops: seq<Op>)
    requires KeepsFor(key, there, wanted, rename, ops)
    ensures ChangeCount(ops) == MissingCount(key, wanted, there) && DesiredNames(ops) == wanted
  {
    if ops == [] {
    } else {
      KeepsCount(key, there, wanted[..|wanted| - 1], rename, ops[..|ops| - 1]);
      assert wanted == wanted[..|wanted| - 1] + [wanted[|wanted| - 1]];
    }
  }

  lemma {:induction false} CountsAppend(a: seq<Op>, b: seq<Op>)
    ensures ChangeCount(a + b) == ChangeCount(a) + ChangeCount(b)
    ensures DesiredNames(a + b) == DesiredNames(a) + DesiredNames(b)
  {
    if b == [] {
      assert a + b == a;
    } else {
      CountsAppend(a, b[..|b| - 1]);
      assert (a + b)[..|a + b| - 1] == a + b[..|b| - 1];
    }
  }

  lemma {:induction false} PartsCountTheWork(key: string -> string, rows: seq<Row>, wanted: seq<string>, rename: bool, a: seq<Op>, b: seq<Op>)
    requires DeletesFor(key, CodeKeys(key, rows), Keys(key, wanted), a)
    requires KeepsFor(key, CodeKeys(key, rows), wanted, rename, b)
    ensures ChangeCount(a + b) == Work(key, rows, wanted) && DesiredNames(a + b) == wanted
  {
    CountsAppend(a, b);
    DeletesCount(a);
    KeepsCount(key, CodeKeys(key, rows), wanted, rename, b);
    assert [] + wanted == wanted;
  }

  /** The operations a plan counts are the work there is, and what it would PUT is
      exactly what is declared. */
  lemma PlanCountsTheWork(kind: Kind, rows: seq<Row>, wanted: seq<string>, ops: seq<Op>)
    requires OpsFor(kind, rows, wanted, ops)
    ensures ChangeCount(ops) == Work(KeyOf(kind), rows, wanted) && DesiredNames(ops) == wanted
  {
    var d, key := |ops| - |wanted|, KeyOf(kind);
    PartsCountTheWork(key, rows, wanted, kind.Webhooks? && d > 0, ops[..d], ops[d..]);
    assert ops == ops[..d] + ops[d..];
  }

  lemma {:induction false} NothingMissing(key: string -> string, wanted: seq<string>, there: set<string>)
    ensures MissingCount(key, wanted, there) == 0 <==> Keys(key, wanted) <= there
  {
    if wanted == [] {
    } else {
      var init, last := wanted[..|wanted| - 1], wanted[|wanted| - 1];
      NothingMissing(key, init, there);
      forall k
        ensures k in Keys(key, wanted) <==> k in Keys(key, init) || k == key(last)
      {
        KeysAppend(key, wanted, k);
      }
    }
  }

  lemma KeysAppend(key: string -> string, wanted: seq<string>, k: string)
    requires wanted != []
    ensures k in Keys(key, wanted) <==> k in Keys(key, wanted[..|wanted| - 1]) || k == key(wanted[|wanted| - 1])
  {
    var init := wanted[..|wanted| - 1];
    if k in Keys(key, init) {
      var i :| 0 <= i < |init| && k == key(init[i]);
      assert wanted[i] == init[i];
    }
    if k in Keys(key, wanted) {
      var i :| 0 <= i < |wanted| && k == key(wanted[i]);
      assert i < |init| ==> init[i] == wanted[i];
    }
  }

  /** There is no work exactly when the code-managed keys are the declared ones. */
  lemma NoWorkIffSame(key: string -> string, rows: seq<Row>, wanted: seq<string>)
    ensures Work(key, rows, wanted) == 0 <==> CodeKeys(key, rows) == Keys(key, wanted)
  {
    NothingMissing(key, wanted, CodeKeys(key, rows));
    var extra := CodeKeys(key, rows) - Keys(key, wanted);
    assert |extra| == 0 <==> extra == {};
  }

  lemma WantedIffHasRow(key: string -> string, rows: seq<Row>, wanted: seq<string>)
    ensures Keys(key, wanted) <= CodeKeys(key, rows) <==>
            forall w :: w in wanted ==> exists r :: r in rows && r.managedBy == Some("code") && key(NameOf(r)) == key(w)
  {
    forall w | w in wanted
      ensures key(w) in Keys(key, wanted)
      ensures key(w) in CodeKeys(key, rows) <==> exists r :: r in rows && r.managedBy == Some("code") && key(NameOf(r)) == key(w)
    {
      CodeKeysMeaning(key, rows, key(w));
    }
  }

  lemma OwnedIffWanted(key: string -> string, rows: seq<Row>, wanted: seq<string>)
    ensures CodeKeys(key, rows) <= Keys(key, wanted) <==>
            forall r :: r in rows && r.managedBy == Some("code") ==> exists w :: w in wanted && key(w) == key(NameOf(r))
  {
    forall r | r in rows && r.managedBy == Some("code")
      ensures key(NameOf(r)) in CodeKeys(key, rows)
    {
      CodeKeysMeaning(key, rows, key(NameOf(r)));
    }
    forall k | k in CodeKeys(key, rows)
      ensures exists r :: r in rows && r.managedBy == Some("code") && key(NameOf(r)) == k
    {
      CodeKeysMeaning(key, rows, k);
    }
  }

  /** There is no work exactly when server and declaration are in step. */
  lemma NoWorkIffInStep(kind: Kind, rows: seq<Row>, wanted: seq<string>)
    ensures Work(KeyOf(kind), rows, wanted) == 0 <==> InStep(kind, rows, wanted)
  {
    NoWorkIffSame(KeyOf(kind), rows, wanted);
    WantedIffHasRow(KeyOf(kind), rows, wanted);
    OwnedIffWanted(KeyOf(kind), rows, wanted);
  }
}
