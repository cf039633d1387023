/** Input provenance: did a step consume a degraded step's output?
    Models `inspect_taint` and its helpers in src/papayya/outcomes.py. */
module Taint {
  import opened Types

  /** Interned singletons and small integers are shared by unrelated code, so
      identity says nothing about them. */
  predicate IdentityIsMeaningful(v: Value) {
    match v.shape
    case Null => false
    case Bool(_) => false
    case Text(chars) => chars != ""
    case Bytes(bytes) => bytes != []
    case Tuple(elems) => elems != []
    case Int(n) => !(-5 <= n <= 256)
    case _ => true
  }

  function Children(v: Value): seq<Value> {
    match v.shape
    case Tuple(elems) => elems
    case List(elems) => elems
    case Dict(values) => values
    case _ => []
  }

  /** The candidates an argument list offers: each argument and its direct children. */
  ghost predicate Offers(bound: seq<Value>, v: Value) {
    exists a :: a in bound && (v == a || v in Children(a))
  }

  lemma OffersMore(bound: seq<Value>, arg: Value, v: Value)
    ensures Offers(bound + [arg], v) <==> Offers(bound, v) || v == arg || v in Children(arg)
  {
    if Offers(bound, v) {
      var a :| a in bound && (v == a || v in Children(a));
      assert a in bound + [arg];
    }
    assert arg in bound + [arg];
  }

  method FlattenOneLevel(bound: seq<Value>) returns (out: seq<Value>)
    ensures forall v :: v in out <==> Offers(bound, v)
  {
    out := [];
    for i := 0 to |bound|
      invariant forall v :: v in out <==> Offers(bound[..i], v)
    {
      var arg := bound[i];
      ghost var before := out;
      out := out + [arg];
      if arg.shape.List? || arg.shape.Tuple? {
        out := out + arg.shape.elems;
      } else if arg.shape.Dict? {
        out := out + arg.shape.values;
      }
      assert out == before + [arg] + Children(arg);
      assert bound[..i + 1] == bound[..i] + [arg];
      forall v
        ensures v in out <==> Offers(bound[..i + 1], v)
      {
        OffersMore(bound[..i], arg, v);
      }
    }
    assert bound[..|bound|] == bound;
  }

  /** The step whose bad output is at the bottom of a taint. */
  datatype Root = Root(key: string, reason: Option<string>)

  predicate Propagates(e: TaskEntry) {
    e.outcome != OutcomeOk && e.reason != Some("empty_none")
  }

  /** What an earlier entry passes on to a consumer of its result: a propagating
      degraded step names itself, a tainted ok step passes its root through. */
  function SourceOf(e: TaskEntry): Option<Root> {
    if !IdentityIsMeaningful(e.result) then None
    else if e.outcome != OutcomeOk then
      if Propagates(e) then Some(Root(e.key, e.reason)) else None
    else if e.taintedBy.Some? then Some(Root(e.taintedBy.value, e.taintedReason))
    else None
  }

  /** The call with arguments `bound` holds the very object `e` returned. */
  ghost predicate Consumes(bound: Option<seq<Value>>, e: TaskEntry) {
    bound.Some? && exists v :: Offers(bound.value, v) && v.addr == e.result.addr
  }

  /** The root named for a call: that of the earliest entry it consumes. */
  ghost function TaintOf(bound: Option<seq<Value>>, prior: seq<TaskEntry>): Option<Root> {
    if prior == [] then None
    else if SourceOf(prior[0]).Some? && Consumes(bound, prior[0]) then SourceOf(prior[0])
    else TaintOf(bound, prior[1..])
  }

  /** A root is named exactly when some source among the entries is consumed, and then
      it is the root of such an entry. */
  lemma {:induction false} TaintOfMeaning(bound: Option<seq<Value>>, prior: seq<TaskEntry>)
    ensures TaintOf(bound, prior).None? <==> forall e :: e in prior && SourceOf(e).Some? ==> !Consumes(bound, e)
    ensures TaintOf(bound, prior).Some? ==> exists e :: e in prior && SourceOf(e) == TaintOf(bound, prior) && Consumes(bound, e)
  {
    if prior == [] {
    } else {
      assert prior == [prior[0]] + prior[1..];
      TaintOfMeaning(bound, prior[1..]);
    }
  }

  lemma {:induction false} TaintOfSkips(bound: Option<seq<Value>>, prior: seq<TaskEntry>, k: nat)
    requires k <= |prior|
    requires forall i :: 0 <= i < k ==> SourceOf(prior[i]).None? || !Consumes(bound, prior[i])
    ensures TaintOf(bound, prior) == TaintOf(bound, prior[k..])
  {
    if k == 0 {
    } else {
      TaintOfSkips(bound, prior[1..], k - 1);
      assert prior[1..][k - 1..] == prior[k..];
    }
  }

  /** `sources` are the entries of `prior` that pass a root on, in order; `at` is where
      each came from. */
  ghost predicate SourcesOf(prior: seq<TaskEntry>, sources: seq<(TaskEntry, Root)>, at: seq<nat>) {
    && |at| == |sources|
    && (forall k :: 0 <= k < |at| ==>
          at[k] < |prior| && sources[k].0 == prior[at[k]] && SourceOf(prior[at[k]]) == Some(sources[k].1))
    && (forall k, m :: 0 <= k < m < |at| ==> at[k] < at[m])
    && (forall j :: 0 <= j < |prior| && SourceOf(prior[j]).Some? ==> j in at)
  }

  lemma OneMoreSource(prior: seq<TaskEntry>, sources: seq<(TaskEntry, Root)>, at: seq<nat>, e: TaskEntry, r: Root)
    requires SourcesOf(prior, sources, at) && SourceOf(e) == Some(r)
    ensures SourcesOf(prior + [e], sources + [(e, r)], at + [|prior|])
  {
    assert forall j :: j in at ==> j in at + [|prior|];
    assert (at + [|prior|])[|at|] == |prior|;
  }

  lemma NoMoreSource(prior: seq<TaskEntry>, sources: seq<(TaskEntry, Root)>, at: seq<nat>, e: TaskEntry)
    requires SourcesOf(prior, sources, at) && SourceOf(e).None?
    ensures SourcesOf(prior + [e], sources, at)
  {
  }

  method CollectSources(prior: seq<TaskEntry>) returns (sources: seq<(TaskEntry, Root)>, ghost at: seq<nat>)
    ensures forall k :: 0 <= k < |sources| ==> sources[k].0 in prior && SourceOf(sources[k].0) == Some(sources[k].1)
    ensures SourcesOf(prior, sources, at)
  {
    sources, at := [], [];
    for i := 0 to |prior|
      invariant SourcesOf(prior[..i], sources, at)
    {
      var e := prior[i];
      assert prior[..i + 1] == prior[..i] + [e];
      var root := None;
      if IdentityIsMeaningful(e.result) {
        if e.outcome != OutcomeOk {
          if e.reason != Some("empty_none") {
            root := Some(Root(e.key, e.reason));
          }
        } else if e.taintedBy.Some? {
          root := Some(Root(e.taintedBy.value, e.taintedReason));
        }
      }
      if root.Some? {
        OneMoreSource(prior[..i], sources, at, e, root.value);
        sources := sources + [(e, root.value)];
        at := at + [i];
      } else {
        NoMoreSource(prior[..i], sources, at, e);
      }
    }
    assert prior[..|prior|] == prior;
  }

  /** One of the candidates is the very object. */
  method HoldsObject(candidates: seq<Value>, v: Value) returns (found: bool)
    ensures found <==> exists c :: c in candidates && c.addr == v.addr
  {
    found := false;
    for c := 0 to |candidates|
      invariant found <==> exists d :: 0 <= d < c && candidates[d].addr == v.addr
    {
      if candidates[c].addr == v.addr {
        found := true;
      }
    }
  }

  /** The first consumed source names the root. */
  lemma FirstConsumedSource(bound: Option<seq<Value>>, prior: seq<TaskEntry>, sources: seq<(TaskEntry, Root)>, at: seq<nat>, k: nat)
    requires SourcesOf(prior, sources, at) && k <= |sources|
    requires forall m :: 0 <= m < k ==> !Consumes(bound, sources[m].0)
    ensures k < |sources| && Consumes(bound, sources[k].0) ==> TaintOf(bound, prior) == Some(sources[k].1)
    ensures k == |sources| ==> TaintOf(bound, prior) == None
  {
    var upTo := if k < |sources| then at[k] else |prior|;
    assert forall m :: k <= m < |at| ==> at[m] >= upTo;
    forall j | 0 <= j < upTo
      ensures SourceOf(prior[j]).None? || !Consumes(bound, prior[j])
    {
      if SourceOf(prior[j]).Some? {
        var m :| 0 <= m < |at| && at[m] == j;
        assert sources[m].0 == prior[j];
      }
    }
    TaintOfSkips(bound, prior, upTo);
  }

  method InspectTaint(bound: Option<seq<Value>>, prior: seq<TaskEntry>) returns (root: Option<Root>)
    ensures root == TaintOf(bound, prior)
  {
    if bound.None? || bound.value == [] || prior == [] {
      TaintOfSkips(bound, prior, |prior|);
      return None;
    }
    ghost var at;
    var sources;
    sources, at := CollectSources(prior);
    var candidates := FlattenOneLevel(bound.value);
    for k := 0 to |sources|
      invariant forall m :: 0 <= m < k ==> !Consumes(bound, sources[m].0)
    {
      var found := HoldsObject(candidates, sources[k].0.result);
      if found {
        FirstConsumedSource(bound, prior, sources, at, k);
        return Some(sources[k].1);
      }
    }
    FirstConsumedSource(bound, prior, sources, at, |sources|);
    root := None;
  }

  /** What a step records: only a step whose own verdict is ok is inspected, and
      only when some earlier entry is not ok. */
  ghost function RecordedTaint(outcome: Outcome, bound: Option<seq<Value>>, prior: seq<TaskEntry>): Option<Root> {
    if outcome == OutcomeOk && exists e :: e in prior && e.outcome != OutcomeOk
    then TaintOf(bound, prior)
    else None
  }

  // ---- what that comes to ----

  /** An object that unrelated code shares: None, a bool, an empty string, bytes or tuple, an
      int from -5 to 256. */
  predicate Shared(v: Value) {
    || v.shape in {Null, Bool(true), Bool(false), Text(""), Bytes([]), Tuple([])}
    || (v.shape.Int? && v.shape.n >= -5 && v.shape.n <= 256)
  }

  /** The call was handed the object `e` returned, as an argument or directly inside one. */
  ghost predicate WasHanded(bound: seq<Value>, e: TaskEntry) {
    exists a :: a in bound &&
      (|| a.addr == e.result.addr
       || (a.shape.List? && exists v :: v in a.shape.elems && v.addr == e.result.addr)
       || (a.shape.Tuple? && exists v :: v in a.shape.elems && v.addr == e.result.addr)
       || (a.shape.Dict? && exists v :: v in a.shape.values && v.addr == e.result.addr))
  }

  /** `e` is not ok, and not for returning nothing; or it is ok and tainted. */
  predicate IsSource(e: TaskEntry) {
    !Shared(e.result) && if e.outcome == OutcomeOk then e.taintedBy != None else e.reason != Some("empty_none")
  }

  /** What a source names. */
  function RootNamed(e: TaskEntry): Root
    requires IsSource(e)
  {
    if e.outcome == OutcomeOk then Root(e.taintedBy.value, e.taintedReason) else Root(e.key, e.reason)
  }

  /** Entry `i` is the earliest source whose object the call was handed. */
  ghost predicate FirstSource(bound: seq<Value>, prior: seq<TaskEntry>, i: int) {
    && 0 <= i < |prior| && IsSource(prior[i]) && WasHanded(bound, prior[i])
    && forall j :: 0 <= j < i && IsSource(prior[j]) ==> !WasHanded(bound, prior[j])
  }

  lemma SharedMeansNothing(v: Value)
    ensures IdentityIsMeaningful(v) <==> !Shared(v)
  {
  }

  lemma SourceMeaning(e: TaskEntry)
    ensures SourceOf(e).Some? <==> IsSource(e)
    ensures IsSource(e) ==> SourceOf(e) == Some(RootNamed(e))
  {
    SharedMeansNothing(e.result);
  }

  lemma ConsumesMeaning(bound: seq<Value>, e: TaskEntry)
    ensures Consumes(Some(bound), e) <==> WasHanded(bound, e)
  {
    if Consumes(Some(bound), e) {
      var v :| Offers(bound, v) && v.addr == e.result.addr;
      var a :| a in bound && (v == a || v in Children(a));
    }
    if a :| a in bound && a.addr == e.result.addr {
      assert Offers(bound, a);
    } else if WasHanded(bound, e) {
      var a :| a in bound && exists v :: v in Children(a) && v.addr == e.result.addr;
      var v :| v in Children(a) && v.addr == e.result.addr;
      assert Offers(bound, v);
    }
  }

  lemma FirstSourceIsNamed(bound: seq<Value>, prior: seq<TaskEntry>, i: nat)
    requires FirstSource(bound, prior, i)
    ensures TaintOf(Some(bound), prior) == Some(RootNamed(prior[i]))
  {
    forall j | 0 <= j <= i
      ensures SourceOf(prior[j]).Some? <==> IsSource(prior[j])
      ensures Consumes(Some(bound), prior[j]) <==> WasHanded(bound, prior[j])
    {
      SourceMeaning(prior[j]);
      ConsumesMeaning(bound, prior[j]);
    }
    SourceMeaning(prior[i]);
    TaintOfSkips(Some(bound), prior, i);
  }

  lemma FindFirstSource(bound: seq<Value>, prior: seq<TaskEntry>, n: nat) returns (i: nat)
    requires n < |prior| && IsSource(prior[n]) && WasHanded(bound, prior[n])
    ensures FirstSource(bound, prior, i)
  {
    i := 0;
    while !(IsSource(prior[i]) && WasHanded(bound, prior[i]))
      invariant i <= n
      invariant forall j :: 0 <= j < i && IsSource(prior[j]) ==> !WasHanded(bound, prior[j])
      decreases n - i
    {
      i := i + 1;
    }
  }

  /** What a step records: nothing unless it is ok and something before it is not; then the
      earliest source it was handed, that step itself if it is not ok and its root otherwise. */
  lemma RecordsTheEarliestSource(outcome: Outcome, bound: seq<Value>, prior: seq<TaskEntry>)
    ensures RecordedTaint(outcome, None, prior) == None
    ensures outcome != OutcomeOk || (forall e :: e in prior ==> e.outcome == OutcomeOk) ==> RecordedTaint(outcome, Some(bound), prior) == None
    ensures (forall i :: !FirstSource(bound, prior, i)) ==> RecordedTaint(outcome, Some(bound), prior) == None
    ensures outcome == OutcomeOk && (exists e :: e in prior && e.outcome != OutcomeOk) ==>
              forall i :: FirstSource(bound, prior, i) ==> RecordedTaint(outcome, Some(bound), prior) == Some(RootNamed(prior[i]))
  {
    TaintOfMeaning(None, prior);
    TaintOfMeaning(Some(bound), prior);
    if i :| FirstSource(bound, prior, i) {
      forall i | FirstSource(bound, prior, i)
        ensures TaintOf(Some(bound), prior) == Some(RootNamed(prior[i]))
      {
        FirstSourceIsNamed(bound, prior, i);
      }
    } else {
      NoFirstSource(bound, prior);
    }
  }

  lemma NoFirstSource(bound: seq<Value>, prior: seq<TaskEntry>)
    requires forall i :: !FirstSource(bound, prior, i)
    ensures TaintOf(Some(bound), prior) == None
  {
    TaintOfMeaning(Some(bound), prior);
    forall e | e in prior && SourceOf(e).Some?
      ensures !Consumes(Some(bound), e)
    {
      SourceMeaning(e);
      ConsumesMeaning(bound, e);
      if WasHanded(bound, e) {
        var n :| 0 <= n < |prior| && prior[n] == e;
        var i := FindFirstSource(bound, prior, n);
      }
    }
  }

  predicate Carries(e: TaskEntry, t: Option<Root>) {
    if t.None? then e.taintedBy.None? && e.taintedReason.None?
    else e.taintedBy == Some(t.value.key) && e.taintedReason == t.value.reason
  }

  // ---- one pass from an empty cache ----

  /** The rows of one pass: row `i` was called with `bounds[i]` when exactly the
      rows before it had been recorded. */
  ghost predicate PassRows(rows: seq<TaskEntry>, bounds: seq<Option<seq<Value>>>) {
    && |bounds| == |rows|
    && forall i :: 0 <= i < |rows| ==> Carries(rows[i], RecordedTaint(rows[i].outcome, bounds[i], rows[..i]))
  }

  /** Row `b` was handed the object row `a` returned. */
  ghost predicate Edge(rows: seq<TaskEntry>, bounds: seq<Option<seq<Value>>>, a: int, b: int) {
    && 0 <= a < b < |rows| == |bounds|
    && !Shared(rows[a].result)
    && Consumes(bounds[b], rows[a])
  }

  /** A path of such edges that starts at a propagating degraded row and runs
      through ok rows only. */
  ghost predicate BadPath(rows: seq<TaskEntry>, bounds: seq<Option<seq<Value>>>, path: seq<int>) {
    && |path| >= 2
    && 0 <= path[0] < |rows| && Propagates(rows[path[0]])
    && (forall j :: 1 <= j < |path| ==> 0 <= path[j] < |rows| && rows[path[j]].outcome == OutcomeOk)
    && (forall j :: 1 <= j < |path| ==> Edge(rows, bounds, path[j - 1], path[j]))
  }

  /** The entry a recorded root came through. */
  lemma LastHop(rows: seq<TaskEntry>, bounds: seq<Option<seq<Value>>>, i: int) returns (m: int)
    requires PassRows(rows, bounds)
    requires 0 <= i < |rows| && rows[i].taintedBy.Some?
    ensures rows[i].outcome == OutcomeOk
    ensures Edge(rows, bounds, m, i)
    ensures SourceOf(rows[m]) == Some(Root(rows[i].taintedBy.value, rows[i].taintedReason))
  {
    TaintOfMeaning(bounds[i], rows[..i]);
    var t := TaintOf(bounds[i], rows[..i]);
    var e :| e in rows[..i] && SourceOf(e) == t && Consumes(bounds[i], e);
    m :| 0 <= m < i && rows[m] == e;
  }

  lemma ExtendPath(rows: seq<TaskEntry>, bounds: seq<Option<seq<Value>>>, before: seq<int>, i: int)
    requires BadPath(rows, bounds, before) && Edge(rows, bounds, before[|before| - 1], i)
    requires rows[i].outcome == OutcomeOk
    ensures BadPath(rows, bounds, before + [i])
  {
    var path := before + [i];
    forall j | 1 <= j < |path|
      ensures Edge(rows, bounds, path[j - 1], path[j])
    {
      if j < |before| {
        assert path[j - 1] == before[j - 1] && path[j] == before[j];
      }
    }
  }

  /** A recorded root is the start of such a path to the row. */
  lemma {:induction false} TaintedHasPath(rows: seq<TaskEntry>, bounds: seq<Option<seq<Value>>>, i: int) returns (path: seq<int>)
    requires PassRows(rows, bounds)
    requires 0 <= i < |rows| && rows[i].taintedBy.Some?
    ensures BadPath(rows, bounds, path) && path[|path| - 1] == i
    ensures rows[path[0]].key == rows[i].taintedBy.value
    ensures rows[path[0]].reason == rows[i].taintedReason
    decreases i
  {
    var m := LastHop(rows, bounds, i);
    if rows[m].outcome != OutcomeOk {
      path := [m, i];
    } else {
      var before := TaintedHasPath(rows, bounds, m);
      ExtendPath(rows, bounds, before, i);
      path := before + [i];
    }
  }

  /** Every ok row at the end of such a path records a root. */
  lemma {:induction false} PathTaints(rows: seq<TaskEntry>, bounds: seq<Option<seq<Value>>>, path: seq<int>)
    requires PassRows(rows, bounds) && BadPath(rows, bounds, path)
    ensures rows[path[|path| - 1]].taintedBy.Some?
    decreases |path|
  {
    var m, i := path[|path| - 2], path[|path| - 1];
    assert Edge(rows, bounds, m, i);
    if |path| == 2 {
    } else {
      var shorter := path[..|path| - 1];
      assert BadPath(rows, bounds, shorter);
      PathTaints(rows, bounds, shorter);
    }
    assert SourceOf(rows[m]).Some?;
    assert rows[m] in rows[..i];
    TaintOfMeaning(bounds[i], rows[..i]);
    DegradedStart(rows, bounds, path, |path| - 1);
    assert rows[path[0]] in rows[..i];
  }

  /** The gate loses nothing: the degraded start of a path is before its end. */
  lemma {:induction false} DegradedStart(rows: seq<TaskEntry>, bounds: seq<Option<seq<Value>>>, path: seq<int>, j: int)
    requires BadPath(rows, bounds, path) && 1 <= j < |path|
    ensures path[0] < path[j]
    decreases j
  {
    assert Edge(rows, bounds, path[j - 1], path[j]);
    if j == 1 {
    } else {
      DegradedStart(rows, bounds, path, j - 1);
    }
  }

  /** Taint is reachability: an ok row records a root exactly when a bad path ends
      at it, and the root it names is the degraded row such a path starts from. */
  lemma {:induction false} TaintIsReachability(rows: seq<TaskEntry>, bounds: seq<Option<seq<Value>>>, i: int)
    requires PassRows(rows, bounds)
    requires 0 <= i < |rows| && rows[i].outcome == OutcomeOk
    ensures rows[i].taintedBy.Some? <==>
            exists path :: BadPath(rows, bounds, path) && path[|path| - 1] == i
    ensures rows[i].taintedBy.Some? ==>
            exists path :: BadPath(rows, bounds, path) && path[|path| - 1] == i
                           && rows[path[0]].key == rows[i].taintedBy.value
                           && rows[path[0]].reason == rows[i].taintedReason
  {
    if rows[i].taintedBy.Some? {
      var path := TaintedHasPath(rows, bounds, i);
    }
    forall path | BadPath(rows, bounds, path) && path[|path| - 1] == i
      ensures rows[i].taintedBy.Some?
    {
      PathTaints(rows, bounds, path);
    }
  }
}
