/** Crash-resume equivalence: without invalidation, every pass over a ledger, cut
    anywhere, replays one and the same trace and extends it. */
module CrashResume {
  import opened Types
  import opened Labels
  import opened Latest
  import opened ItemSpec
  import opened Ledger
  import opened Resume

  function Results(rows: seq<TaskEntry>): seq<Value> {
    seq(|rows|, i requires 0 <= i < |rows| => rows[i].result)
  }

  /** The labels a body calls when it is fed `results` one by one. */
  function Names(body: Body, results: seq<Value>): (names: seq<string>)
    ensures |names| == |results|
  {
    if results == [] then []
    else
      var init := results[..|results| - 1];
      var act := body(init);
      Names(body, init) + [if act.Call? then act.name else ""]
  }

  lemma {:induction false} NamesPrefix(body: Body, results: seq<Value>, n: nat)
    requires n <= |results|
    ensures Names(body, results)[..n] == Names(body, results[..n])
    ensures n < |results| && body(results[..n]).Call? ==> Names(body, results)[n] == body(results[..n]).name
    decreases |results|
  {
    if n == |results| {
      assert results[..n] == results;
      assert Names(body, results)[..n] == Names(body, results);
    } else {
      var init := results[..|results| - 1];
      assert init[..n] == results[..n];
      NamesPrefix(body, init, n);
    }
  }

  /** The rows are the body's own trace: row `i` is filed under the key of its call
      number `i`, the body having seen the results of the rows before. */
  ghost predicate BodyTrace(body: Body, rows: seq<TaskEntry>) {
    forall i :: 0 <= i < |rows| ==>
      body(Results(rows)[..i]).Call? && rows[i].key == KeyAt(Names(body, Results(rows)), i)
  }

  /** No key is recorded twice. */
  ghost predicate OnceEach(rows: seq<TaskEntry>) {
    forall key :: Executions(rows, key) <= 1
  }

  /** `base` is what the ledger held to begin with: nothing for a fresh item. */
  ghost predicate TraceInv(base: seq<TaskEntry>, c: Setting, w: World) {
    && c.inv == {} && OnceEach(base)
    && Inv(base, c, w)
    && BodyTrace(c.body, w.rows)
    && (w.pass.Some? ==>
          var p := w.pass.value;
          p.seen <= Results(w.rows) && p.calls == Names(c.body, p.seen))
  }

  lemma EachKeyOnce(base: seq<TaskEntry>, c: Setting, w: World, key: string)
    requires LedgerInv(base, c.inv, w.rows) && c.inv == {} && OnceEach(base)
    ensures Executions(w.rows, key) <= 1
  {
    assert KeyHistory(base, c.inv, w.rows, key);
    ExecutedHas(base, key);
  }

  /** The body makes a call after each proper prefix of `results`. */
  ghost predicate AllCalls(body: Body, results: seq<Value>) {
    forall i :: 0 <= i < |results| ==> body(results[..i]).Call?
  }

  /** Along no trace do two calls of the body get the same key. */
  ghost predicate KeysNeverCollide(body: Body) {
    forall results :: AllCalls(body, results) ==> DistinctKeys(Names(body, results))
  }

  lemma {:induction false} PlainTrace(body: Body, results: seq<Value>)
    requires AllCalls(body, results)
    requires forall seen :: body(seen).Call? ==> !HasDigitTail(body(seen).name)
    ensures DistinctKeys(Names(body, results))
  {
    forall i | 0 <= i < |results|
      ensures !HasDigitTail(Names(body, results)[i])
    {
      NamesPrefix(body, results, i);
    }
    PlainNamesHaveDistinctKeys(Names(body, results));
  }

  /** Labels that do not end in `#digits` are enough. */
  lemma {:induction false} PlainLabelsNeverCollide(body: Body)
    requires forall seen :: body(seen).Call? ==> !HasDigitTail(body(seen).name)
    ensures KeysNeverCollide(body)
  {
    forall results | AllCalls(body, results)
      ensures DistinctKeys(Names(body, results))
    {
      PlainTrace(body, results);
    }
  }

  /** The next call as one more element of the call list. */
  lemma NextKeyIsKeyAt(c: Setting, p: Pass, more: seq<Value>)
    requires CallsAgree(p.calls, p.item.occurrences) && p.calls == Names(c.body, p.seen)
    requires p.seen < more && c.body(p.seen).Call?
    ensures NextKey(p.item, c.body(p.seen).name) == KeyAt(Names(c.body, more), |p.seen|)
    ensures Names(c.body, more)[..|p.seen|] == p.calls
  {
    assert more[..|p.seen|] == p.seen;
    NamesPrefix(c.body, more, |p.seen|);
  }

  /** The key of the next call is the one its row was filed under, while there is
      such a row. */
  lemma NextKeyHasRow(base: seq<TaskEntry>, c: Setting, w: World)
    requires TraceInv(base, c, w) && w.pass.Some? && |w.pass.value.seen| < |w.rows|
    ensures var p := w.pass.value;
            c.body(p.seen).Call? && Winner(w.rows, NextKey(p.item, c.body(p.seen).name)) == Some(w.rows[|p.seen|])
  {
    var p, n, all := w.pass.value, |w.pass.value.seen|, Results(w.rows);
    assert p.seen == all[..n] && c.body(all[..n]).Call?;
    NextKeyIsKeyAt(c, p, all);
    EachKeyOnce(base, c, w, w.rows[n].key);
    OnlyRowWins(w.rows, n);
  }

  /** Once a pass has seen every row, its next key has a row exactly when an earlier
      call got the same key. */
  lemma NextKeyAtEnd(base: seq<TaskEntry>, c: Setting, w: World)
    requires TraceInv(base, c, w) && w.pass.Some? && |w.pass.value.seen| == |w.rows|
    requires c.body(w.pass.value.seen).Call?
    ensures var p := w.pass.value;
            var key := NextKey(p.item, c.body(p.seen).name);
            && |p.calls| == |w.rows|
            && (Has(w.rows, key) <==> exists i :: 0 <= i < |w.rows| && KeyAt(p.calls, i) == key)
  {
    assert w.pass.value.seen == Results(w.rows);
  }

  /** The next key of a pass, among the keys of a longer trace. */
  lemma {:induction false} NextKeyAmong(base: seq<TaskEntry>, c: Setting, w: World, results: seq<Value>)
    requires TraceInv(base, c, w) && w.pass.Some? && |w.pass.value.seen| == |w.rows| < |results|
    requires w.pass.value.seen == results[..|w.rows|] && AllCalls(c.body, results)
    ensures var n, names := |w.rows|, Names(c.body, results);
            && c.body(w.pass.value.seen).Call?
            && NextKey(w.pass.value.item, c.body(w.pass.value.seen).name) == KeyAt(names, n)
            && (Has(w.rows, KeyAt(names, n)) <==> exists i :: 0 <= i < n && KeyAt(names, i) == KeyAt(names, n))
  {
    var p, names := w.pass.value, Names(c.body, results);
    NextKeyIsKeyAt(c, p, results);
    NextKeyAtEnd(base, c, w);
    forall i | 0 <= i < |w.rows|
      ensures KeyAt(p.calls, i) == KeyAt(names, i)
    {
      KeyAtPrefix(names, |w.rows|, i);
    }
  }

  /** Without collisions the key after the last row is new. */
  lemma {:induction false} NextKeyIsNew(base: seq<TaskEntry>, c: Setting, w: World)
    requires TraceInv(base, c, w) && KeysNeverCollide(c.body)
    requires w.pass.Some? && |w.pass.value.seen| == |w.rows| && c.body(w.pass.value.seen).Call?
    ensures !Has(w.rows, NextKey(w.pass.value.item, c.body(w.pass.value.seen).name))
  {
    var p := w.pass.value;
    var more := p.seen + [Value(0, Null)];
    assert p.seen == Results(w.rows);
    forall i | 0 <= i < |more|
      ensures c.body(more[..i]).Call?
    {
      assert more[..i] == p.seen[..i];
      assert p.seen[..|p.seen|] == p.seen;
    }
    assert more[..|p.seen|] == p.seen;
    NextKeyAmong(base, c, w, more);
    assert DistinctKeys(Names(c.body, more));
  }

  lemma TraceExtends(body: Body, rows: seq<TaskEntry>, row: TaskEntry)
    requires BodyTrace(body, rows) && body(Results(rows)).Call?
    requires row.key == Key(body(Results(rows)).name, Count(Names(body, Results(rows)), body(Results(rows)).name) + 1)
    ensures BodyTrace(body, rows + [row])
    ensures Names(body, Results(rows + [row])) == Names(body, Results(rows)) + [body(Results(rows)).name]
  {
    var shorter, longer := Results(rows), Results(rows + [row]);
    assert longer == shorter + [row.result];
    assert longer[..|shorter|] == shorter;
    NamesPrefix(body, longer, |shorter|);
    forall i | 0 <= i < |rows + [row]|
      ensures body(longer[..i]).Call? && (rows + [row])[i].key == KeyAt(Names(body, longer), i)
    {
      assert i <= |shorter| ==> longer[..i] == shorter[..i];
      assert Names(body, longer)[..i] == Names(body, shorter)[..i];
      if i == |shorter| {
        assert Names(body, shorter)[..i] == Names(body, shorter);
      }
    }
  }

  lemma AnsweredFromTrace(base: seq<TaskEntry>, c: Setting, w: World, w': World)
    requires TraceInv(base, c, w) && Inv(base, c, w') && w'.rows == w.rows
    requires w.pass.Some? && w'.pass.Some? && |w.pass.value.seen| < |w.rows|
    requires c.body(w.pass.value.seen).Call?
    requires w'.pass.value.calls == w.pass.value.calls + [c.body(w.pass.value.seen).name]
    requires w'.pass.value.seen == w.pass.value.seen + [Results(w.rows)[|w.pass.value.seen|]]
    ensures TraceInv(base, c, w')
  {
    var n, all := |w.pass.value.seen|, Results(w.rows);
    assert all[..n + 1] == w'.pass.value.seen;
    assert w'.pass.value.seen[..n] == w.pass.value.seen;
  }

  lemma {:induction false} AnswerTraces(base: seq<TaskEntry>, c: Setting, w: World, x: Execution, retryCount: nat)
    requires TraceInv(base, c, w) && c.inv == {} && w.pass.Some? && |w.pass.value.seen| < |w.rows|
    requires Fresh(w.rows, x.uuid)
    ensures TraceInv(base, c, Step(c, w, Advance(x, retryCount)))
  {
    NextKeyHasRow(base, c, w);
    StepKeeps(base, c, w, Advance(x, retryCount));
    AnsweredCall(base, c, w, x, retryCount);
    AnsweredFromTrace(base, c, w, Step(c, w, Advance(x, retryCount)));
  }

  lemma ExecutedAtEnd(base: seq<TaskEntry>, c: Setting, w: World, w': World, row: TaskEntry)
    requires TraceInv(base, c, w) && Inv(base, c, w') && w'.rows == w.rows + [row]
    requires w.pass.Some? && w'.pass.Some? && |w.pass.value.seen| == |w.rows|
    requires c.body(w.pass.value.seen).Call?
    requires row.key == NextKey(w.pass.value.item, c.body(w.pass.value.seen).name)
    requires w'.pass.value.calls == w.pass.value.calls + [c.body(w.pass.value.seen).name]
    requires w'.pass.value.seen == w.pass.value.seen + [row.result]
    ensures TraceInv(base, c, w')
  {
    assert w.pass.value.seen == Results(w.rows);
    TraceExtends(c.body, w.rows, row);
    assert Results(w.rows + [row]) == Results(w.rows) + [row.result];
  }

  lemma ExecutionTraces(base: seq<TaskEntry>, c: Setting, w: World, x: Execution, retryCount: nat)
    requires TraceInv(base, c, w) && w.pass.Some? && |w.pass.value.seen| == |w.rows|
    requires c.body(w.pass.value.seen).Call? && Fresh(w.rows, x.uuid)
    requires !Has(w.rows, NextKey(w.pass.value.item, c.body(w.pass.value.seen).name))
    ensures var w' := Step(c, w, Advance(x, retryCount));
            TraceInv(base, c, w') && w'.pass.Some? && w'.pass.value.seen == w.pass.value.seen + [x.result] && |w'.rows| == |w.rows| + 1
  {
    StepKeeps(base, c, w, Advance(x, retryCount));
    var row := ExecutedCall(base, c, w, x, retryCount);
    ExecutedAtEnd(base, c, w, Step(c, w, Advance(x, retryCount)), row);
  }

  lemma AdvanceTraces(base: seq<TaskEntry>, c: Setting, w: World, x: Execution, retryCount: nat)
    requires TraceInv(base, c, w) && KeysNeverCollide(c.body) && c.inv == {}
    requires w.pass.Some? && c.body(w.pass.value.seen).Call? && Fresh(w.rows, x.uuid)
    ensures TraceInv(base, c, Step(c, w, Advance(x, retryCount)))
  {
    if |w.pass.value.seen| < |w.rows| {
      AnswerTraces(base, c, w, x, retryCount);
    } else {
      NextKeyIsNew(base, c, w);
      ExecutionTraces(base, c, w, x, retryCount);
    }
  }

  /** A process that takes over hydrates the rows of the run. */
  lemma RestartTraces(c: Setting, rows: seq<TaskEntry>, stored: Option<string>, runItemId: Option<string>)
    requires TraceInv([], c, World(rows, None))
    ensures var restarted := Step(c, World(rows, None), Begin(stored, runItemId));
            && TraceInv([], c, restarted) && restarted.rows == rows
            && restarted.pass.Some? && restarted.pass.value.seen == []
  {
    StepKeeps([], c, World(rows, None), Begin(stored, runItemId));
    assert [] == Results(rows)[..0];
  }

  lemma {:induction false} ReachableTraces(base: seq<TaskEntry>, c: Setting, w: World, events: seq<Event>, last: World)
    requires TraceInv(base, c, w) && KeysNeverCollide(c.body) && c.inv == {}
    requires Leads(c, w, events, last)
    ensures TraceInv(base, c, last) && w.rows <= last.rows
    decreases |events|
  {
    if events == [] {
    } else {
      var ev := events[0];
      var next := Step(c, w, ev);
      StepKeeps(base, c, w, ev);
      if ev.Advance? && w.pass.Some? && c.body(w.pass.value.seen).Call? {
        AdvanceTraces(base, c, w, ev.x, ev.retryCount);
        GrowsOnly(c, w, ev.x, ev.retryCount);
      }
      ReachableTraces(base, c, next, events[1..], last);
    }
  }

  lemma GrowsOnly(c: Setting, w: World, x: Execution, retryCount: nat)
    requires Ordered(w)
    ensures w.rows <= Step(c, w, Advance(x, retryCount)).rows
  {
  }

  /** A pass has run to its end. */
  ghost predicate Finished(c: Setting, w: World) {
    w.pass.Some? && c.body(w.pass.value.seen).Done?
  }

  /** Crash-resume equivalence. Start from an empty ledger, run any number of passes
      cut at any points, up to `mid`, and go on in the same way to `last`. Then
      nothing stored is ever lost or rewritten, no key is stored twice, every pass
      has seen exactly the stored results from the first on, and a pass that
      finishes has seen all of them: its trace is the ledger. */
  lemma CrashResumeEquivalence(c: Setting, before: seq<Event>, mid: World, after: seq<Event>, last: World)
    requires KeysNeverCollide(c.body) && c.inv == {}
    requires Leads(c, World([], None), before, mid) && Leads(c, mid, after, last)
    ensures mid.rows <= last.rows
    ensures forall key :: Executions(last.rows, key) <= 1
    ensures mid.pass.Some? ==> mid.pass.value.seen <= Results(last.rows)
    ensures last.pass.Some? ==> last.pass.value.seen <= Results(last.rows)
    ensures Finished(c, last) ==> last.pass.value.seen == Results(last.rows)
    ensures Finished(c, mid) ==> last.rows == mid.rows
    ensures BodyTrace(c.body, last.rows)
  {
    StartHolds([], c);
    ReachableTraces([], c, World([], None), before, mid);
    ReachableTraces([], c, mid, after, last);
    forall key
      ensures Executions(last.rows, key) <= 1
    {
      EachKeyOnce([], c, last, key);
    }
    assert Results(mid.rows) <= Results(last.rows);
    if Finished(c, last) {
      FinishedSawAll(c, last, last.pass.value.seen);
    }
    if Finished(c, mid) {
      FinishedSawAll(c, last, mid.pass.value.seen);
      assert |mid.rows| == |last.rows|;
    }
  }

  /** A body that is done after some results has no row beyond them. */
  lemma FinishedSawAll(c: Setting, w: World, seen: seq<Value>)
    requires BodyTrace(c.body, w.rows) && seen <= Results(w.rows) && c.body(seen).Done?
    ensures seen == Results(w.rows)
  {
    assert seen == Results(w.rows)[..|seen|];
  }

  // ---- exactly when it holds ----

  lemma {:induction false} LeadsThen(c: Setting, w: World, events: seq<Event>, mid: World, ev: Event)
    requires Ordered(w) && Leads(c, w, events, mid) && Legal(mid, ev)
    ensures Leads(c, w, events + [ev], Step(c, mid, ev))
    decreases |events|
  {
    if events == [] {
      StepIsOrdered(c, w, ev);
      assert Leads(c, Step(c, w, ev), [], Step(c, mid, ev));
      assert (events + [ev])[1..] == [];
    } else {
      StepIsOrdered(c, w, events[0]);
      LeadsThen(c, Step(c, w, events[0]), events[1..], mid, ev);
      assert (events + [ev])[1..] == events[1..] + [ev];
    }
  }

  function Returning(v: Value): Execution {
    Execution(v, OutcomeOk, None, None, 0, "u")
  }

  /** First executions carry predictable tokens, so `u` stays unused. */
  lemma SimpleTokenFresh(c: Setting, w: World)
    requires LedgerInv([], c.inv, w.rows)
    ensures Fresh(w.rows, "u")
  {
    forall i | 0 <= i < |w.rows|
      ensures w.rows[i].token != "u"
    {
      assert KeyHistory([], c.inv, w.rows, w.rows[i].key);
      assert w.rows[i].attempt == 1;
      assert |w.rows[i].token| >= 2;
    }
  }

  /** A pass at the end of its trace, whose next key is new, can be fed any result. */
  lemma Feed(c: Setting, events: seq<Event>, w: World, v: Value) returns (more: seq<Event>, w': World)
    requires c.inv == {} && Leads(c, World([], None), events, w) && TraceInv([], c, w)
    requires w.pass.Some? && |w.pass.value.seen| == |w.rows| && c.body(w.pass.value.seen).Call?
    requires !Has(w.rows, NextKey(w.pass.value.item, c.body(w.pass.value.seen).name))
    ensures Leads(c, World([], None), more, w') && TraceInv([], c, w')
    ensures w'.pass.Some? && w'.pass.value.seen == w.pass.value.seen + [v] && |w'.rows| == |w.rows| + 1
  {
    var ev := Advance(Returning(v), 0);
    SimpleTokenFresh(c, w);
    ExecutionTraces([], c, w, ev.x, 0);
    LeadsThen(c, World([], None), events, w, ev);
    more, w' := events + [ev], Step(c, w, ev);
  }

  lemma OpenFirstPass(c: Setting) returns (events: seq<Event>, w: World)
    requires c.inv == {}
    ensures Leads(c, World([], None), events, w) && TraceInv([], c, w)
    ensures w.pass.Some? && w.pass.value.seen == [] && w.rows == []
  {
    StartHolds([], c);
    var start, ev := World([], None), Begin(None, None);
    StepKeeps([], c, start, ev);
    LeadsThen(c, start, [], start, ev);
    events, w := [ev], Step(c, start, ev);
    assert [] + [ev] == [ev];
    assert Results(w.rows) == [];
  }

  ghost predicate FedSoFar(c: Setting, results: seq<Value>, n: nat, events: seq<Event>, w: World)
    requires n <= |results|
  {
    && TraceInv([], c, w) && Leads(c, World([], None), events, w)
    && w.pass.Some? && w.pass.value.seen == results[..n] && |w.rows| == n
  }

  lemma {:induction false} FeedNext(c: Setting, results: seq<Value>, n: nat, events: seq<Event>, w: World) returns (more: seq<Event>, w': World)
    requires n < |results| && AllCalls(c.body, results) && FedSoFar(c, results, n, events, w)
    requires forall i :: 0 <= i < n ==> KeyAt(Names(c.body, results), i) != KeyAt(Names(c.body, results), n)
    ensures FedSoFar(c, results, n + 1, more, w')
  {
    NextKeyAmong([], c, w, results);
    more, w' := Feed(c, events, w, results[n]);
    assert results[..n + 1] == results[..n] + [results[n]];
  }

  /** As long as no two calls share a key, a first pass can be fed any results. */
  lemma {:induction false} FirstPass(c: Setting, results: seq<Value>, n: nat) returns (events: seq<Event>, w: World)
    requires c.inv == {} && n < |results| && AllCalls(c.body, results)
    requires forall i, j :: 0 <= i < j < n ==> KeyAt(Names(c.body, results), i) != KeyAt(Names(c.body, results), j)
    ensures FedSoFar(c, results, n, events, w)
  {
    if n == 0 {
      events, w := OpenFirstPass(c);
    } else {
      var before, mid := FirstPass(c, results, n - 1);
      events, w := FeedNext(c, results, n - 1, before, mid);
    }
  }

  /** Every pass has seen stored results only. */
  ghost predicate EveryCallHasItsRow(c: Setting) {
    forall events, w :: Leads(c, World([], None), events, w) && w.pass.Some? ==> w.pass.value.seen <= Results(w.rows)
  }

  lemma {:induction false} FirstCollision(names: seq<string>) returns (i: nat, j: nat)
    requires !DistinctKeys(names)
    ensures i < j < |names| && KeyAt(names, i) == KeyAt(names, j)
    ensures forall a, b :: 0 <= a < b < j ==> KeyAt(names, a) != KeyAt(names, b)
  {
    j := 0;
    while forall a :: 0 <= a < j < |names| ==> KeyAt(names, a) != KeyAt(names, j)
      invariant j <= |names|
      invariant forall a, b :: 0 <= a < b < j ==> KeyAt(names, a) != KeyAt(names, b)
      decreases |names| - j
    {
      j := j + 1;
    }
    i :| 0 <= i < j < |names| && KeyAt(names, i) == KeyAt(names, j);
  }

  /** A collision makes some first pass answer a call that was never executed. */
  lemma CollisionAnswersUnexecuted(c: Setting, results: seq<Value>)
    requires c.inv == {} && AllCalls(c.body, results) && !DistinctKeys(Names(c.body, results))
    ensures !EveryCallHasItsRow(c)
  {
    var names := Names(c.body, results);
    var i, j := FirstCollision(names);
    var events, w := FirstPass(c, results, j);
    NextKeyAmong([], c, w, results);
    AnsweredPastTheLedger(c, events, w);
  }

  lemma {:induction false} AnsweredPastTheLedger(c: Setting, events: seq<Event>, w: World)
    requires c.inv == {} && Leads(c, World([], None), events, w) && TraceInv([], c, w)
    requires w.pass.Some? && |w.pass.value.seen| == |w.rows| && c.body(w.pass.value.seen).Call?
    requires Has(w.rows, NextKey(w.pass.value.item, c.body(w.pass.value.seen).name))
    ensures !EveryCallHasItsRow(c)
  {
    var ev := Advance(Returning(Value(0, Null)), 0);
    SimpleTokenFresh(c, w);
    AnsweredCall([], c, w, ev.x, 0);
    LeadsThen(c, World([], None), events, w, ev);
    SawMoreThanStored(c, events + [ev], Step(c, w, ev));
  }

  lemma SawMoreThanStored(c: Setting, events: seq<Event>, w: World)
    requires Leads(c, World([], None), events, w) && w.pass.Some? && |w.pass.value.seen| > |w.rows|
    ensures !EveryCallHasItsRow(c)
  {
    assert |Results(w.rows)| == |w.rows|;
  }

  /** In every pass over every history each call is answered by its own stored row,
      exactly when the body's keys never collide. */
  lemma ReplayLawIffNoCollision(c: Setting)
    requires c.inv == {}
    ensures EveryCallHasItsRow(c) <==> KeysNeverCollide(c.body)
  {
    if KeysNeverCollide(c.body) {
      forall events, w | Leads(c, World([], None), events, w) && w.pass.Some?
        ensures w.pass.value.seen <= Results(w.rows)
      {
        StartHolds([], c);
        ReachableTraces([], c, World([], None), events, w);
      }
    } else {
      var results :| AllCalls(c.body, results) && !DistinctKeys(Names(c.body, results));
      CollisionAnswersUnexecuted(c, results);
    }
  }

  /** A body that collides: `a` twice and then `a#2`. */
  lemma DigitLabelsCollide(body: Body)
    requires forall seen :: body(seen) == if |seen| < 2 then Call("a", None) else if |seen| == 2 then Call("a#2", None) else Done
    ensures !KeysNeverCollide(body)
  {
    var results := seq(3, i => Value(0, Null));
    assert AllCalls(body, results);
    var names := Names(body, results);
    NamesPrefix(body, results, 0);
    NamesPrefix(body, results, 1);
    NamesPrefix(body, results, 2);
    assert names == ["a", "a", "a#2"];
    DigitTailsCollide();
  }
}
