/** The state of one durable item and what each of its operations does to it.
    The class in Item.dfy is proved against these functions; the theorems about
    whole passes are about them. Models `Item` in src/papayya/durable/run.py. */
module ItemSpec {
  import opened Types
  import opened Labels
  import opened Latest
  import opened Taint

  type ReuseKey = (string, string)  // (customer's item id, bare label)

  datatype ItemState = ItemState(
    cache: map<string, TaskEntry>,
    cacheKeys: seq<string>,             // the cache's insertion order
    callOrder: seq<string>,
    reuse: map<ReuseKey, TaskEntry>,
    aggregate: set<ReuseKey>,
    executedAny: bool,
    runItemId: Option<string>,
    occurrences: map<string, nat>,
    attempts: map<string, int>)

  function Get<T>(m: map<string, T>, key: string, default: T): T {
    if key in m then m[key] else default
  }

  // ---- hydration ----

  function Blank(runItemId: Option<string>): ItemState {
    ItemState(map[], [], [], map[], {}, false, runItemId, map[], map[])
  }

  /** The counters after a scan of the stored rows. */
  function SeededAttempts(rows: seq<TaskEntry>): map<string, int> {
    if rows == [] then map[]
    else
      var before, e := SeededAttempts(rows[..|rows| - 1]), rows[|rows| - 1];
      if e.attempt > Get(before, e.key, 0) then before[e.key := e.attempt] else before
  }

  /** The key under which a copied entry may be found; none for an entry this
      run executed, or one without an item id. */
  function ReuseKeyOf(e: TaskEntry): Option<ReuseKey> {
    if e.reusedFrom.None? || e.itemId.None? then None
    else Some((e.itemId.value, BaseLabel(e.key)))
  }

  /** `s` after one entry of the collapsed list has been cached and indexed. */
  function Filed(s: ItemState, e: TaskEntry, storedItemId: Option<string>): ItemState {
    var r := ReuseKeyOf(e);
    s.(cache := s.cache[e.key := e],
       cacheKeys := s.cacheKeys + [e.key],
       callOrder := s.callOrder + [e.key],
       reuse := if r.Some? then s.reuse[r.value := e] else s.reuse,
       aggregate := if r.Some? && storedItemId == Some(r.value.0) then s.aggregate + {r.value} else s.aggregate)
  }

  /** The state after the first `n` entries of the collapsed list: `rows` are the
      stored executions, `inv` the pairs a pause recorded, `storedItemId` the
      run-level id they were stored under. */
  function HydratedUpTo(rows: seq<TaskEntry>, inv: set<(string, int)>, storedItemId: Option<string>, runItemId: Option<string>, n: nat): ItemState
    requires n <= |Collapse(rows)|
  {
    if n == 0 then Blank(runItemId).(attempts := SeededAttempts(rows))
    else
      var s, e := HydratedUpTo(rows, inv, storedItemId, runItemId, n - 1), Collapse(rows)[n - 1];
      if (e.key, e.attempt) in inv then s else Filed(s, e, storedItemId)
  }

  function Hydrated(rows: seq<TaskEntry>, inv: set<(string, int)>, storedItemId: Option<string>, runItemId: Option<string>): (s: ItemState)
    ensures CacheOrdered(s)
  {
    HydratedUpToCache(rows, inv, storedItemId, runItemId, |Collapse(rows)|);
    HydratedUpTo(rows, inv, storedItemId, runItemId, |Collapse(rows)|)
  }

  // ---- what hydration yields ----

  lemma {:induction false} SeededAttemptsMeaning(rows: seq<TaskEntry>, key: string)
    ensures Get(SeededAttempts(rows), key, 0) == MaxAttempt(rows, key)
  {
    if rows == [] {
    } else {
      var init, e := rows[..|rows| - 1], rows[|rows| - 1];
      SeededAttemptsMeaning(init, key);
      SeededAttemptsMeaning(init, e.key);
    }
  }

  /** The execution that speaks for `key` is recorded and no fence objected to it. */
  predicate Stands(rows: seq<TaskEntry>, inv: set<(string, int)>, key: string) {
    var w := Winner(rows, key);
    w.Some? && (key, w.value.attempt) !in inv
  }

  /** That is: of the rows of the key, the last with the highest attempt and then the latest
      completion is not one the pause recorded. */
  lemma StandsMeaning(rows: seq<TaskEntry>, inv: set<(string, int)>, key: string)
    ensures Stands(rows, inv, key) <==> exists i: nat :: IsLatest(rows, i) && rows[i].key == key && (key, rows[i].attempt) !in inv
  {
    if Has(rows, key) {
      var i := KeptIsTheLatest(rows, key);
      forall j: nat | IsLatest(rows, j) && rows[j].key == key
        ensures i == j
      {
        assert rows[i].key == rows[j].key;
      }
    }
  }

  ghost predicate CacheOrdered(s: ItemState) {
    && (forall k :: k in s.cacheKeys <==> k in s.cache)
    && (forall i, j :: 0 <= i < j < |s.cacheKeys| ==> s.cacheKeys[i] != s.cacheKeys[j])
  }

  /** The index files every copied entry under its own item id and base label. */
  ghost predicate IndexSound(s: ItemState, storedItemId: Option<string>) {
    && (forall r :: r in s.reuse ==> ReuseKeyOf(s.reuse[r]) == Some(r))
    && (forall r :: r in s.aggregate <==> r in s.reuse && storedItemId == Some(r.0))
  }

  lemma FiledKeepsIndex(s: ItemState, e: TaskEntry, storedItemId: Option<string>)
    requires IndexSound(s, storedItemId)
    ensures IndexSound(Filed(s, e, storedItemId), storedItemId)
  {
  }

  lemma FiledKeepsOrder(s: ItemState, e: TaskEntry, storedItemId: Option<string>)
    requires CacheOrdered(s) && e.key !in s.cache
    ensures CacheOrdered(Filed(s, e, storedItemId))
  {
  }

  /** Hydration leaves occurrences, the run's id and the executed flag alone. */
  ghost predicate Untouched(s: ItemState, rows: seq<TaskEntry>, runItemId: Option<string>) {
    && s.attempts == SeededAttempts(rows)
    && s.occurrences == map[] && !s.executedAny && s.runItemId == runItemId
    && s.callOrder == s.cacheKeys
  }

  lemma {:induction false} HydratedUpToShape(rows: seq<TaskEntry>, inv: set<(string, int)>, storedItemId: Option<string>, runItemId: Option<string>, n: nat)
    requires n <= |Collapse(rows)|
    ensures Untouched(HydratedUpTo(rows, inv, storedItemId, runItemId, n), rows, runItemId)
    ensures IndexSound(HydratedUpTo(rows, inv, storedItemId, runItemId, n), storedItemId)
  {
    if n == 0 {
    } else {
      HydratedUpToShape(rows, inv, storedItemId, runItemId, n - 1);
      FiledKeepsIndex(HydratedUpTo(rows, inv, storedItemId, runItemId, n - 1), Collapse(rows)[n - 1], storedItemId);
    }
  }

  /** The cache holds the standing keys among `keys`, each with its latest execution. */
  ghost predicate CachesStanding(s: ItemState, rows: seq<TaskEntry>, inv: set<(string, int)>, keys: seq<string>) {
    && (forall k :: k in s.cache <==> k in keys && Stands(rows, inv, k))
    && (forall k :: k in s.cache ==> Some(s.cache[k]) == Winner(rows, k))
    && CacheOrdered(s)
  }

  lemma FiledCachesStanding(s: ItemState, rows: seq<TaskEntry>, inv: set<(string, int)>, keys: seq<string>, e: TaskEntry, storedItemId: Option<string>)
    requires CachesStanding(s, rows, inv, keys) && e.key !in keys && Some(e) == Winner(rows, e.key)
    ensures CachesStanding(FiledUnlessRecorded(s, inv, e, storedItemId), rows, inv, keys + [e.key])
  {
    assert e.key !in s.cache;
    forall k
      ensures k in keys + [e.key] <==> k in keys || k == e.key
    {
    }
    if (e.key, e.attempt) !in inv {
      FiledKeepsOrder(s, e, storedItemId);
    }
  }

  lemma NextCollapsed(rows: seq<TaskEntry>, n: nat)
    requires 0 < n <= |Collapse(rows)|
    ensures var e := Collapse(rows)[n - 1];
            && FirstSeen(rows)[..n] == FirstSeen(rows)[..n - 1] + [e.key]
            && Some(e) == Winner(rows, e.key) && e.key !in FirstSeen(rows)[..n - 1]
  {
    FirstSeenDistinct(rows);
  }

  /** The state after entry `e` of the collapsed list. */
  function FiledUnlessRecorded(s: ItemState, inv: set<(string, int)>, e: TaskEntry, storedItemId: Option<string>): ItemState {
    if (e.key, e.attempt) in inv then s else Filed(s, e, storedItemId)
  }

  lemma OneMoreHydrated(rows: seq<TaskEntry>, inv: set<(string, int)>, storedItemId: Option<string>, runItemId: Option<string>, n: nat)
    requires 0 < n <= |Collapse(rows)|
    ensures HydratedUpTo(rows, inv, storedItemId, runItemId, n) ==
            FiledUnlessRecorded(HydratedUpTo(rows, inv, storedItemId, runItemId, n - 1), inv, Collapse(rows)[n - 1], storedItemId)
  {
  }

  lemma BlankCaches(rows: seq<TaskEntry>, inv: set<(string, int)>, s: ItemState, keys: seq<string>)
    requires s.cache == map[] && s.cacheKeys == [] && keys == []
    ensures CachesStanding(s, rows, inv, keys)
  {
  }

  lemma {:induction false} HydratedUpToCache(rows: seq<TaskEntry>, inv: set<(string, int)>, storedItemId: Option<string>, runItemId: Option<string>, n: nat)
    requires n <= |Collapse(rows)|
    ensures CachesStanding(HydratedUpTo(rows, inv, storedItemId, runItemId, n), rows, inv, FirstSeen(rows)[..n])
  {
    if n == 0 {
      BlankCaches(rows, inv, HydratedUpTo(rows, inv, storedItemId, runItemId, n), FirstSeen(rows)[..n]);
    } else {
      HydratedUpToCache(rows, inv, storedItemId, runItemId, n - 1);
      NextCachesStanding(rows, inv, storedItemId, runItemId, n);
    }
  }

  lemma NextCachesStanding(rows: seq<TaskEntry>, inv: set<(string, int)>, storedItemId: Option<string>, runItemId: Option<string>, n: nat)
    requires 0 < n <= |Collapse(rows)|
    requires CachesStanding(HydratedUpTo(rows, inv, storedItemId, runItemId, n - 1), rows, inv, FirstSeen(rows)[..n - 1])
    ensures CachesStanding(HydratedUpTo(rows, inv, storedItemId, runItemId, n), rows, inv, FirstSeen(rows)[..n])
  {
    var keys, e := FirstSeen(rows)[..n - 1], Collapse(rows)[n - 1];
    NextCollapsed(rows, n);
    FiledCachesStanding(HydratedUpTo(rows, inv, storedItemId, runItemId, n - 1), rows, inv, keys, e, storedItemId);
    OneMoreHydrated(rows, inv, storedItemId, runItemId, n);
  }

  /** After hydration a key is cached exactly when the latest stored execution of it
      stands, with that execution; attempts continue from the highest stored one. */
  lemma HydratedMeaning(rows: seq<TaskEntry>, inv: set<(string, int)>, storedItemId: Option<string>, runItemId: Option<string>)
    ensures var s := Hydrated(rows, inv, storedItemId, runItemId);
            && (forall k :: k in s.cache <==> Stands(rows, inv, k))
            && (forall k :: k in s.cache ==> Some(s.cache[k]) == Winner(rows, k))
            && (forall k :: Get(s.attempts, k, 0) == MaxAttempt(rows, k))
            && CacheOrdered(s) && IndexSound(s, storedItemId)
            && s.occurrences == map[] && !s.executedAny && s.runItemId == runItemId
            && s.callOrder == s.cacheKeys
  {
    HydratedUpToShape(rows, inv, storedItemId, runItemId, |Collapse(rows)|);
    HydratedUpToCache(rows, inv, storedItemId, runItemId, |Collapse(rows)|);
    assert FirstSeen(rows)[..|FirstSeen(rows)|] == FirstSeen(rows);
    forall k
      ensures Get(SeededAttempts(rows), k, 0) == MaxAttempt(rows, k)
    {
      SeededAttemptsMeaning(rows, k);
    }
  }

  /** The keys are in the order of the collapsed list. */
  ghost predicate InCollapseOrder(keys: seq<string>, seen: seq<string>) {
    && (forall p :: 0 <= p < |keys| ==> keys[p] in seen)
    && forall p, q, a, b :: 0 <= p < q < |keys| && 0 <= a < |seen| && 0 <= b < |seen| && seen[a] == keys[p] && seen[b] == keys[q] ==> a < b
  }

  lemma OneMoreInOrder(keys: seq<string>, seen: seq<string>, key: string)
    requires InCollapseOrder(keys, seen) && key !in seen
    ensures InCollapseOrder(keys, seen + [key]) && InCollapseOrder(keys + [key], seen + [key])
  {
    assert forall k :: k in seen + [key] <==> k in seen || k == key;
  }

  lemma NextKeys(rows: seq<TaskEntry>, inv: set<(string, int)>, storedItemId: Option<string>, runItemId: Option<string>, n: nat)
    requires 0 < n <= |Collapse(rows)|
    ensures var keys := HydratedUpTo(rows, inv, storedItemId, runItemId, n - 1).cacheKeys;
            HydratedUpTo(rows, inv, storedItemId, runItemId, n).cacheKeys in {keys, keys + [Collapse(rows)[n - 1].key]}
  {
  }

  lemma NextInOrder(rows: seq<TaskEntry>, inv: set<(string, int)>, storedItemId: Option<string>, runItemId: Option<string>, n: nat)
    requires 0 < n <= |Collapse(rows)|
    requires InCollapseOrder(HydratedUpTo(rows, inv, storedItemId, runItemId, n - 1).cacheKeys, FirstSeen(rows)[..n - 1])
    ensures InCollapseOrder(HydratedUpTo(rows, inv, storedItemId, runItemId, n).cacheKeys, FirstSeen(rows)[..n])
  {
    NextCollapsed(rows, n);
    NextKeys(rows, inv, storedItemId, runItemId, n);
    OneMoreInOrder(HydratedUpTo(rows, inv, storedItemId, runItemId, n - 1).cacheKeys, FirstSeen(rows)[..n - 1], Collapse(rows)[n - 1].key);
  }

  lemma {:induction false} HydratedInOrder(rows: seq<TaskEntry>, inv: set<(string, int)>, storedItemId: Option<string>, runItemId: Option<string>, n: nat)
    requires n <= |Collapse(rows)|
    ensures InCollapseOrder(HydratedUpTo(rows, inv, storedItemId, runItemId, n).cacheKeys, FirstSeen(rows)[..n])
  {
    if n == 0 {
    } else {
      HydratedInOrder(rows, inv, storedItemId, runItemId, n - 1);
      NextInOrder(rows, inv, storedItemId, runItemId, n);
    }
  }

  /** And the cache is in the order in which the steps first appeared among the rows: that
      is the order in which a taint looks at them. */
  lemma CacheKeepsTheOrder(
    rows: seq<TaskEntry>, inv: set<(string, int)>, storedItemId: Option<string>, runItemId: Option<string>, p: nat, q: nat, i: nat, j: nat)
    requires var keys := Hydrated(rows, inv, storedItemId, runItemId).cacheKeys;
             && p < q < |keys| && IsFirst(rows, i) && rows[i].key == keys[p] && IsFirst(rows, j) && rows[j].key == keys[q]
    ensures i < j
  {
    var seen, keys := FirstSeen(rows), Hydrated(rows, inv, storedItemId, runItemId).cacheKeys;
    HydratedInOrder(rows, inv, storedItemId, runItemId, |Collapse(rows)|);
    assert seen[..|seen|] == seen;
    var a :| 0 <= a < |seen| && seen[a] == keys[p];
    var b :| 0 <= b < |seen| && seen[b] == keys[q];
    CollapseKeepsOrder(rows, a, b, i, j);
  }

  // ---- one call ----

  function NextKey(s: ItemState, name: string): string {
    Key(name, Get(s.occurrences, name, 0) + 1)
  }

  function EffectiveItemId(s: ItemState, explicit: Option<string>): Option<string> {
    if explicit.Some? then explicit else s.runItemId
  }

  datatype Decision = Hit(entry: TaskEntry) | Execute

  /** The copied entry a call may be answered with, if any. */
  function ReusableFor(s: ItemState, name: string, explicit: Option<string>): Option<TaskEntry> {
    ReusableUnder(s, name, EffectiveItemId(s, explicit))
  }

  function ReusableUnder(s: ItemState, name: string, id: Option<string>): Option<TaskEntry> {
    if id.Some? && (id.value, name) in s.reuse && !((id.value, name) in s.aggregate && s.executedAny)
    then Some(s.reuse[(id.value, name)])
    else None
  }

  function Decide(s: ItemState, name: string, explicit: Option<string>): Decision {
    var reusable := ReusableFor(s, name, explicit);
    if reusable.Some? then Hit(reusable.value)
    else if NextKey(s, name) in s.cache && s.cache[NextKey(s, name)].reusedFrom.None?
    then Hit(s.cache[NextKey(s, name)])
    else Execute
  }

  /** The state once the lookup is over: hit or miss, a call consumes an
      occurrence, and the first explicit item id becomes the run's. */
  function Called(s: ItemState, name: string, explicit: Option<string>): ItemState {
    s.(occurrences := s.occurrences[name := Get(s.occurrences, name, 0) + 1],
       runItemId := if s.runItemId.Some? then s.runItemId else explicit,
       executedAny := s.executedAny || Decide(s, name, explicit).Execute?)
  }

  /** What a finished try of the step's function brings along: its result, the
      verdict on it, its live arguments, and the stamps of the moment. */
  datatype Execution = Execution(
    result: Value,
    outcome: Outcome,
    reason: Option<string>,
    bound: Option<seq<Value>>,
    completedAt: int,
    uuid: string)

  /** The cached entries in insertion order: the steps before this one. */
  function Prior(s: ItemState): seq<TaskEntry>
    requires CacheOrdered(s)
  {
    seq(|s.cacheKeys|, i requires 0 <= i < |s.cacheKeys| => s.cache[s.cacheKeys[i]])
  }

  function NextAttempt(s: ItemState, key: string): int {
    Get(s.attempts, key, 0) + 1
  }

  /** A first execution has a predictable token, a later one a random token. */
  function TokenFor(key: string, attempt: int, uuid: string): string {
    if attempt == 1 then key + "|1" else uuid
  }

  /** The row an execution writes. */
  ghost function EntryFor(s: ItemState, key: string, itemId: Option<string>, x: Execution, retryCount: nat): (e: TaskEntry)
    requires CacheOrdered(s)
    ensures e.key == key && e.attempt == NextAttempt(s, key) && e.reusedFrom.None?
    ensures Carries(e, RecordedTaint(x.outcome, x.bound, Prior(s)))
  {
    var t := RecordedTaint(x.outcome, x.bound, Prior(s));
    TaskEntry(key, x.result, x.completedAt, itemId, x.outcome, x.reason,
              if t.Some? then Some(t.value.key) else None,
              if t.Some? then t.value.reason else None,
              TokenFor(key, NextAttempt(s, key), x.uuid), NextAttempt(s, key), retryCount, None)
  }

  /** The state once `e`, an execution under its key, has been recorded. */
  function Recorded(s: ItemState, e: TaskEntry): ItemState {
    s.(cache := s.cache[e.key := e],
       cacheKeys := if e.key in s.cache then s.cacheKeys else s.cacheKeys + [e.key],
       callOrder := s.callOrder + [e.key],
       attempts := s.attempts[e.key := e.attempt])
  }

  /** The provider key a customer reads before a call: run, effective label, attempt. */
  datatype ProviderKey = ProviderKey(runId: string, key: string, attempt: int)

  function IdempotencyKey(runId: string, s: ItemState, name: string): ProviderKey {
    ProviderKey(runId, NextKey(s, name), NextAttempt(s, NextKey(s, name)))
  }

  // ---- facts about one call ----

  /** The row of a call carries the label and attempt of the key read just before it. */
  lemma KeyReadBefore(runId: string, s: ItemState, name: string, explicit: Option<string>, e: TaskEntry, x: Execution, retryCount: nat)
    requires CacheOrdered(s)
    requires e == EntryFor(Called(s, name, explicit), NextKey(s, name), EffectiveItemId(s, explicit), x, retryCount)
    ensures ProviderKey(runId, e.key, e.attempt) == IdempotencyKey(runId, s, name)
  {
  }

  lemma RecordedIsOrdered(s: ItemState, e: TaskEntry)
    requires CacheOrdered(s)
    ensures CacheOrdered(Recorded(s, e))
  {
  }

  lemma FreshExtendsPrior(s: ItemState, e: TaskEntry)
    requires CacheOrdered(s) && e.key !in s.cache
    ensures CacheOrdered(Recorded(s, e))
    ensures Prior(Recorded(s, e)) == Prior(s) + [e]
  {
    RecordedIsOrdered(s, e);
  }
}
