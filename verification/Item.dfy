/** The durable item itself: an object that updates its fields in place.
    Every method is proved against the state functions of ItemSpec.
    Models `Item` in src/papayya/durable/run.py. */
module Items {
  import opened Types
  import opened Labels
  import opened Latest
  import opened Taint
  import opened ItemSpec
  import Backoff

  /** What a store hands back for a run it knows. */
  datatype Checkpoint = Checkpoint(
    tasks: seq<TaskEntry>,
    itemId: Option<string>,
    pauseInvalidated: seq<(string, int)>)

  /** One try of a step's function. */
  datatype Try = Returns(x: Execution) | Raises(retryable: bool)

  datatype PreResult =
    | AlreadyFinished
    | PauseSignalled(reason: PauseReason)
    | CacheHit(entry: TaskEntry)
    | Proceed(key: string, itemId: Option<string>)

  datatype CallResult =
    | Refused                       // the item is already finished
    | Paused(why: PauseReason)          // a fence stopped the run before this step
    | Answered(entry: TaskEntry)    // from the cache
    | Executed(entry: TaskEntry)    // ran and was written
    | Failed                        // the function's last exception went up

  class Item {
    const runId: string
    var cache: map<string, TaskEntry>
    var cacheKeys: seq<string>
    var callOrder: seq<string>
    var reuseIndex: map<ReuseKey, TaskEntry>
    var reuseAggregate: set<ReuseKey>
    var executedAny: bool
    var runItemId: Option<string>
    var occurrences: map<string, nat>
    var attempts: map<string, int>
    var initialized: bool
    var finished: bool
    var written: seq<TaskEntry>   // the save_task calls made, in order
    var statuses: seq<string>     // the set_status calls made, in order

    function State(): ItemState
      reads this
    {
      ItemState(cache, cacheKeys, callOrder, reuseIndex, reuseAggregate,
                executedAny, runItemId, occurrences, attempts)
    }

    /** The caches agree, every step in the call order is cached, and a terminal
        status has been written exactly when the item is finished. */
    ghost predicate Valid()
      reads this
    {
      && CacheOrdered(State())
      && (forall k :: k in callOrder ==> k in cache)
      && |statuses| == (if finished then 1 else 0)
    }

    constructor (runId: string, itemId: Option<string>)
      ensures Valid() && !initialized && !finished && written == []
      ensures State() == Blank(itemId)
      ensures this.runId == runId
    {
      this.runId := runId;
      cache, cacheKeys, callOrder := map[], [], [];
      reuseIndex, reuseAggregate, executedAny := map[], {}, false;
      runItemId, occurrences, attempts := itemId, map[], map[];
      initialized, finished, written, statuses := false, false, [], [];
    }

    /** Load what the store has for this run, or take over the prefix a rewind
        supplies when the store has nothing. A second call changes nothing. */
    method Init(existing: Option<Checkpoint>, prepopulated: seq<TaskEntry>)
      requires Valid()
      requires !initialized ==> State() == Blank(runItemId)
      modifies this
      ensures Valid() && initialized && finished == old(finished) && written == old(written)
      ensures runItemId == old(runItemId)
      ensures old(initialized) ==> State() == old(State())
      ensures !old(initialized) && existing.Some? ==>
                State() == Hydrated(existing.value.tasks, (set p | p in existing.value.pauseInvalidated), existing.value.itemId, runItemId)
      ensures !old(initialized) && existing.None? ==>
                State() == Hydrated(prepopulated, {}, runItemId, runItemId)
    {
      if initialized {
        return;
      }
      initialized := true;
      if existing.Some? {
        Hydrate(existing.value.tasks, (set p | p in existing.value.pauseInvalidated), existing.value.itemId);
      } else if prepopulated != [] {
        Hydrate(prepopulated, {}, runItemId);
      } else {
        assert Collapse(prepopulated) == [];
      }
    }

    method Hydrate(tasks: seq<TaskEntry>, invalidated: set<(string, int)>, storedItemId: Option<string>)
      requires Valid() && State() == Blank(runItemId)
      modifies this`cache, this`cacheKeys, this`callOrder, this`reuseIndex, this`reuseAggregate, this`attempts
      ensures Valid()
      ensures State() == Hydrated(tasks, invalidated, storedItemId, runItemId)
    {
      SeedAttempts(tasks);
      var latest := LatestPerLabel(tasks);
      for i := 0 to |latest|
        invariant State() == HydratedUpTo(tasks, invalidated, storedItemId, runItemId, i)
      {
        var entry := latest[i];
        if (entry.key, entry.attempt) !in invalidated {
          FileEntry(entry, storedItemId);
        }
      }
      HydratedMeaning(tasks, invalidated, storedItemId, runItemId);
    }

    method FileEntry(entry: TaskEntry, storedItemId: Option<string>)
      modifies this`cache, this`cacheKeys, this`callOrder, this`reuseIndex, this`reuseAggregate
      ensures State() == Filed(old(State()), entry, storedItemId)
    {
      cache := cache[entry.key := entry];
      cacheKeys := cacheKeys + [entry.key];
      callOrder := callOrder + [entry.key];
      IndexIfReused(entry, storedItemId);
    }

    method IndexIfReused(entry: TaskEntry, storedItemId: Option<string>)
      modifies this`reuseIndex, this`reuseAggregate
      ensures ReuseKeyOf(entry).None? ==> reuseIndex == old(reuseIndex) && reuseAggregate == old(reuseAggregate)
      ensures ReuseKeyOf(entry).Some? ==>
                && reuseIndex == old(reuseIndex)[ReuseKeyOf(entry).value := entry]
                && reuseAggregate == old(reuseAggregate) + (if storedItemId == entry.itemId then {ReuseKeyOf(entry).value} else {})
    {
      if entry.reusedFrom.None? || entry.itemId.None? {
        return;
      }
      var key := (entry.itemId.value, BaseLabel(entry.key));
      reuseIndex := reuseIndex[key := entry];
      if storedItemId.Some? && entry.itemId == storedItemId {
        reuseAggregate := reuseAggregate + {key};
      }
    }

    /** The highest stored attempt of every key, over the raw rows. */
    method SeedAttempts(tasks: seq<TaskEntry>)
      requires attempts == map[]
      modifies this`attempts
      ensures attempts == SeededAttempts(tasks)
    {
      for i := 0 to |tasks|
        invariant attempts == SeededAttempts(tasks[..i])
      {
        var entry := tasks[i];
        assert tasks[..i + 1][..i] == tasks[..i];
        if entry.attempt > Get(attempts, entry.key, 0) {
          attempts := attempts[entry.key := entry.attempt];
        }
      }
      assert tasks[..|tasks|] == tasks;
    }

    /** Consume the next occurrence of a label. */
    method ResolveStepLabel(name: string) returns (key: string)
      modifies this`occurrences
      ensures key == NextKey(old(State()), name)
      ensures occurrences == old(occurrences)[name := Get(old(occurrences), name, 0) + 1]
    {
      var n := Get(occurrences, name, 0) + 1;
      occurrences := occurrences[name := n];
      key := if n == 1 then name else name + "#" + Decimal(n);
    }

    /** The key the next call of a label would get. */
    function PeekStepLabel(name: string): string
      reads this
      ensures PeekStepLabel(name) == NextKey(State(), name)
    {
      var n := Get(occurrences, name, 0) + 1;
      if n == 1 then name else name + "#" + Decimal(n)
    }

    function ReadIdempotencyKey(name: string): ProviderKey
      reads this
      ensures ReadIdempotencyKey(name) == IdempotencyKey(runId, State(), name)
    {
      var key := PeekStepLabel(name);
      ProviderKey(runId, key, Get(attempts, key, 0) + 1)
    }

    method NextExecution(key: string, uuid: string) returns (token: string, attempt: int)
      modifies this`attempts
      ensures attempt == NextAttempt(old(State()), key) && token == TokenFor(key, attempt, uuid)
      ensures attempts == old(attempts)[key := attempt]
    {
      attempt := Get(attempts, key, 0) + 1;
      attempts := attempts[key := attempt];
      token := if attempt == 1 then key + "|1" else uuid;
    }

    /** The two-tier lookup: copied work by item id and label, then this run's own work
        by position. */
    method Lookup(name: string, key: string, itemId: Option<string>) returns (cached: Option<TaskEntry>)
      ensures cached ==
              if ReusableUnder(State(), name, itemId).Some? then ReusableUnder(State(), name, itemId)
              else if key in cache && cache[key].reusedFrom.None? then Some(cache[key])
              else None
    {
      cached := None;
      if itemId.Some? {
        var reuseKey := (itemId.value, name);
        if reuseKey in reuseIndex {
          if !(reuseKey in reuseAggregate && executedAny) {
            cached := Some(reuseIndex[reuseKey]);
          }
        }
      }
      if cached.None? {
        if key in cache && cache[key].reusedFrom.None? {
          cached := Some(cache[key]);
        }
      }
    }

    /** Everything above the call boundary: the pause fence, the occurrence, the
        item id and the two-tier lookup. */
    method PreCall(name: string, explicit: Option<string>, pause: Option<PauseReason>) returns (r: PreResult)
      requires Valid()
      modifies this`occurrences, this`runItemId, this`executedAny
      ensures Valid()
      ensures finished ==> r == AlreadyFinished && State() == old(State())
      ensures !finished && pause.Some? ==> r == PauseSignalled(pause.value) && State() == old(State())
      ensures !finished && pause.None? ==>
                && State() == Called(old(State()), name, explicit)
                && match Decide(old(State()), name, explicit)
                   case Hit(e) => r == CacheHit(e)
                   case Execute => r == Proceed(NextKey(old(State()), name), EffectiveItemId(old(State()), explicit))
    {
      if finished {
        return AlreadyFinished;
      }
      if pause.Some? {
        return PauseSignalled(pause.value);
      }
      var key := ResolveStepLabel(name);
      var itemId := if explicit.Some? then explicit else runItemId;
      if explicit.Some? && runItemId.None? {
        runItemId := explicit;
      }
      var cached := Lookup(name, key, itemId);
      if cached.Some? {
        return CacheHit(cached.value);
      }
      executedAny := true;
      r := Proceed(key, itemId);
    }

    /** The provenance of a finished execution's input. */
    method InspectStep(x: Execution) returns (root: Option<Root>)
      requires Valid()
      ensures root == RecordedTaint(x.outcome, x.bound, Prior(State()))
    {
      root := None;
      if x.outcome == OutcomeOk {
        var prior := Prior(State());
        if exists f :: f in prior && f.outcome != OutcomeOk {
          root := InspectTaint(x.bound, prior);
        }
      }
    }

    /** Record a finished execution and hand the row to the store. */
    method PostCallSuccess(key: string, itemId: Option<string>, x: Execution, retryCount: nat) returns (e: TaskEntry)
      requires Valid()
      modifies this`cache, this`cacheKeys, this`callOrder, this`attempts, this`written
      ensures Valid()
      ensures e == EntryFor(old(State()), key, itemId, x, retryCount)
      ensures e.key == key && e.itemId == itemId && e.retryCount == retryCount
      ensures e.result == x.result && e.outcome == x.outcome && e.reason == x.reason && e.completedAt == x.completedAt
      ensures State() == Recorded(old(State()), e)
      ensures written == old(written) + [e]
    {
      var root := InspectStep(x);
      var token, attempt := NextExecution(key, x.uuid);
      e := TaskEntry(key, x.result, x.completedAt, itemId, x.outcome, x.reason,
                     if root.Some? then Some(root.value.key) else None,
                     if root.Some? then root.value.reason else None,
                     token, attempt, retryCount, None);
      Remember(e);
    }

    /** Cache an execution and hand its row to the store. */
    method Remember(e: TaskEntry)
      requires Valid()
      modifies this`cache, this`cacheKeys, this`callOrder, this`written
      ensures Valid()
      ensures cache == old(cache)[e.key := e]
      ensures cacheKeys == if e.key in old(cache) then old(cacheKeys) else old(cacheKeys) + [e.key]
      ensures callOrder == old(callOrder) + [e.key] && written == old(written) + [e]
    {
      RecordedIsOrdered(State(), e);
      cacheKeys := if e.key in cache then cacheKeys else cacheKeys + [e.key];
      cache := cache[e.key := e];
      callOrder := callOrder + [e.key];
      written := written + [e];
    }

    /** The retry loop: up to `allowed` tries, waiting between them, until one returns or
        fails in a way that is not worth another. */
    static method Tries(allowed: nat, fn: nat -> Try) returns (last: Try, tried: nat, slept: nat)
      requires allowed >= 1
      ensures 1 <= tried <= allowed && last == fn(tried)
      ensures forall n :: 1 <= n < tried ==> fn(n) == Raises(true)
      ensures last == Raises(true) ==> tried == allowed
      ensures slept == Backoff.StepSleep(tried - 1)
    {
      tried, slept := 0, 0;
      while true
        invariant tried < allowed
        invariant forall n :: 1 <= n <= tried ==> fn(n) == Raises(true)
        invariant slept == Backoff.StepSleep(tried)
        decreases allowed - tried
      {
        tried := tried + 1;
        last := fn(tried);
        match last {
          case Returns(_) => return;
          case Raises(retryable) =>
            if tried >= allowed || !retryable {
              return;
            }
            slept := slept + Backoff.RetryWait(tried);
        }
      }
    }

    /** One durable call. The retry loop goes around the function only, inside one
        lookup: `tried` counts the tries, `slept` the seconds between them. */
    method Call(name: string, explicit: Option<string>, pause: Option<PauseReason>, retries: Option<int>, fn: nat -> Try)
      returns (r: CallResult, tried: nat, slept: nat)
      requires Valid()
      modifies this`occurrences, this`runItemId, this`executedAny, this`cache, this`cacheKeys, this`callOrder, this`attempts, this`written
      ensures Valid()
      // a refused or paused call leaves no trace
      ensures r.Refused? <==> finished
      ensures r.Paused? <==> !finished && pause.Some?
      ensures r.Refused? || r.Paused? ==> State() == old(State()) && written == old(written) && tried == 0
      // a hit consumes an occurrence and nothing else
      ensures r.Answered? <==> !finished && pause.None? && Decide(old(State()), name, explicit).Hit?
      ensures r.Answered? ==>
                && Decide(old(State()), name, explicit) == Hit(r.entry)
                && State() == Called(old(State()), name, explicit) && written == old(written) && tried == 0
      // every try but the last failed retryably, and there are at most 1 + max(0, retries) of them
      ensures tried > 0 ==> r.Executed? || r.Failed?
      ensures r.Executed? || r.Failed? ==> 1 <= tried <= 1 + (if retries.None? then 4 else Backoff.Max(0, retries.value))
      ensures forall n :: 1 <= n < tried ==> fn(n) == Raises(true)
      ensures slept == Backoff.StepSleep(if tried > 0 then tried - 1 else 0)
      // success writes one row, under the key and attempt read before the call
      ensures r.Executed? ==>
                && fn(tried).Returns?
                && r.entry == EntryFor(Called(old(State()), name, explicit), NextKey(old(State()), name),
                                       EffectiveItemId(old(State()), explicit), fn(tried).x, tried - 1)
                && ProviderKey(runId, r.entry.key, r.entry.attempt) == IdempotencyKey(runId, old(State()), name)
                && State() == Recorded(Called(old(State()), name, explicit), r.entry)
                && written == old(written) + [r.entry]
      // the row says what that try brought along, and how many failed before it
      ensures r.Executed? ==>
                && r.entry.result == fn(tried).x.result && r.entry.completedAt == fn(tried).x.completedAt
                && r.entry.outcome == fn(tried).x.outcome && r.entry.reason == fn(tried).x.reason
                && r.entry.retryCount == tried - 1 && r.entry.reusedFrom == None
                && r.entry.itemId == (if explicit.Some? then explicit else old(runItemId))
                && r.entry.token == if r.entry.attempt == 1 then r.entry.key + "|1" else fn(tried).x.uuid
      // failure writes none, and the key of the next pass is the key of this one
      ensures r.Failed? ==>
                && fn(tried).Raises?
                && (fn(tried).retryable ==> tried == 1 + (if retries.None? then 4 else Backoff.Max(0, retries.value)))
                && State() == Called(old(State()), name, explicit)
                && written == old(written)
    {
      tried, slept := 0, 0;
      var pre := PreCall(name, explicit, pause);
      match pre {
        case AlreadyFinished => return Refused, 0, 0;
        case PauseSignalled(reason) => return Paused(reason), 0, 0;
        case CacheHit(entry) => return Answered(entry), 0, 0;
        case Proceed(_, _) =>
      }
      var allowed := 1 + (if retries.None? then Backoff.DEFAULT_STEP_RETRIES else Backoff.Max(0, retries.value));
      var last;
      last, tried, slept := Tries(allowed, fn);
      match last {
        case Returns(x) =>
          var entry := PostCallSuccess(pre.key, pre.itemId, x, tried - 1);
          KeyReadBefore(runId, old(State()), name, explicit, entry, x, tried - 1);
          r := Executed(entry);
        case Raises(_) =>
          r := Failed;
      }
    }

    /** Mark the item completed. Returns false when it was already finished. */
    method Complete() returns (ok: bool)
      requires Valid()
      modifies this`finished, this`statuses
      ensures Valid() && finished
      ensures ok == !old(finished)
      ensures statuses == if ok then old(statuses) + ["completed"] else old(statuses)
    {
      if finished {
        return false;
      }
      finished := true;
      statuses := statuses + ["completed"];
      ok := true;
    }

    /** Mark the item failed; on a finished item this is a no-op. */
    method Fail()
      requires Valid()
      modifies this`finished, this`statuses
      ensures Valid() && finished
      ensures statuses == if old(finished) then old(statuses) else old(statuses) + ["failed"]
    {
      if finished {
        return;
      }
      finished := true;
      statuses := statuses + ["failed"];
    }

    /** The tasks of the final summary: the cached entry of each step in call order. */
    method BuildResult() returns (tasks: seq<TaskEntry>)
      requires Valid()
      ensures |tasks| == |callOrder|
      ensures forall i :: 0 <= i < |tasks| ==> tasks[i] == cache[callOrder[i]]
    {
      tasks := [];
      for i := 0 to |callOrder|
        invariant |tasks| == i
        invariant forall j :: 0 <= j < i ==> tasks[j] == cache[callOrder[j]]
      {
        if callOrder[i] in cache {
          tasks := tasks + [cache[callOrder[i]]];
        }
      }
    }
  }
}
