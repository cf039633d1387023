/** Every history of the local ledger: sequences of its operations, as the callers
    of src/papayya/durable/sqlite_store.py issue them. */
module StoreRuns {
  import opened Types
  import opened Ledger
  import opened SqliteSpec

  datatype Op =
    | OpCreate(id: string, invocation: Option<string>, customerId: Option<string>)
    | OpSave(id: string, e: TaskEntry)
    | OpStatus(id: string, status: ItemStatus, now: int)
    | OpCreateRun(r: string, total: int)
    | OpFinalize(r: string, now: int)
    | OpDispose(id: string, d: Disposition, from: Option<string>, now: int)
    | OpLink(id: string, source: string)
    | OpSetFence(id: string, k: int)
    | OpClearPause(id: string)
    | OpRestart  // pauses and fences live in memory

  function Apply(db: Db, op: Op): Db {
    match op
    case OpCreate(id, invocation, customerId) => AfterCreate(db, id, invocation, ItemRunning, customerId)
    case OpSave(id, e) => AfterSave(db, id, e)
    case OpStatus(id, status, now) => AfterSetStatus(db, id, status, now)
    case OpCreateRun(r, total) => AfterCreateRun(db, r, total)
    case OpFinalize(r, now) => AfterFinalize(db, r, now)
    case OpDispose(id, d, from, now) => AfterDispose(db, id, d, from, now)
    case OpLink(id, source) => AfterLink(db, id, source)
    case OpSetFence(id, k) => AfterSetFence(db, id, k)
    case OpClearPause(id) => AfterClearPause(db, id)
    case OpRestart => db.(pending := map[], fences := map[])
  }

  /** What the callers keep to: an item is created before anything is written to it
      and after the run it names; its terminal status is written once. */
  predicate Allowed(db: Db, op: Op) {
    match op
    case OpCreate(_, invocation, _) => invocation.Some? ==> invocation.value in db.runs
    case OpSave(id, _) => id in db.items
    case OpStatus(id, _, _) => id in db.items && !Terminal(db.items[id].status)
    case _ => true
  }

  /** `ops` lead from `db` to `last`. */
  ghost predicate History(db: Db, ops: seq<Op>, last: Db)
    decreases |ops|
  {
    if ops == [] then last == db
    else Allowed(db, ops[0]) && History(Apply(db, ops[0]), ops[1..], last)
  }

  function Fresh(envFence: Option<int>): Db {
    Db([], map[], map[], map[], map[], envFence, true)
  }
}
