/** The values and records the durable engine passes around:
    step results, outcome statuses and stored step executions. */
module Types {

  datatype Option<+T> = None | Some(value: T)

  /** A live object. Two expressions denote the same object exactly when their
      addresses agree, which is what the `is` operator of the source compares. */
  datatype Value = Value(addr: nat, shape: Shape)

  /** What the taint inspector can see of an object. */
  datatype Shape =
    | Null
    | Bool(b: bool)
    | Int(n: int)
    | Text(chars: string)
    | Bytes(bytes: seq<bv8>)
    | Tuple(elems: seq<Value>)
    | List(elems: seq<Value>)
    | Dict(values: seq<Value>)
    | Opaque

  /** The status strings the source knows, and any other: one number for each. */
  datatype Outcome = OutcomeOk | OutcomeDegraded | OutcomeFailed | OutcomeOther(code: nat)

  /** Unknown statuses rank with ok. */
  function Severity(o: Outcome): nat {
    match o
    case OutcomeOk => 0
    case OutcomeDegraded => 1
    case OutcomeFailed => 2
    case OutcomeOther(_) => 0
  }

  /** Why a streak paused an item: the reason of its last step, or the bare status. */
  datatype PauseDetail = Because(reason: string) | Status(outcome: Outcome)

  datatype PauseReason = PauseReason(k: int, detail: PauseDetail)

  /** One execution of a step, as stored, under its effective label `key`. `completedAt` is an ordered stamp. */
  datatype TaskEntry = TaskEntry(
    key: string,
    result: Value,
    completedAt: int,
    itemId: Option<string>,
    outcome: Outcome,
    reason: Option<string>,
    taintedBy: Option<string>,
    taintedReason: Option<string>,
    token: string,
    attempt: int,
    retryCount: nat,
    reusedFrom: Option<string>)

  /** What identifies a write: its execution token, or, for a row written
      without one, its key. */
  datatype Identity = ByToken(token: string) | ByKey(key: string)

  function IdentityOf(e: TaskEntry): Identity {
    if e.token != "" then ByToken(e.token) else ByKey(e.key)
  }
}
