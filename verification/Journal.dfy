/** Ledger writes on their way to the control plane, and the sidecar that keeps the
    ones that could not be delivered. Models src/papayya/durable/lineage_journal.py
    and the wire side of src/papayya/durable/cloud_store.py. */
module Journal {
  import opened Types

  datatype Payload = CreateItem | SaveTask(e: TaskEntry) | SetStatus(status: string)

  datatype Write = Write(runId: string, payload: Payload)

  datatype JournalEntry = JournalEntry(write: Write, attempts: nat, journaledAt: int)

  /** The persisted sequence of undelivered writes, oldest first. */
  class LineageJournal {
    var entries: seq<JournalEntry>

    constructor ()
      ensures entries == []
    {
      entries := [];
    }

    predicate IsEmpty()
      reads this
    {
      entries == []
    }

    method Append(entry: JournalEntry)
      modifies this
      ensures entries == old(entries) + [entry]
    {
      entries := entries + [entry];
    }

    method Rewrite(remaining: seq<JournalEntry>)
      modifies this
      ensures entries == remaining
    {
      entries := remaining;
    }
  }

  datatype Exc = ConnectionError | HttpStatus(code: int) | OtherError

  /** Worth retrying: connection trouble, 5xx and 429. */
  predicate IsTransient(exc: Exc) {
    match exc
    case ConnectionError => true
    case HttpStatus(code) => code >= 500 || code == 429
    case OtherError => false
  }

  /** A 400 on a checkpoint write: the server is older than the client. */
  predicate IsSchemaRejection(write: Write, exc: Exc) {
    write.payload.SaveTask? && exc == HttpStatus(400)
  }

  /** What comes back for one request. A refused request may still have been
      applied: the answer can be lost after the server has acted. */
  datatype Reply = Accepted | Refused(exc: Exc, applied: bool)

  predicate Lands(r: Reply) {
    r.Accepted? || r.applied
  }

  predicate Transient(r: Reply) {
    r.Refused? && IsTransient(r.exc)
  }

  /** A drain stops at this entry and keeps it. */
  predicate Halts(write: Write, r: Reply) {
    r.Refused? && (IsTransient(r.exc) || IsSchemaRejection(write, r.exc))
  }

  /** A request body: a write, with the late-delivery audit when it is a task that
      comes out of the journal. */
  datatype Wire = Wire(write: Write, audit: Option<(nat, int)>)

  function Direct(write: Write): Wire {
    Wire(write, None)
  }

  function PayloadForReplay(entry: JournalEntry): Wire {
    if entry.write.payload.SaveTask? then Wire(entry.write, Some((entry.attempts + 1, entry.journaledAt)))
    else Wire(entry.write, None)
  }

  /** The control plane: an arbitrary sequence of replies, and the log of what it
      applied. */
  class ControlPlane {
    const replies: nat -> Reply
    var clock: nat
    var log: seq<Wire>

    constructor (replies: nat -> Reply)
      ensures this.replies == replies && clock == 0 && log == []
    {
      this.replies := replies;
      clock, log := 0, [];
    }

    method Dispatch(w: Wire) returns (r: Reply)
      modifies this
      ensures r == replies(old(clock)) && clock == old(clock) + 1
      ensures log == if Lands(r) then old(log) + [w] else old(log)
    {
      r := replies(clock);
      clock := clock + 1;
      if Lands(r) {
        log := log + [w];
      }
    }
  }
}
