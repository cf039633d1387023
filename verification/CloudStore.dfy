/** Delivery under outages: bounded retry, journal on exhaustion, first-in first-out
    drain. Models `_execute` and `_drain_journal` of
    src/papayya/durable/cloud_store.py. */
module CloudStore {
  import opened Types
  import opened Journal
  import Backoff

  const DRAIN_BATCH := 100

  // ---- one drain ----

  /** How many of the requests `t .. t + n` are accepted. */
  function AcceptedCount(replies: nat -> Reply, t: nat, n: nat): (c: nat)
    ensures c <= n
  {
    if n == 0 then 0
    else AcceptedCount(replies, t, n - 1) + (if replies(t + n - 1).Accepted? then 1 else 0)
  }

  predicate StopsAt(entries: seq<JournalEntry>, replies: nat -> Reply, t: nat, i: nat) {
    || i >= |entries|
    || AcceptedCount(replies, t, i) >= DRAIN_BATCH
    || Halts(entries[i].write, replies(t + i))
  }

  /** How many entries a drain that starts at request `t` takes off the journal. */
  function DrainPoint(entries: seq<JournalEntry>, replies: nat -> Reply, t: nat, i: nat): (p: nat)
    requires i <= |entries|
    ensures i <= p <= |entries|
    ensures StopsAt(entries, replies, t, p)
    ensures forall j :: i <= j < p ==> !StopsAt(entries, replies, t, j)
    decreases |entries| - i
  {
    if StopsAt(entries, replies, t, i) then i else DrainPoint(entries, replies, t, i + 1)
  }

  /** The number of requests a drain makes: one for each entry taken, and one for
      the entry it halts at. */
  function DrainRequests(entries: seq<JournalEntry>, replies: nat -> Reply, t: nat): nat {
    var p := DrainPoint(entries, replies, t, 0);
    if p < |entries| && AcceptedCount(replies, t, p) < DRAIN_BATCH then p + 1 else p
  }

  /** What the control plane applies when entry `j` is sent as request `t + j`, for
      `j` below `n`. */
  function Landed(entries: seq<JournalEntry>, replies: nat -> Reply, t: nat, n: nat): seq<Wire>
    requires n <= |entries|
  {
    if n == 0 then []
    else Landed(entries, replies, t, n - 1) + (if Lands(replies(t + n - 1)) then [PayloadForReplay(entries[n - 1])] else [])
  }

  /** The entries a drain gives up on: a terminal error that is not a schema rejection. */
  function GivenUp(entries: seq<JournalEntry>, replies: nat -> Reply, t: nat, n: nat): seq<Write>
    requires n <= |entries|
  {
    if n == 0 then []
    else GivenUp(entries, replies, t, n - 1) + (if replies(t + n - 1).Accepted? then [] else [entries[n - 1].write])
  }

  // ---- one write ----

  predicate FailsAt(replies: nat -> Reply, at: nat) {
    Transient(replies(at))
  }

  /** The first request from `at` on that is not a transient failure; `limit` when
      all before it are. */
  function FirstSettled(replies: nat -> Reply, at: nat, limit: nat): (n: nat)
    requires at <= limit
    ensures at <= n <= limit
    ensures forall j :: at <= j < n ==> FailsAt(replies, j)
    ensures n < limit ==> !FailsAt(replies, n)
    decreases limit - at
  {
    if at == limit || !FailsAt(replies, at) then at else FirstSettled(replies, at + 1, limit)
  }

  /** How many of a write's attempts, the first being request `t`, fail transiently
      before one settles it; the limit when none does. */
  function Tries(replies: nat -> Reply, t: nat): (n: nat)
    ensures n <= Backoff.MAX_ATTEMPTS
  {
    FirstSettled(replies, t, t + Backoff.MAX_ATTEMPTS) - t
  }

  /** The copies of a write the control plane applies over its first `n` attempts. */
  function Copies(write: Write, replies: nat -> Reply, t: nat, n: nat): seq<Wire> {
    if n == 0 then []
    else Copies(write, replies, t, n - 1) + (if Lands(replies(t + n - 1)) then [Direct(write)] else [])
  }

  datatype Outcome = Delivered | Journaled | Raised(exc: Exc)

  function OutcomeAt(replies: nat -> Reply, t: nat): Outcome {
    var n := Tries(replies, t);
    if n == Backoff.MAX_ATTEMPTS then Journaled
    else
      match replies(t + n)
      case Accepted => Delivered
      case Refused(exc, _) => Raised(exc)
  }

  function Attempts(replies: nat -> Reply, t: nat): nat {
    var n := Tries(replies, t);
    if n == Backoff.MAX_ATTEMPTS then n else n + 1
  }

  // ---- the store ----

  /** Everything a write can end up in: the control plane's log, the journal, or one
      of the two ways of being refused for good. `appended` is every entry that was
      ever journaled, `taken` how many of them drains have removed. */
  datatype CloudState = CloudState(
    journal: seq<JournalEntry>,
    log: seq<Wire>,
    lost: seq<Write>,
    rejected: seq<Write>,
    appended: seq<JournalEntry>,
    taken: nat,
    clock: nat)

  function AfterDrain(s: CloudState, replies: nat -> Reply): CloudState {
    var p, m := DrainPoint(s.journal, replies, s.clock, 0), DrainRequests(s.journal, replies, s.clock);
    s.(journal := s.journal[p..],
       log := s.log + Landed(s.journal, replies, s.clock, m),
       lost := s.lost + GivenUp(s.journal, replies, s.clock, p),
       taken := s.taken + p,
       clock := s.clock + m)
  }

  function AfterAttempts(s: CloudState, replies: nat -> Reply, write: Write, now: int): CloudState {
    var n, t := Attempts(replies, s.clock), s.clock;
    var sent := s.(log := s.log + Copies(write, replies, t, n), clock := t + n);
    match OutcomeAt(replies, t)
    case Delivered => sent
    case Journaled =>
      var entry := JournalEntry(write, Backoff.MAX_ATTEMPTS, now);
      sent.(journal := s.journal + [entry], appended := s.appended + [entry])
    case Raised(_) => sent.(rejected := s.rejected + [write])
  }

  /** Drain first, then send. */
  function AfterExecute(s: CloudState, replies: nat -> Reply, write: Write, now: int): CloudState {
    AfterAttempts(AfterDrain(s, replies), replies, write, now)
  }

  /** Where the retry loop stands before attempt `attempt`: every attempt so far has
      failed transiently. */
  ghost predicate Trying(replies: nat -> Reply, t: nat, write: Write, attempt: nat, clock: nat, sent: seq<Wire>, backoff: nat, slept: nat) {
    && 1 <= attempt <= Backoff.MAX_ATTEMPTS + 1 && attempt - 1 <= Tries(replies, t)
    && clock == t + attempt - 1 && sent == Copies(write, replies, t, attempt - 1)
    && (attempt <= Backoff.MAX_ATTEMPTS ==> backoff == Backoff.BackoffAt(attempt - 1))
    && slept == Backoff.StoreSleep(Backoff.Min(attempt - 1, Backoff.MAX_ATTEMPTS - 1))
  }

  lemma FailedTry(replies: nat -> Reply, t: nat, write: Write, attempt: nat, sent: seq<Wire>, backoff: nat, slept: nat)
    requires 1 <= attempt <= Backoff.MAX_ATTEMPTS && Trying(replies, t, write, attempt, t + attempt - 1, sent, backoff, slept)
    requires Transient(replies(t + attempt - 1))
    ensures var last := attempt == Backoff.MAX_ATTEMPTS;
            Trying(replies, t, write, attempt + 1, t + attempt,
                   sent + (if Lands(replies(t + attempt - 1)) then [Direct(write)] else []),
                   if last then backoff else Backoff.NextBackoff(backoff),
                   if last then slept else slept + backoff)
  {
    assert FailsAt(replies, t + attempt - 1);
  }

  lemma SettledTry(replies: nat -> Reply, t: nat, write: Write, attempt: nat, sent: seq<Wire>, backoff: nat, slept: nat)
    requires 1 <= attempt <= Backoff.MAX_ATTEMPTS && Trying(replies, t, write, attempt, t + attempt - 1, sent, backoff, slept)
    requires !Transient(replies(t + attempt - 1))
    ensures Tries(replies, t) == attempt - 1 && Attempts(replies, t) == attempt
    ensures Copies(write, replies, t, attempt) ==
            sent + (if Lands(replies(t + attempt - 1)) then [Direct(write)] else [])
  {
    assert !FailsAt(replies, t + attempt - 1);
  }

  /** Where a drain of `entries` that began at request `t` stands before entry `i`. */
  ghost predicate Draining(entries: seq<JournalEntry>, replies: nat -> Reply, t: nat, i: nat, halt: bool, drained: nat,
                           remaining: seq<JournalEntry>, clock: nat, sent: seq<Wire>)
  {
    var p := DrainPoint(entries, replies, t, 0);
    && i <= |entries|
    && (!halt && i <= p ==>
          && remaining == [] && drained == AcceptedCount(replies, t, i)
          && clock == t + i && sent == Landed(entries, replies, t, i))
    && (halt || i > p ==>
          && p < i && remaining == entries[p..i] && (halt || drained >= DRAIN_BATCH)
          && clock == t + DrainRequests(entries, replies, t)
          && sent == Landed(entries, replies, t, DrainRequests(entries, replies, t)))
  }

  /** An entry after the drain has stopped is kept. */
  lemma EntryKept(entries: seq<JournalEntry>, replies: nat -> Reply, t: nat, i: nat, halt: bool, drained: nat,
                  remaining: seq<JournalEntry>, clock: nat, sent: seq<Wire>)
    requires i < |entries| && Draining(entries, replies, t, i, halt, drained, remaining, clock, sent)
    requires halt || drained >= DRAIN_BATCH
    ensures Draining(entries, replies, t, i + 1, halt, drained, remaining + [entries[i]], clock, sent)
  {
    var p := DrainPoint(entries, replies, t, 0);
    if !halt && i <= p {
      assert StopsAt(entries, replies, t, i);
      assert i == p;
    }
    assert entries[p..i] + [entries[i]] == entries[p..i + 1];
  }

  lemma SentAt(entries: seq<JournalEntry>, replies: nat -> Reply, t: nat, i: nat, drained: nat,
               remaining: seq<JournalEntry>, clock: nat, sent: seq<Wire>)
    requires i < |entries| && Draining(entries, replies, t, i, false, drained, remaining, clock, sent)
    requires drained < DRAIN_BATCH
    ensures clock == t + i && remaining == [] && i <= DrainPoint(entries, replies, t, 0)
    ensures i == DrainPoint(entries, replies, t, 0) <==> Halts(entries[i].write, replies(t + i))
  {
    assert StopsAt(entries, replies, t, i) <==> i == DrainPoint(entries, replies, t, 0);
  }

  /** What the control plane has applied once entry `i` was sent. */
  function SentMore(entries: seq<JournalEntry>, i: nat, reply: Reply, sent: seq<Wire>): seq<Wire>
    requires i < |entries|
  {
    if Lands(reply) then sent + [PayloadForReplay(entries[i])] else sent
  }

  /** An entry whose reply does not halt the drain is taken. */
  lemma EntryTaken(entries: seq<JournalEntry>, replies: nat -> Reply, t: nat, i: nat, drained: nat, clock: nat, sent: seq<Wire>)
    requires i < |entries| && Draining(entries, replies, t, i, false, drained, [], clock, sent)
    requires drained < DRAIN_BATCH && !Halts(entries[i].write, replies(t + i))
    ensures Draining(entries, replies, t, i + 1, false, if replies(t + i).Accepted? then drained + 1 else drained, [],
                     clock + 1, SentMore(entries, i, replies(t + i), sent))
  {
    SentAt(entries, replies, t, i, drained, [], clock, sent);
  }

  /** An entry whose reply halts the drain is kept. */
  lemma EntryHalts(entries: seq<JournalEntry>, replies: nat -> Reply, t: nat, i: nat, drained: nat, clock: nat, sent: seq<Wire>)
    requires i < |entries| && Draining(entries, replies, t, i, false, drained, [], clock, sent)
    requires drained < DRAIN_BATCH && Halts(entries[i].write, replies(t + i))
    ensures Draining(entries, replies, t, i + 1, true, drained, [entries[i]], clock + 1, SentMore(entries, i, replies(t + i), sent))
  {
    SentAt(entries, replies, t, i, drained, [], clock, sent);
    assert entries[i..i + 1] == [entries[i]];
  }

  /** The local variables of the drain loop, the clock, and what has been applied. */
  datatype DrainState = DrainState(halt: bool, drained: nat, remaining: seq<JournalEntry>, clock: nat, sent: seq<Wire>)

  /** One round of the loop. */
  function DrainOne(s: DrainState, entry: JournalEntry, replies: nat -> Reply): DrainState {
    if s.halt || s.drained >= DRAIN_BATCH then s.(remaining := s.remaining + [entry])
    else
      var reply := replies(s.clock);
      var s' := s.(clock := s.clock + 1, sent := if Lands(reply) then s.sent + [PayloadForReplay(entry)] else s.sent);
      if reply.Accepted? then s'.(drained := s.drained + 1)
      else if Halts(entry.write, reply) then s'.(halt := true, remaining := s.remaining + [entry])
      else s'
  }

  function DrainAt(entries: seq<JournalEntry>, replies: nat -> Reply, t: nat, i: nat): DrainState
    requires i <= |entries|
  {
    if i == 0 then DrainState(false, 0, [], t, []) else DrainOne(DrainAt(entries, replies, t, i - 1), entries[i - 1], replies)
  }

  lemma DrainOneKeeps(entries: seq<JournalEntry>, replies: nat -> Reply, t: nat, i: nat, s: DrainState)
    requires i < |entries| && Draining(entries, replies, t, i, s.halt, s.drained, s.remaining, s.clock, s.sent)
    ensures var s' := DrainOne(s, entries[i], replies);
            Draining(entries, replies, t, i + 1, s'.halt, s'.drained, s'.remaining, s'.clock, s'.sent)
  {
    if s.halt || s.drained >= DRAIN_BATCH {
      EntryKept(entries, replies, t, i, s.halt, s.drained, s.remaining, s.clock, s.sent);
    } else {
      SentAt(entries, replies, t, i, s.drained, s.remaining, s.clock, s.sent);
      if Halts(entries[i].write, replies(t + i)) {
        EntryHalts(entries, replies, t, i, s.drained, s.clock, s.sent);
      } else {
        EntryTaken(entries, replies, t, i, s.drained, s.clock, s.sent);
      }
    }
  }

  lemma {:induction false} DrainAtMeaning(entries: seq<JournalEntry>, replies: nat -> Reply, t: nat, i: nat)
    requires i <= |entries|
    ensures var s := DrainAt(entries, replies, t, i);
            Draining(entries, replies, t, i, s.halt, s.drained, s.remaining, s.clock, s.sent)
  {
    if i == 0 {
    } else {
      DrainAtMeaning(entries, replies, t, i - 1);
      DrainOneKeeps(entries, replies, t, i - 1, DrainAt(entries, replies, t, i - 1));
    }
  }

  /** Where the loop ends. */
  lemma DrainEnds(entries: seq<JournalEntry>, replies: nat -> Reply, t: nat)
    ensures var s := DrainAt(entries, replies, t, |entries|);
            && s.remaining == entries[DrainPoint(entries, replies, t, 0)..]
            && s.clock == t + DrainRequests(entries, replies, t)
            && s.sent == Landed(entries, replies, t, DrainRequests(entries, replies, t))
  {
    DrainAtMeaning(entries, replies, t, |entries|);
  }

  class CloudStore {
    const journal: LineageJournal
    const server: ControlPlane
    ghost var lost: seq<Write>
    ghost var rejected: seq<Write>
    ghost var appended: seq<JournalEntry>
    ghost var taken: nat

    constructor (journal: LineageJournal, server: ControlPlane)
      ensures this.journal == journal && this.server == server
      ensures lost == [] && rejected == [] && appended == journal.entries && taken == 0
    {
      this.journal := journal;
      this.server := server;
      lost, rejected, appended, taken := [], [], journal.entries, 0;
    }

    ghost function State(): CloudState
      reads this, journal, server
    {
      CloudState(journal.entries, server.log, lost, rejected, appended, taken, server.clock)
    }

    method DrainJournal()
      modifies this, journal, server
      ensures State() == AfterDrain(old(State()), server.replies)
    {
      ghost var replies, t, log0 := server.replies, server.clock, server.log;
      if journal.IsEmpty() {
        return;
      }
      var entries := journal.entries;
      var remaining: seq<JournalEntry> := [];
      var drained: nat := 0;
      var halt := false;
      ghost var sent: seq<Wire> := [];
      for i := 0 to |entries|
        invariant lost == old(lost) && rejected == old(rejected) && appended == old(appended) && taken == old(taken)
        invariant journal.entries == entries && server.log == log0 + sent
        invariant DrainState(halt, drained, remaining, server.clock, sent) == DrainAt(entries, replies, t, i)
      {
        if halt || drained >= DRAIN_BATCH {
          remaining := remaining + [entries[i]];
        } else {
          var reply := server.Dispatch(PayloadForReplay(entries[i]));
          sent := if Lands(reply) then sent + [PayloadForReplay(entries[i])] else sent;
          match reply {
            case Accepted =>
              drained := drained + 1;
            case Refused(exc, _) =>
              if IsTransient(exc) || IsSchemaRejection(entries[i].write, exc) {
                halt := true;
                remaining := remaining + [entries[i]];
              }
          }
        }
      }
      DrainEnds(entries, replies, t);
      journal.Rewrite(remaining);
      lost := lost + GivenUp(entries, replies, t, DrainPoint(entries, replies, t, 0));
      taken := taken + DrainPoint(entries, replies, t, 0);
    }

    /** Returns the exception of a terminal refusal; a write that exhausts its
        attempts is journaled and counts as done. `slept` is in tenths of a second. */
    method Execute(write: Write, now: int) returns (r: Outcome, slept: nat)
      modifies this, journal, server
      ensures State() == AfterExecute(old(State()), server.replies, write, now)
      ensures r == OutcomeAt(server.replies, AfterDrain(old(State()), server.replies).clock)
      ensures slept == Backoff.StoreSleep(Backoff.Min(Tries(server.replies, AfterDrain(old(State()), server.replies).clock), Backoff.MAX_ATTEMPTS - 1))
    {
      DrainJournal();
      r, slept := Attempt(write, now);
    }

    method Attempt(write: Write, now: int) returns (r: Outcome, slept: nat)
      modifies this, journal, server
      ensures State() == AfterAttempts(old(State()), server.replies, write, now)
      ensures r == OutcomeAt(server.replies, old(server.clock))
      ensures slept == Backoff.StoreSleep(Backoff.Min(Tries(server.replies, old(server.clock)), Backoff.MAX_ATTEMPTS - 1))
    {
      var done;
      done, r, slept := Send(write);
      if done {
        if r.Raised? {
          rejected := rejected + [write];
        }
      } else {
        var entry := JournalEntry(write, Backoff.MAX_ATTEMPTS, now);
        journal.Append(entry);
        appended := appended + [entry];
      }
    }

    /** The attempts themselves; `done` when one of them settled the matter. */
    method Send(write: Write) returns (done: bool, r: Outcome, slept: nat)
      modifies server
      ensures server.clock == old(server.clock) + Attempts(server.replies, old(server.clock))
      ensures server.log == old(server.log) + Copies(write, server.replies, old(server.clock), Attempts(server.replies, old(server.clock)))
      ensures r == OutcomeAt(server.replies, old(server.clock)) && (done <==> !r.Journaled?)
      ensures slept == Backoff.StoreSleep(Backoff.Min(Tries(server.replies, old(server.clock)), Backoff.MAX_ATTEMPTS - 1))
    {
      ghost var replies, t, log0 := server.replies, server.clock, server.log;
      ghost var sent: seq<Wire> := [];
      var backoff: nat := Backoff.INITIAL_BACKOFF_TENTHS;
      slept := 0;
      for attempt := 1 to Backoff.MAX_ATTEMPTS + 1
        invariant server.log == log0 + sent
        invariant Trying(replies, t, write, attempt, server.clock, sent, backoff, slept)
      {
        ghost var sent0, backoff0, slept0 := sent, backoff, slept;
        var reply := server.Dispatch(Direct(write));
        sent := sent + (if Lands(reply) then [Direct(write)] else []);
        if !Transient(reply) {
          SettledTry(replies, t, write, attempt, sent0, backoff0, slept0);
        }
        match reply {
          case Accepted =>
            return true, Delivered, slept;
          case Refused(exc, _) =>
            if !IsTransient(exc) {
              return true, Raised(exc), slept;
            }
            if attempt < Backoff.MAX_ATTEMPTS {
              slept := slept + backoff;
              backoff := Backoff.NextBackoff(backoff);
            }
        }
        FailedTry(replies, t, write, attempt, sent0, backoff0, slept0);
      }
      done, r := false, Journaled;
    }
  }
}
