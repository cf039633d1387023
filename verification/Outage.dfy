/** What no outage can change: writes are conserved, the journal is a queue, and any
    way of delivering the same writes leaves the same rows.
    About src/papayya/durable/cloud_store.py and lineage_journal.py. */
module Outage {
  import opened Types
  import opened Latest
  import opened Ledger
  import opened Journal
  import opened CloudStore
  import Backoff

  /** A write; a process that dies in a drain after some requests, before the journal is
      rewritten; or one that dies among the attempts of a write after some of them, before
      it is journaled. */
  datatype StoreEvent = Execute(write: Write, now: int) | DiesInDrain(requests: nat) | DiesInSend(write: Write, requests: nat)

  function Requests(s: CloudState, replies: nat -> Reply, requests: nat): (m: nat)
    ensures m <= |s.journal|
  {
    Backoff.Min(requests, DrainRequests(s.journal, replies, s.clock))
  }

  /** What lands of a write whose process dies after `requests` of its attempts. */
  function SentBefore(s: CloudState, replies: nat -> Reply, write: Write, requests: nat): seq<Wire> {
    var t := AfterDrain(s, replies).clock;
    Copies(write, replies, t, Backoff.Min(requests, Attempts(replies, t)))
  }

  function After(s: CloudState, replies: nat -> Reply, ev: StoreEvent): CloudState {
    match ev
    case Execute(write, now) => AfterExecute(s, replies, write, now)
    case DiesInDrain(requests) =>
      var m := Requests(s, replies, requests);
      s.(log := s.log + Landed(s.journal, replies, s.clock, m), clock := s.clock + m)
    case DiesInSend(write, requests) =>
      var d := AfterDrain(s, replies);
      d.(log := d.log + SentBefore(s, replies, write, requests), clock := d.clock + Backoff.Min(requests, Attempts(replies, d.clock)))
  }

  function Start(): CloudState {
    CloudState([], [], [], [], [], 0, 0)
  }

  function Run(replies: nat -> Reply, events: seq<StoreEvent>): CloudState {
    if events == [] then Start()
    else After(Run(replies, events[..|events| - 1]), replies, events[|events| - 1])
  }

  /** The event leaves its write somewhere: it was executed to the end, or some attempt
      landed before the process died. */
  predicate Survives(s: CloudState, replies: nat -> Reply, ev: StoreEvent) {
    ev.Execute? || (ev.DiesInSend? && SentBefore(s, replies, ev.write, ev.requests) != [])
  }

  /** The writes that survived. */
  function Kept(replies: nat -> Reply, events: seq<StoreEvent>): set<Write> {
    if events == [] then {}
    else
      var init, ev := events[..|events| - 1], events[|events| - 1];
      Kept(replies, init) + (if Survives(Run(replies, init), replies, ev) then {ev.write} else {})
  }

  // ---- one drain ----

  lemma {:induction false} LandedMeaning(entries: seq<JournalEntry>, replies: nat -> Reply, t: nat, n: nat)
    requires n <= |entries|
    ensures forall w :: w in Landed(entries, replies, t, n) <==>
              exists j :: 0 <= j < n && Lands(replies(t + j)) && w == PayloadForReplay(entries[j])
  {
    if n == 0 {
    } else {
      LandedMeaning(entries, replies, t, n - 1);
    }
  }

  lemma {:induction false} GivenUpMeaning(entries: seq<JournalEntry>, replies: nat -> Reply, t: nat, n: nat)
    requires n <= |entries|
    ensures forall w :: w in GivenUp(entries, replies, t, n) <==>
              exists j :: 0 <= j < n && !replies(t + j).Accepted? && w == entries[j].write
  {
    if n == 0 {
    } else {
      GivenUpMeaning(entries, replies, t, n - 1);
    }
  }

  /** Worth another attempt: connection trouble, 429, or 500 and above. */
  predicate TryAgain(r: Reply) {
    r.Refused? && (r.exc == ConnectionError || (r.exc.HttpStatus? && (r.exc.code == 429 || r.exc.code >= 500)))
  }

  /** What a journaled write is sent as: a task with its sixth attempt and the moment it was
      journaled, anything else as it is. */
  function Late(entry: JournalEntry): Wire {
    Wire(entry.write, if entry.write.payload.SaveTask? then Some((entry.attempts + 1, entry.journaledAt)) else None)
  }

  /** Which of the `n` requests from `t` on are accepted, and which are applied. */
  function Accepts(replies: nat -> Reply, t: nat, n: nat): set<nat> {
    set j: nat | t <= j < t + n && replies(j) == Accepted
  }

  function Applies(replies: nat -> Reply, t: nat, n: nat): set<nat> {
    set j: nat | t <= j < t + n && (replies(j) == Accepted || replies(j).applied)
  }

  /** They are all worth another attempt. */
  ghost predicate AllFail(replies: nat -> Reply, t: nat, n: nat) {
    forall j :: t <= j < t + n ==> TryAgain(replies(j))
  }

  lemma {:induction false} AcceptedCountMeaning(replies: nat -> Reply, t: nat, n: nat)
    ensures AcceptedCount(replies, t, n) == |Accepts(replies, t, n)|
  {
    if n == 0 {
    } else {
      AcceptedCountMeaning(replies, t, n - 1);
      if replies(t + n - 1).Accepted? {
        assert Accepts(replies, t, n) == Accepts(replies, t, n - 1) + {t + n - 1};
      } else {
        assert Accepts(replies, t, n) == Accepts(replies, t, n - 1);
      }
    }
  }

  /** The server cannot take the entry now, or says it does not know a task's shape. */
  predicate CannotTake(write: Write, r: Reply) {
    TryAgain(r) || (r.Refused? && write.payload.SaveTask? && r.exc == HttpStatus(400))
  }

  /** What a drain does that takes the first `p` entries off the journal. */
  ghost predicate TakesPrefix(s: CloudState, s': CloudState, replies: nat -> Reply, p: nat) {
    && p <= |s.journal| && s'.journal == s.journal[p..] && s'.rejected == s.rejected
    && s'.clock == s.clock + (if p < |s.journal| && |Accepts(replies, s.clock, p)| < 100 then p + 1 else p)
    && |Accepts(replies, s.clock, p)| <= 100
    && (forall j :: 0 <= j < p ==>
          && !CannotTake(s.journal[j].write, replies(s.clock + j))
          && if replies(s.clock + j) == Accepted then Late(s.journal[j]) in s'.log else s.journal[j].write in s'.lost)
    && (p < |s.journal| ==> |Accepts(replies, s.clock, p)| == 100 || CannotTake(s.journal[p].write, replies(s.clock + p)))
  }

  /** A drain removes a prefix, oldest first; it delivers at most 100; an entry it removes
      was applied, or refused for good with something other than a 400 on a task; and it
      stops early only after 100 or at an entry the server cannot take now. */
  lemma DrainRemovesASettledPrefix(s: CloudState, replies: nat -> Reply)
    ensures exists p :: TakesPrefix(s, AfterDrain(s, replies), replies, p)
  {
    var entries, t := s.journal, s.clock;
    var p, m := DrainPoint(entries, replies, t, 0), DrainRequests(entries, replies, t);
    LandedMeaning(entries, replies, t, m);
    GivenUpMeaning(entries, replies, t, p);
    BatchNotExceeded(entries, replies, t, p);
    AcceptedCountMeaning(replies, t, p);
    forall j | 0 <= j < p
      ensures !Halts(entries[j].write, replies(t + j))
    {
      assert !StopsAt(entries, replies, t, j);
    }
    assert TakesPrefix(s, AfterDrain(s, replies), replies, p);
  }

  lemma {:induction false} CopiesAreDirect(write: Write, replies: nat -> Reply, t: nat, n: nat)
    ensures forall x :: x in Copies(write, replies, t, n) ==> x == Wire(write, None)
  {
    if n == 0 {
    } else {
      CopiesAreDirect(write, replies, t, n - 1);
    }
  }

  lemma OneMoreApplies(replies: nat -> Reply, t: nat, n: nat)
    ensures |Applies(replies, t, n + 1)| == |Applies(replies, t, n)| + (if Lands(replies(t + n)) then 1 else 0)
  {
    if Lands(replies(t + n)) {
      assert Applies(replies, t, n + 1) == Applies(replies, t, n) + {t + n};
    } else {
      assert Applies(replies, t, n + 1) == Applies(replies, t, n);
    }
  }

  lemma {:induction false} CopiesCount(write: Write, replies: nat -> Reply, t: nat, n: nat)
    ensures |Copies(write, replies, t, n)| == |Applies(replies, t, n)|
  {
    if n == 0 {
    } else {
      CopiesCount(write, replies, t, n - 1);
      OneMoreApplies(replies, t, n - 1);
    }
  }

  lemma TriesMeaning(replies: nat -> Reply, t: nat, n: nat)
    requires n <= 5 && AllFail(replies, t, n) && (n < 5 ==> !TryAgain(replies(t + n)))
    ensures Tries(replies, t) == n
  {
    forall j: nat
      ensures FailsAt(replies, j) <==> TryAgain(replies(j))
    {
    }
    assert FirstSettled(replies, t, t + 5) == t + n;
  }

  /** What one write comes to: five attempts that are worth another journal it; otherwise the
      first that is not settles it, applied or refused for good. What lands are plain copies. */
  lemma WhatAWriteComesTo(s: CloudState, replies: nat -> Reply, write: Write, now: int, n: nat)
    requires n <= 5 && AllFail(replies, s.clock, n) && (n < 5 ==> !TryAgain(replies(s.clock + n)))
    ensures var s' := AfterAttempts(s, replies, write, now);
            var attempts := if n == 5 then 5 else n + 1;
            && OutcomeAt(replies, s.clock) == (if n == 5 then Journaled
                                               else if replies(s.clock + n) == Accepted then Delivered
                                               else Raised(replies(s.clock + n).exc))
            && s'.clock == s.clock + attempts
            && s'.journal == s.journal + (if n == 5 then [JournalEntry(write, 5, now)] else [])
            && s'.rejected == s.rejected + (if n < 5 && replies(s.clock + n) != Accepted then [write] else [])
            && s.log <= s'.log && (forall i :: |s.log| <= i < |s'.log| ==> s'.log[i] == Wire(write, None))
            && |s'.log| == |s.log| + |Applies(replies, s.clock, attempts)|
  {
    TriesMeaning(replies, s.clock, n);
    CopiesAreDirect(write, replies, s.clock, Attempts(replies, s.clock));
    CopiesCount(write, replies, s.clock, Attempts(replies, s.clock));
    var copies := Copies(write, replies, s.clock, Attempts(replies, s.clock));
    assert forall i :: 0 <= i < |copies| ==> copies[i] in copies;
  }

  lemma BatchNotExceeded(entries: seq<JournalEntry>, replies: nat -> Reply, t: nat, p: nat)
    requires p <= |entries| && forall j :: 0 <= j < p ==> !StopsAt(entries, replies, t, j)
    ensures AcceptedCount(replies, t, p) <= DRAIN_BATCH
  {
    if p > 0 {
      assert !StopsAt(entries, replies, t, p - 1);
    }
  }

  /** The control plane answers every request from `t` on. */
  ghost predicate Healthy(replies: nat -> Reply, t: nat) {
    forall i :: i >= t ==> replies(i).Accepted?
  }

  lemma {:induction false} HealthyCount(replies: nat -> Reply, t: nat, n: nat)
    requires Healthy(replies, t)
    ensures AcceptedCount(replies, t, n) == n
  {
    if n == 0 {
    } else {
      HealthyCount(replies, t, n - 1);
    }
  }

  function LateCopies(entries: seq<JournalEntry>): seq<Wire> {
    seq(|entries|, i requires 0 <= i < |entries| => Late(entries[i]))
  }

  lemma {:induction false} HealthyLands(entries: seq<JournalEntry>, replies: nat -> Reply, t: nat, n: nat)
    requires n <= |entries| && Healthy(replies, t)
    ensures Landed(entries, replies, t, n) == LateCopies(entries[..n])
  {
    if n == 0 {
    } else {
      HealthyLands(entries, replies, t, n - 1);
      assert entries[..n][..n - 1] == entries[..n - 1];
      assert LateCopies(entries[..n]) == LateCopies(entries[..n - 1]) + [Late(entries[n - 1])];
    }
  }

  /** A write under a healthy control plane: first come the oldest journaled ones, up to 100
      and in order, then the write itself. */
  lemma HealthyWrite(s: CloudState, replies: nat -> Reply, write: Write, now: int)
    requires Healthy(replies, s.clock)
    ensures var s', n := AfterExecute(s, replies, write, now), Backoff.Min(100, |s.journal|);
            s'.log == s.log + LateCopies(s.journal[..n]) + [Wire(write, None)] && s'.journal == s.journal[n..]
  {
    var p, m, d := DrainPoint(s.journal, replies, s.clock, 0), DrainRequests(s.journal, replies, s.clock), AfterDrain(s, replies);
    HealthyDrain(s, replies);
    HealthyCount(replies, s.clock, p);
    HealthyLands(s.journal, replies, s.clock, m);
    TriesMeaning(replies, d.clock, 0);
    assert Copies(write, replies, d.clock, 1) == Copies(write, replies, d.clock, 0) + [Direct(write)];
  }

  lemma HealthyDrain(s: CloudState, replies: nat -> Reply)
    requires Healthy(replies, s.clock)
    ensures |AfterDrain(s, replies).journal| == Backoff.Max(0, |s.journal| - DRAIN_BATCH)
    ensures AfterDrain(s, replies).lost == s.lost && Healthy(replies, AfterDrain(s, replies).clock)
  {
    var p := DrainPoint(s.journal, replies, s.clock, 0);
    HealthyCount(replies, s.clock, p);
    if p < |s.journal| {
      assert StopsAt(s.journal, replies, s.clock, p);
    }
    BatchNotExceeded(s.journal, replies, s.clock, p);
    HealthyGivesUpNothing(s.journal, replies, s.clock, p);
  }

  lemma {:induction false} HealthyGivesUpNothing(entries: seq<JournalEntry>, replies: nat -> Reply, t: nat, n: nat)
    requires n <= |entries| && Healthy(replies, t)
    ensures GivenUp(entries, replies, t, n) == []
  {
    if n == 0 {
    } else {
      HealthyGivesUpNothing(entries, replies, t, n - 1);
    }
  }

  function Drains(s: CloudState, replies: nat -> Reply, k: nat): CloudState {
    if k == 0 then s else AfterDrain(Drains(s, replies, k - 1), replies)
  }

  /** Under a healthy control plane `k` drains leave all but `100 k` entries. */
  lemma {:induction false} HealthyDrains(s: CloudState, replies: nat -> Reply, k: nat)
    requires Healthy(replies, s.clock)
    ensures |Drains(s, replies, k).journal| == Backoff.Max(0, |s.journal| - 100 * k)
    ensures Drains(s, replies, k).lost == s.lost && Healthy(replies, Drains(s, replies, k).clock)
  {
    if k == 0 {
    } else {
      HealthyDrains(s, replies, k - 1);
      HealthyDrain(Drains(s, replies, k - 1), replies);
    }
  }

  // ---- conservation ----

  predicate InLog(s: CloudState, w: Write) {
    exists i :: 0 <= i < |s.log| && s.log[i].write == w
  }

  predicate InJournal(s: CloudState, w: Write) {
    exists i :: 0 <= i < |s.journal| && s.journal[i].write == w
  }

  /** Where a write can be. */
  predicate Accounted(s: CloudState, w: Write) {
    InLog(s, w) || InJournal(s, w) || w in s.lost || w in s.rejected
  }

  /** The journal is what was ever appended less what drains have taken from its front. */
  predicate IsQueue(s: CloudState) {
    s.taken <= |s.appended| && s.journal == s.appended[s.taken..]
  }

  /** Every write given is accounted for, and nothing else is. */
  ghost predicate Conserved(s: CloudState, given: set<Write>) {
    IsQueue(s) && forall w :: w in given <==> Accounted(s, w)
  }

  lemma DrainAccounts(s: CloudState, replies: nat -> Reply, w: Write)
    ensures Accounted(AfterDrain(s, replies), w) <==> Accounted(s, w)
  {
    var s' := AfterDrain(s, replies);
    var p, m := DrainPoint(s.journal, replies, s.clock, 0), DrainRequests(s.journal, replies, s.clock);
    LogGrows(s, s', Landed(s.journal, replies, s.clock, m), w);
    LandedMeaning(s.journal, replies, s.clock, m);
    GivenUpMeaning(s.journal, replies, s.clock, p);
    if InJournal(s, w) {
      var i :| 0 <= i < |s.journal| && s.journal[i].write == w;
      if i >= p {
        assert s'.journal[i - p].write == w;
      } else if replies(s.clock + i).Accepted? {
        assert PayloadForReplay(s.journal[i]) in Landed(s.journal, replies, s.clock, m);
      }
    }
    if InJournal(s', w) {
      var i :| 0 <= i < |s'.journal| && s'.journal[i].write == w;
      assert s.journal[p + i].write == w;
    }
  }

  /** What appending to the log does to membership. */
  lemma LogGrows(s: CloudState, s': CloudState, more: seq<Wire>, w: Write)
    requires s'.log == s.log + more
    ensures InLog(s', w) <==> InLog(s, w) || exists x :: x in more && x.write == w
  {
    if InLog(s, w) {
      var i :| 0 <= i < |s.log| && s.log[i].write == w;
      assert s'.log[i].write == w;
    }
    if x :| x in more && x.write == w {
      var i :| 0 <= i < |more| && more[i] == x;
      assert s'.log[|s.log| + i].write == w;
    }
    if InLog(s', w) && !InLog(s, w) {
      var i :| 0 <= i < |s'.log| && s'.log[i].write == w;
      assert i >= |s.log|;
      assert more[i - |s.log|].write == w;
    }
  }

  lemma {:induction false} CopiesAreTheWrite(write: Write, replies: nat -> Reply, t: nat, n: nat)
    ensures forall x :: x in Copies(write, replies, t, n) ==> x.write == write
    ensures n > 0 && Lands(replies(t + n - 1)) ==> Direct(write) in Copies(write, replies, t, n)
  {
    if n == 0 {
    } else {
      CopiesAreTheWrite(write, replies, t, n - 1);
    }
  }

  lemma AttemptsAccount(s: CloudState, replies: nat -> Reply, write: Write, now: int, w: Write)
    ensures Accounted(AfterAttempts(s, replies, write, now), w) <==> Accounted(s, w) || w == write
  {
    var s' := AfterAttempts(s, replies, write, now);
    var n := Attempts(replies, s.clock);
    CopiesAreTheWrite(write, replies, s.clock, n);
    LogGrows(s, s', Copies(write, replies, s.clock, n), w);
    if OutcomeAt(replies, s.clock).Journaled? {
      assert s'.journal[|s.journal|].write == write;
      if InJournal(s, w) {
        var i :| 0 <= i < |s.journal| && s.journal[i].write == w;
        assert s'.journal[i].write == w;
      }
      if InJournal(s', w) && w != write {
        var i :| 0 <= i < |s'.journal| && s'.journal[i].write == w;
        assert s.journal[i].write == w;
      }
    }
  }

  lemma DrainDeathAccounts(s: CloudState, replies: nat -> Reply, requests: nat, w: Write)
    ensures Accounted(After(s, replies, DiesInDrain(requests)), w) <==> Accounted(s, w)
  {
    var m := Requests(s, replies, requests);
    LandedMeaning(s.journal, replies, s.clock, m);
    LogGrows(s, After(s, replies, DiesInDrain(requests)), Landed(s.journal, replies, s.clock, m), w);
  }

  /** Dying among the attempts of a write is a drain and some copies. */
  lemma SendDeathAccounts(s: CloudState, replies: nat -> Reply, write: Write, requests: nat, w: Write)
    ensures Accounted(After(s, replies, DiesInSend(write, requests)), w) <==>
            Accounted(s, w) || (SentBefore(s, replies, write, requests) != [] && w == write)
  {
    var d, s' := AfterDrain(s, replies), After(s, replies, DiesInSend(write, requests));
    var sent := SentBefore(s, replies, write, requests);
    DrainAccounts(s, replies, w);
    CopiesAreTheWrite(write, replies, d.clock, Backoff.Min(requests, Attempts(replies, d.clock)));
    assert sent != [] ==> sent[0] in sent;
    LogGrows(d, s', sent, w);
  }

  /** An event leaves every write where it can be found, and adds its own if that survives. */
  lemma EventAccounts(s: CloudState, replies: nat -> Reply, ev: StoreEvent, w: Write)
    ensures Accounted(After(s, replies, ev), w) <==> Accounted(s, w) || (Survives(s, replies, ev) && w == ev.write)
  {
    match ev {
      case Execute(write, now) =>
        DrainAccounts(s, replies, w);
        AttemptsAccount(AfterDrain(s, replies), replies, write, now, w);
      case DiesInDrain(requests) => DrainDeathAccounts(s, replies, requests, w);
      case DiesInSend(write, requests) => SendDeathAccounts(s, replies, write, requests, w);
    }
  }

  lemma EventKeepsQueue(s: CloudState, replies: nat -> Reply, ev: StoreEvent)
    requires IsQueue(s)
    ensures IsQueue(After(s, replies, ev))
  {
    assert IsQueue(AfterDrain(s, replies));
  }

  lemma EventConserves(s: CloudState, replies: nat -> Reply, ev: StoreEvent, given: set<Write>)
    requires Conserved(s, given)
    ensures Conserved(After(s, replies, ev), given + (if Survives(s, replies, ev) then {ev.write} else {}))
  {
    EventKeepsQueue(s, replies, ev);
    forall w
      ensures Accounted(After(s, replies, ev), w) <==> Accounted(s, w) || (Survives(s, replies, ev) && w == ev.write)
    {
      EventAccounts(s, replies, ev, w);
    }
  }

  /** Journal conservation and order. Under every sequence of replies and every sequence
      of writes and crashes, each write that survived its own process is applied, still
      journaled, or refused for good; nothing else is anywhere; and the journal is a
      queue: entries leave it in the order they were appended. */
  lemma {:induction false} WritesAreConserved(replies: nat -> Reply, events: seq<StoreEvent>)
    ensures Conserved(Run(replies, events), Kept(replies, events))
  {
    if events == [] {
    } else {
      var init, ev := events[..|events| - 1], events[|events| - 1];
      WritesAreConserved(replies, init);
      EventConserves(Run(replies, init), replies, ev, Kept(replies, init));
    }
  }

  /** Event `i` was about `w`, and left it somewhere. */
  predicate KeptAt(replies: nat -> Reply, events: seq<StoreEvent>, w: Write, i: nat)
    requires i < |events|
  {
    !events[i].DiesInDrain? && events[i].write == w && Survives(Run(replies, events[..i]), replies, events[i])
  }

  lemma KeptAtPrefix(replies: nat -> Reply, events: seq<StoreEvent>, w: Write, n: nat, i: nat)
    requires i < n <= |events|
    ensures KeptAt(replies, events[..n], w, i) <==> KeptAt(replies, events, w, i)
  {
    assert events[..n][..i] == events[..i];
  }

  lemma KeptLast(replies: nat -> Reply, events: seq<StoreEvent>, w: Write)
    requires events != []
    ensures w in Kept(replies, events) <==> w in Kept(replies, events[..|events| - 1]) || KeptAt(replies, events, w, |events| - 1)
  {
  }

  lemma {:induction false} KeptSomewhere(replies: nat -> Reply, events: seq<StoreEvent>, w: Write) returns (i: nat)
    requires w in Kept(replies, events)
    ensures i < |events| && KeptAt(replies, events, w, i)
  {
    var n := |events| - 1;
    KeptLast(replies, events, w);
    if KeptAt(replies, events, w, n) {
      i := n;
    } else {
      i := KeptSomewhere(replies, events[..n], w);
      KeptAtPrefix(replies, events, w, n, i);
    }
  }

  lemma {:induction false} KeptStays(replies: nat -> Reply, events: seq<StoreEvent>, w: Write, i: nat)
    requires i < |events| && KeptAt(replies, events, w, i)
    ensures w in Kept(replies, events)
    decreases |events|
  {
    var n := |events| - 1;
    KeptLast(replies, events, w);
    if i == n {
    } else {
      KeptAtPrefix(replies, events, w, n, i);
      KeptStays(replies, events[..n], w, i);
    }
  }

  /** What can be lost: a write is nowhere exactly when every process that tried to write
      it died among its attempts before one of them landed. */
  lemma LostIffDiedUnsent(replies: nat -> Reply, events: seq<StoreEvent>, w: Write)
    ensures !Accounted(Run(replies, events), w) <==>
            forall i :: 0 <= i < |events| && !events[i].DiesInDrain? && events[i].write == w ==>
              && events[i].DiesInSend?
              && SentBefore(Run(replies, events[..i]), replies, w, events[i].requests) == []
  {
    WritesAreConserved(replies, events);
    if w in Kept(replies, events) {
      var i := KeptSomewhere(replies, events, w);
    } else {
      forall i | 0 <= i < |events| && !events[i].DiesInDrain? && events[i].write == w
        ensures !KeptAt(replies, events, w, i)
      {
        if KeptAt(replies, events, w, i) {
          KeptStays(replies, events, w, i);
        }
      }
    }
  }

  // ---- convergence ----

  /** The task entries applied for a run, in order of application. */
  function TasksOf(log: seq<Wire>, runId: string): seq<TaskEntry> {
    if log == [] then []
    else
      var init, last := TasksOf(log[..|log| - 1], runId), log[|log| - 1].write;
      if last.runId == runId && last.payload.SaveTask? then init + [last.payload.e] else init
  }

  lemma {:induction false} TasksMeaning(log: seq<Wire>, runId: string)
    ensures forall e :: e in TasksOf(log, runId) <==>
              exists i :: 0 <= i < |log| && log[i].write == Write(runId, SaveTask(e))
  {
    if log == [] {
    } else {
      TasksMeaning(log[..|log| - 1], runId);
    }
  }

  /** The rows the control plane holds for a run: keyed by execution, redeliveries
      ignored; the late-delivery audit is not part of an entry. */
  function ServerRows(s: CloudState, runId: string): seq<TaskEntry> {
    Deliver([], TasksOf(s.log, runId))
  }

  /** Everything given has been applied. */
  ghost predicate AllDelivered(s: CloudState) {
    s.journal == [] && s.lost == [] && s.rejected == []
  }

  /** The task entries among the writes given for a run. */
  function GivenTasks(given: set<Write>, runId: string): set<TaskEntry> {
    set w | w in given && w.runId == runId && w.payload.SaveTask? :: w.payload.e
  }

  lemma InGivenTasks(given: set<Write>, runId: string, e: TaskEntry)
    ensures e in GivenTasks(given, runId) <==> Write(runId, SaveTask(e)) in given
  {
    if Write(runId, SaveTask(e)) in given {
      assert Write(runId, SaveTask(e)).payload.e == e;
    }
  }

  /** Once everything given has been applied, the log holds exactly the entries given. */
  lemma DeliveredTasks(s: CloudState, given: set<Write>, runId: string, e: TaskEntry)
    requires Conserved(s, given) && AllDelivered(s)
    ensures e in TasksOf(s.log, runId) <==> e in GivenTasks(given, runId)
  {
    TasksMeaning(s.log, runId);
    InGivenTasks(given, runId, e);
    assert InLog(s, Write(runId, SaveTask(e))) <==> Accounted(s, Write(runId, SaveTask(e)));
  }

  /** An execution that was journaled and drained late does not win over the one that
      replaced it, however the two attempts are numbered and wherever the rows end up:
      not unless another write has the token of the newer one. */
  lemma LateExecutionNeverWins(s: CloudState, runId: string, late: TaskEntry, newer: TaskEntry)
    requires newer in TasksOf(s.log, runId) && newer.key == late.key && !NotAfter(newer, late)
    requires OnlyOfItsIdentity(TasksOf(s.log, runId), newer)
    ensures Winner(ServerRows(s, runId), late.key) != Some(late)
  {
    AloneIsStored(TasksOf(s.log, runId), newer);
    StaleNeverWins(ServerRows(s, runId), late, newer);
  }

  /** Of two executions with one token the first to arrive wins, late or not. */
  lemma FirstArrivalWins(s: CloudState, runId: string, first: TaskEntry, second: TaskEntry)
    requires IdentityOf(first) == IdentityOf(second) && first != second
    requires ArrivedFirst(TasksOf(s.log, runId), first)
    ensures first in ServerRows(s, runId) && second !in ServerRows(s, runId)
    ensures Winner(ServerRows(s, runId), second.key) != Some(second)
  {
    DeliverKeepsTheFirst(TasksOf(s.log, runId));
    if second in ServerRows(s, runId) {
      DistinctRowsDiffer(ServerRows(s, runId), first, second);
    }
  }
}
