/** Exactly when outages cannot change what the control plane ends up with.
    About src/papayya/durable/cloud_store.py, the row rule described in
    src/papayya/durable/lineage_journal.py, and the tokens minted in
    src/papayya/durable/run.py. */
module Convergence {
  import opened Types
  import opened Latest
  import opened Ledger
  import opened ItemSpec
  import opened Journal
  import opened CloudStore
  import opened Outage
  import Backoff
  import Resume

  // ---- any history of given writes ----

  /** The control plane answers everything. */
  function Up(): nat -> Reply {
    (t: nat) => Accepted
  }

  function Issue(writes: seq<Write>): seq<StoreEvent> {
    if writes == [] then [] else Issue(writes[..|writes| - 1]) + [StoreEvent.Execute(writes[|writes| - 1], 0)]
  }

  function Directs(writes: seq<Write>): seq<Wire> {
    if writes == [] then [] else Directs(writes[..|writes| - 1]) + [Direct(writes[|writes| - 1])]
  }

  lemma RunThen(replies: nat -> Reply, events: seq<StoreEvent>, ev: StoreEvent)
    ensures Run(replies, events + [ev]) == After(Run(replies, events), replies, ev)
  {
    assert (events + [ev])[..|events|] == events;
  }

  lemma KeptThen(replies: nat -> Reply, events: seq<StoreEvent>, ev: StoreEvent)
    ensures Kept(replies, events + [ev]) == Kept(replies, events) + (if Survives(Run(replies, events), replies, ev) then {ev.write} else {})
  {
    assert (events + [ev])[..|events|] == events;
  }

  /** A write to a control plane that answers, with nothing in the journal. */
  lemma UpDelivers(s: CloudState, replies: nat -> Reply, write: Write, now: int)
    requires s.journal == [] && replies(s.clock).Accepted?
    ensures AfterExecute(s, replies, write, now) == s.(log := s.log + [Direct(write)], clock := s.clock + 1)
  {
    var t := s.clock;
    assert AfterDrain(s, replies) == s;
    assert !FailsAt(replies, t);
    assert Tries(replies, t) == 0 && Attempts(replies, t) == 1;
    assert Copies(write, replies, t, 0) == [];
    assert Copies(write, replies, t, 1) == [Direct(write)];
  }

  lemma {:induction false} IssueDelivers(writes: seq<Write>)
    ensures var s := Run(Up(), Issue(writes));
            AllDelivered(s) && s.log == Directs(writes)
    ensures forall w :: w in Kept(Up(), Issue(writes)) <==> w in writes
  {
    if writes == [] {
    } else {
      var init, last := writes[..|writes| - 1], writes[|writes| - 1];
      assert writes == init + [last];
      IssueDelivers(init);
      RunThen(Up(), Issue(init), StoreEvent.Execute(last, 0));
      UpDelivers(Run(Up(), Issue(init)), Up(), last, 0);
      KeptThen(Up(), Issue(init), StoreEvent.Execute(last, 0));
    }
  }

  lemma {:induction false} Listing(given: set<Write>) returns (writes: seq<Write>)
    ensures forall w :: w in writes <==> w in given
  {
    if given == {} {
      writes := [];
    } else {
      var w :| w in given;
      var rest := Listing(given - {w});
      writes := rest + [w];
    }
  }

  lemma {:induction false} TasksAppend(a: seq<Wire>, b: seq<Wire>, runId: string)
    ensures TasksOf(a + b, runId) == TasksOf(a, runId) + TasksOf(b, runId)
  {
    if b == [] {
      assert a + b == a;
    } else {
      TasksAppend(a, b[..|b| - 1], runId);
      assert (a + b)[..|a + b| - 1] == a + b[..|b| - 1];
    }
  }

  lemma {:induction false} DirectsCons(w: Write, writes: seq<Write>)
    ensures Directs([w] + writes) == [Direct(w)] + Directs(writes)
  {
    var all := [w] + writes;
    if writes == [] {
      assert all[..|all| - 1] == [];
    } else {
      assert all[..|all| - 1] == [w] + writes[..|writes| - 1];
      DirectsCons(w, writes[..|writes| - 1]);
    }
  }

  lemma OneTask(e: TaskEntry, runId: string, audit: Option<(nat, int)>)
    ensures TasksOf([Wire(Write(runId, SaveTask(e)), audit)], runId) == [e]
  {
    assert TasksOf([Wire(Write(runId, SaveTask(e)), audit)][..0], runId) == [];
  }

  /** A history of exactly the writes `given` in which the entry `a` arrives first. */
  lemma IssueFirst(given: set<Write>, writes: seq<Write>, runId: string, a: TaskEntry) returns (events: seq<StoreEvent>)
    requires (forall w :: w in writes <==> w in given) && Write(runId, SaveTask(a)) in given
    ensures Kept(Up(), events) == given && AllDelivered(Run(Up(), events))
    ensures TasksOf(Run(Up(), events).log, runId) == [a] + TasksOf(Directs(writes), runId)
  {
    var w := Write(runId, SaveTask(a));
    events := Issue([w] + writes);
    IssueDelivers([w] + writes);
    DirectsCons(w, writes);
    TasksAppend([Direct(w)], Directs(writes), runId);
    OneTask(a, runId, None);
  }

  // ---- exactly when the rows converge ----

  /** Two histories of the same writes that have both delivered everything, under any
      outages, journaling, late, repeated and interrupted drains, leave the same rows. */
  ghost predicate RowsConverge(given: set<Write>, runId: string) {
    forall replies, events, replies', events' ::
      Kept(replies, events) == given && AllDelivered(Run(replies, events)) &&
      Kept(replies', events') == given && AllDelivered(Run(replies', events')) ==>
        multiset(ServerRows(Run(replies, events), runId)) == multiset(ServerRows(Run(replies', events'), runId))
  }

  /** No two different entries carry the same execution token. */
  ghost predicate OneEntryPerToken(given: set<Write>, runId: string) {
    forall a, b :: a in GivenTasks(given, runId) && b in GivenTasks(given, runId) && IdentityOf(a) == IdentityOf(b) ==> a == b
  }

  lemma SameRowsUnderOutages(replies: nat -> Reply, events: seq<StoreEvent>, replies': nat -> Reply, events': seq<StoreEvent>, runId: string)
    requires Kept(replies, events) == Kept(replies', events') && OneEntryPerToken(Kept(replies, events), runId)
    requires AllDelivered(Run(replies, events)) && AllDelivered(Run(replies', events'))
    ensures multiset(ServerRows(Run(replies, events), runId)) == multiset(ServerRows(Run(replies', events'), runId))
  {
    var xs, ys := TasksOf(Run(replies, events).log, runId), TasksOf(Run(replies', events').log, runId);
    WritesAreConserved(replies, events);
    WritesAreConserved(replies', events');
    forall e
      ensures e in xs <==> e in GivenTasks(Kept(replies, events), runId)
      ensures e in ys <==> e in GivenTasks(Kept(replies, events), runId)
    {
      DeliveredTasks(Run(replies, events), Kept(replies, events), runId, e);
      DeliveredTasks(Run(replies', events'), Kept(replies, events), runId, e);
    }
    SameRowsEitherWay(xs, ys);
  }

  lemma DivergingHistories(given: set<Write>, runId: string, a: TaskEntry, b: TaskEntry)
    requires a in GivenTasks(given, runId) && b in GivenTasks(given, runId)
    requires IdentityOf(a) == IdentityOf(b) && a != b
    ensures !RowsConverge(given, runId)
  {
    InGivenTasks(given, runId, a);
    InGivenTasks(given, runId, b);
    var writes := Listing(given);
    var events := IssueFirst(given, writes, runId, a);
    var events' := IssueFirst(given, writes, runId, b);
    var rest := EitherFirst(a, b, TasksOf(Directs(writes), runId));
    SameHead(a, b, rest);
    assert multiset(ServerRows(Run(Up(), events), runId)) != multiset(ServerRows(Run(Up(), events'), runId));
  }

  /** Outage convergence: exactly when no two different entries share a token. */
  lemma OutagesConverge(given: set<Write>, runId: string)
    ensures RowsConverge(given, runId) <==> OneEntryPerToken(given, runId)
  {
    if OneEntryPerToken(given, runId) {
      forall replies, events, replies', events' |
        Kept(replies, events) == given && AllDelivered(Run(replies, events)) &&
        Kept(replies', events') == given && AllDelivered(Run(replies', events'))
        ensures multiset(ServerRows(Run(replies, events), runId)) == multiset(ServerRows(Run(replies', events'), runId))
      {
        SameRowsUnderOutages(replies, events, replies', events', runId);
      }
    } else {
      var a, b :| a in GivenTasks(given, runId) && b in GivenTasks(given, runId) && IdentityOf(a) == IdentityOf(b) && a != b;
      DivergingHistories(given, runId, a, b);
    }
  }

  // ---- in the caller's terms ----

  /** No label has two different first executions. */
  ghost predicate OneFirstExecution(given: set<Write>, runId: string) {
    forall a, b :: a in GivenTasks(given, runId) && b in GivenTasks(given, runId) && a.attempt == b.attempt == 1 && a.key == b.key ==> a == b
  }

  /** The entries are an item's own, and no random token was drawn twice. */
  ghost predicate Minted(given: set<Write>, runId: string) {
    && (forall e :: e in GivenTasks(given, runId) ==> Resume.Stamped(e))
    && (forall a, b :: a in GivenTasks(given, runId) && b in GivenTasks(given, runId) && a.attempt > 1 && b.attempt > 1 && a.token == b.token ==> a == b)
  }

  lemma StampedIdentity(a: TaskEntry, b: TaskEntry)
    requires Resume.Stamped(a) && Resume.Stamped(b)
    ensures IdentityOf(a) == IdentityOf(b) <==>
            || (a.attempt == b.attempt == 1 && a.key == b.key)
            || (a.attempt > 1 && b.attempt > 1 && a.token == b.token)
  {
    assert (a.key + "|1")[..|a.key|] == a.key && (b.key + "|1")[..|b.key|] == b.key;
    assert (a.key + "|1")[|a.key|] == '|' && (b.key + "|1")[|b.key|] == '|';
  }

  /** For what an item mints, outages converge exactly when no label has two first
      executions among the writes: the case of a pass that replaces an execution it
      could not see, because that one was still in a journal. */
  lemma OutagesConvergeIffOneFirstExecution(given: set<Write>, runId: string)
    requires Minted(given, runId)
    ensures RowsConverge(given, runId) <==> OneFirstExecution(given, runId)
  {
    OutagesConverge(given, runId);
    forall a, b | a in GivenTasks(given, runId) && b in GivenTasks(given, runId)
      ensures IdentityOf(a) == IdentityOf(b) <==>
              || (a.attempt == b.attempt == 1 && a.key == b.key)
              || (a.attempt > 1 && b.attempt > 1 && a.token == b.token)
    {
      StampedIdentity(a, b);
    }
  }

  // ---- exactly when the latest execution converges ----

  /** `top` is the one entry of its key with the largest stamp. */
  ghost predicate LatestOf(given: set<Write>, runId: string, top: TaskEntry) {
    && top in GivenTasks(given, runId)
    && forall f :: f in GivenTasks(given, runId) && f.key == top.key ==> NotAfter(f, top) && (NotAfter(top, f) ==> f == top)
  }

  ghost predicate LatestConverges(given: set<Write>, runId: string, top: TaskEntry) {
    forall replies, events :: Kept(replies, events) == given && AllDelivered(Run(replies, events)) ==>
      Winner(ServerRows(Run(replies, events), runId), top.key) == Some(top)
  }

  lemma LatestWins(given: set<Write>, runId: string, top: TaskEntry, replies: nat -> Reply, events: seq<StoreEvent>)
    requires LatestOf(given, runId, top) && Kept(replies, events) == given && AllDelivered(Run(replies, events))
    requires forall f :: f in GivenTasks(given, runId) && IdentityOf(f) == IdentityOf(top) ==> f == top
    ensures Winner(ServerRows(Run(replies, events), runId), top.key) == Some(top)
  {
    var xs := TasksOf(Run(replies, events).log, runId);
    WritesAreConserved(replies, events);
    forall e
      ensures e in xs <==> e in GivenTasks(given, runId)
    {
      DeliveredTasks(Run(replies, events), given, runId, e);
    }
    StoredTopWins(xs, xs, top);
  }

  /** The latest execution of a key is the one every history ends up with exactly when
      no other entry has its token. */
  lemma LatestConvergesIffAlone(given: set<Write>, runId: string, top: TaskEntry)
    requires LatestOf(given, runId, top)
    ensures LatestConverges(given, runId, top) <==>
            forall f :: f in GivenTasks(given, runId) && IdentityOf(f) == IdentityOf(top) ==> f == top
  {
    if forall f :: f in GivenTasks(given, runId) && IdentityOf(f) == IdentityOf(top) ==> f == top {
      forall replies, events | Kept(replies, events) == given && AllDelivered(Run(replies, events))
        ensures Winner(ServerRows(Run(replies, events), runId), top.key) == Some(top)
      {
        LatestWins(given, runId, top, replies, events);
      }
    } else {
      var f :| f in GivenTasks(given, runId) && IdentityOf(f) == IdentityOf(top) && f != top;
      InGivenTasks(given, runId, f);
      var writes := Listing(given);
      var events := IssueFirst(given, writes, runId, f);
      ShadowedIsNotStored(TasksOf(Directs(writes), runId), f, top);
      assert Winner(ServerRows(Run(Up(), events), runId), top.key) != Some(top);
    }
  }

  // ---- the schedule that fails ----

  /** The first `n` requests meet a dead connection. */
  function Down(n: nat): nat -> Reply {
    (t: nat) => if t < n then Refused(ConnectionError, false) else Accepted
  }

  lemma {:induction false} NothingLands(replies: nat -> Reply, write: Write, t: nat, n: nat)
    requires forall j :: t <= j < t + n ==> !Lands(replies(j))
    ensures Copies(write, replies, t, n) == []
  {
    if n == 0 {
    } else {
      NothingLands(replies, write, t, n - 1);
    }
  }

  predicate Dead(r: Reply) {
    r == Refused(ConnectionError, false)
  }

  /** Five refusals journal a write. */
  lemma RefusedIsJournaled(s: CloudState, replies: nat -> Reply, write: Write, now: int)
    requires s.journal == [] && forall j :: s.clock <= j < s.clock + 5 ==> Dead(replies(j))
    ensures var entry := JournalEntry(write, 5, now);
            AfterExecute(s, replies, write, now) ==
            s.(journal := [entry], appended := s.appended + [entry], clock := s.clock + 5)
  {
    assert AfterDrain(s, replies) == s;
    assert forall j :: s.clock <= j < s.clock + 5 ==> FailsAt(replies, j);
    assert Tries(replies, s.clock) == 5;
    NothingLands(replies, write, s.clock, 5);
  }

  /** A drain that meets one more refusal keeps the entry, and the write overtakes it. */
  lemma OvertakenInTheJournal(s: CloudState, replies: nat -> Reply, write: Write, now: int)
    requires |s.journal| == 1 && Dead(replies(s.clock)) && replies(s.clock + 1).Accepted?
    ensures AfterExecute(s, replies, write, now) == s.(log := s.log + [Direct(write)], clock := s.clock + 2)
  {
    var d, t := AfterDrain(s, replies), s.clock;
    assert AcceptedCount(replies, t, 0) == 0;
    assert StopsAt(s.journal, replies, t, 0);
    assert DrainRequests(s.journal, replies, t) == 1;
    assert Landed(s.journal, replies, t, 0) == [];
    assert d == s.(clock := t + 1);
    assert !FailsAt(replies, t + 1);
    assert Copies(write, replies, t + 1, 0) == [];
    assert Copies(write, replies, t + 1, 1) == [Direct(write)];
  }

  /** A drain that is answered sends the entry before the write. */
  lemma DrainedFirst(s: CloudState, replies: nat -> Reply, write: Write, now: int)
    requires |s.journal| == 1 && replies(s.clock).Accepted? && replies(s.clock + 1).Accepted?
    ensures var s' := AfterExecute(s, replies, write, now);
            && s'.journal == [] && s'.lost == s.lost && s'.rejected == s.rejected && s'.clock == s.clock + 2
            && s'.log == s.log + [PayloadForReplay(s.journal[0]), Direct(write)]
  {
    var d, t := AfterDrain(s, replies), s.clock;
    assert AcceptedCount(replies, t, 0) == 0;
    assert !StopsAt(s.journal, replies, t, 0);
    assert DrainPoint(s.journal, replies, t, 0) == 1;
    assert Landed(s.journal, replies, t, 0) == [] && GivenUp(s.journal, replies, t, 0) == [];
    assert Landed(s.journal, replies, t, 1) == [PayloadForReplay(s.journal[0])];
    assert d.journal == [] && d.clock == t + 1;
    assert !FailsAt(replies, t + 1);
    assert Copies(write, replies, t + 1, 0) == [];
    assert Copies(write, replies, t + 1, 1) == [Direct(write)];
  }

  function Schedule(x: Write, y: Write, z: Write): seq<StoreEvent> {
    [StoreEvent.Execute(x, 0), StoreEvent.Execute(y, 1), StoreEvent.Execute(z, 2)]
  }

  lemma RunThird(replies: nat -> Reply, x: Write, y: Write, z: Write)
    ensures Run(replies, Schedule(x, y, z)) ==
            AfterExecute(Run(replies, [StoreEvent.Execute(x, 0), StoreEvent.Execute(y, 1)]), replies, z, 2)
  {
    var two, c := [StoreEvent.Execute(x, 0), StoreEvent.Execute(y, 1)], StoreEvent.Execute(z, 2);
    RunThen(replies, two, c);
    assert two + [c] == Schedule(x, y, z);
  }

  lemma FirstJournaled(n: nat, x: Write, events: seq<StoreEvent>)
    requires n >= 5 && events == [StoreEvent.Execute(x, 0)]
    ensures var s := Run(Down(n), events);
            s.lost == [] && s.rejected == [] && s.clock == 5 && s.journal == [JournalEntry(x, 5, 0)] && s.log == []
  {
    var start := Run(Down(n), events[..0]);
    assert events == events[..0] + [StoreEvent.Execute(x, 0)];
    RunThen(Down(n), events[..0], StoreEvent.Execute(x, 0));
    RefusedIsJournaled(start, Down(n), x, 0);
  }

  lemma SecondWrite(n: nat, x: Write, y: Write)
    requires n == 5 || n == 6
    ensures var s := Run(Down(n), [StoreEvent.Execute(x, 0), StoreEvent.Execute(y, 1)]);
            && s.lost == [] && s.rejected == [] && s.clock == 7
            && (n == 5 ==> s.journal == [] && s.log == [PayloadForReplay(JournalEntry(x, 5, 0)), Direct(y)])
            && (n == 6 ==> s.journal == [JournalEntry(x, 5, 0)] && s.log == [Direct(y)])
  {
    var one, b := [StoreEvent.Execute(x, 0)], StoreEvent.Execute(y, 1);
    FirstJournaled(n, x, one);
    RunThen(Down(n), one, b);
    assert one + [b] == [StoreEvent.Execute(x, 0), StoreEvent.Execute(y, 1)];
    if n == 5 {
      DrainedFirst(Run(Down(n), one), Down(n), y, 1);
    } else {
      OvertakenInTheJournal(Run(Down(n), one), Down(n), y, 1);
    }
  }

  /** Five refusals: the journaled write arrives first. */
  lemma FiveRefusals(n: nat, x: Write, y: Write, z: Write)
    requires n == 5
    ensures var s := Run(Down(n), Schedule(x, y, z));
            AllDelivered(s) && s.log == [PayloadForReplay(JournalEntry(x, 5, 0)), Direct(y)] + [Direct(z)]
  {
    SecondWrite(n, x, y);
    RunThird(Down(n), x, y, z);
    UpDelivers(Run(Down(n), [StoreEvent.Execute(x, 0), StoreEvent.Execute(y, 1)]), Down(n), z, 2);
  }

  /** Six refusals: the second write overtakes it. */
  lemma SixRefusals(n: nat, x: Write, y: Write, z: Write)
    requires n == 6
    ensures var s := Run(Down(n), Schedule(x, y, z));
            AllDelivered(s) && s.log == [Direct(y), PayloadForReplay(JournalEntry(x, 5, 0))] + [Direct(z)]
  {
    SecondWrite(n, x, y);
    RunThird(Down(n), x, y, z);
    DrainedFirst(Run(Down(n), [StoreEvent.Execute(x, 0), StoreEvent.Execute(y, 1)]), Down(n), z, 2);
  }

  lemma TwoRows(a: TaskEntry, b: TaskEntry, log: seq<Wire>, z: Wire, runId: string)
    requires IdentityOf(a) == IdentityOf(b) && !z.write.payload.SaveTask?
    requires |log| == 2 && log[0].write == Write(runId, SaveTask(a)) && log[1].write == Write(runId, SaveTask(b))
    ensures Deliver([], TasksOf(log + [z], runId)) == [a]
  {
    assert log == [log[0]] + [log[1]] && (log + [z])[..2] == log;
    TasksAppend([log[0]], [log[1]], runId);
    OneTask(a, runId, log[0].audit);
    OneTask(b, runId, log[1].audit);
    assert TasksOf(log, runId) == [a, b];
    assert [a, b][..1] == [a] && [a][..0] == [];
    assert Deliver([], [a]) == [a];
    assert [a][0] == a;
  }

  /** The failing schedule. A step's first execution `late` is journaled; a pass that
      cannot see it executes the step again as `newer`, with the same token. Which of
      the two the control plane keeps, for good, depends on one reply. */
  lemma OneReplyDecides(
    s: ItemState, s': ItemState, key: string, itemId: Option<string>, x: Execution, x': Execution, n: nat, n': nat, runId: string)
    requires CacheOrdered(s) && CacheOrdered(s') && NextAttempt(s, key) == NextAttempt(s', key) == 1
    ensures var late, newer := EntryFor(s, key, itemId, x, n), EntryFor(s', key, itemId, x', n');
            var events := Schedule(Write(runId, SaveTask(late)), Write(runId, SaveTask(newer)), Write(runId, SetStatus("completed")));
            && IdentityOf(late) == IdentityOf(newer)
            && AllDelivered(Run(Down(5), events)) && ServerRows(Run(Down(5), events), runId) == [late]
            && AllDelivered(Run(Down(6), events)) && ServerRows(Run(Down(6), events), runId) == [newer]
  {
    var late, newer := EntryFor(s, key, itemId, x, n), EntryFor(s', key, itemId, x', n');
    var a, b, c := Write(runId, SaveTask(late)), Write(runId, SaveTask(newer)), Write(runId, SetStatus("completed"));
    FiveRefusals(5, a, b, c);
    SixRefusals(6, a, b, c);
    var replay := PayloadForReplay(JournalEntry(a, 5, 0));
    assert late.token == newer.token == key + "|1";
    TwoRows(late, newer, [replay, Direct(b)], Direct(c), runId);
    TwoRows(newer, late, [Direct(b), replay], Direct(c), runId);
  }
}
