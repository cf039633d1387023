/** Exactly when outages cannot change what the control plane ends up with, for writes
    issued in a given order. About src/papayya/durable/cloud_store.py. */
module IssueOrder {
  import opened Types
  import opened Latest
  import opened Ledger
  import opened Journal
  import opened CloudStore
  import opened Outage
  import opened Convergence

  predicate IsStep(w: Write, runId: string) {
    w.runId == runId && w.payload.SaveTask?
  }

  /** No step of the run is issued twice. */
  predicate IssuedOnce(ws: seq<Write>, runId: string) {
    forall i, j :: 0 <= i < j < |ws| && IsStep(ws[i], runId) ==> ws[i] != ws[j]
  }

  predicate SharesToken(a: Write, b: Write, runId: string) {
    IsStep(a, runId) && IsStep(b, runId) && IdentityOf(a.payload.e) == IdentityOf(b.payload.e)
  }

  /** No two steps before the last write share a token. */
  ghost predicate NoneCanOvertake(ws: seq<Write>, runId: string) {
    forall i, j :: 0 <= i < j < |ws| - 1 ==> !SharesToken(ws[i], ws[j], runId)
  }

  /** Whatever the control plane answers, once everything is delivered the rows are the
      same. */
  ghost predicate RowsConvergeInOrder(ws: seq<Write>, runId: string) {
    forall replies, replies' :: AllDelivered(Run(replies, Issue(ws))) && AllDelivered(Run(replies', Issue(ws))) ==>
      multiset(ServerRows(Run(replies, Issue(ws)), runId)) == multiset(ServerRows(Run(replies', Issue(ws)), runId))
  }

  // ---- the last write comes last ----

  lemma {:induction false} IssueKeeps(replies: nat -> Reply, ws: seq<Write>)
    ensures forall w :: w in Kept(replies, Issue(ws)) <==> w in ws
  {
    if ws == [] {
    } else {
      var init, last := ws[..|ws| - 1], ws[|ws| - 1];
      assert ws == init + [last];
      IssueKeeps(replies, init);
      KeptThen(replies, Issue(init), StoreEvent.Execute(last, 0));
    }
  }

  /** When everything is delivered after a write, the drain before it left nothing behind,
      and what follows the drain are copies of the write. */
  lemma LastDelivered(s: CloudState, replies: nat -> Reply, write: Write) returns (copies: seq<Wire>)
    requires AllDelivered(AfterExecute(s, replies, write, 0))
    ensures AllDelivered(AfterDrain(s, replies))
    ensures AfterExecute(s, replies, write, 0).log == AfterDrain(s, replies).log + copies
    ensures copies != [] && forall x :: x in copies ==> x.write == write
  {
    var d := AfterDrain(s, replies);
    var n := Attempts(replies, d.clock);
    copies := Copies(write, replies, d.clock, n);
    CopiesAreTheWrite(write, replies, d.clock, n);
    assert OutcomeAt(replies, d.clock).Delivered?;
  }

  lemma {:induction false} TasksOfCopies(copies: seq<Wire>, write: Write, runId: string)
    requires forall x :: x in copies ==> x.write == write
    ensures !IsStep(write, runId) ==> TasksOf(copies, runId) == []
    ensures IsStep(write, runId) ==>
              |TasksOf(copies, runId)| == |copies| && forall e :: e in TasksOf(copies, runId) ==> e == write.payload.e
  {
    if copies == [] {
    } else {
      TasksOfCopies(copies[..|copies| - 1], write, runId);
    }
  }

  lemma {:induction false} DeliverCopies(xs: seq<TaskEntry>, copies: seq<TaskEntry>, e: TaskEntry)
    requires copies != [] && forall x :: x in copies ==> x == e
    ensures Deliver([], xs + copies) == SaveRow(Deliver([], xs), e)
  {
    var init := copies[..|copies| - 1];
    assert forall x :: x in init ==> x in copies;
    assert copies == init + [e] by {
      assert copies[|copies| - 1] in copies;
    }
    assert (xs + copies)[..|xs + copies| - 1] == xs + init;
    if init == [] {
      assert xs + init == xs;
    } else {
      DeliverCopies(xs, init, e);
      KnownAppend(Deliver([], xs), e, e);
    }
  }

  /** The rows of a delivered history: those of the writes before the last, in some order
      and number, and then the last. */
  lemma RowsInOrder(replies: nat -> Reply, ws: seq<Write>, runId: string) returns (xs: seq<TaskEntry>)
    requires ws != [] && AllDelivered(Run(replies, Issue(ws)))
    ensures forall e :: e in xs <==> Write(runId, SaveTask(e)) in ws[..|ws| - 1]
    ensures ServerRows(Run(replies, Issue(ws)), runId) ==
            if IsStep(ws[|ws| - 1], runId) then SaveRow(Deliver([], xs), ws[|ws| - 1].payload.e) else Deliver([], xs)
  {
    var init, last := ws[..|ws| - 1], ws[|ws| - 1];
    var s := Run(replies, Issue(init));
    RunThen(replies, Issue(init), StoreEvent.Execute(last, 0));
    var copies := LastDelivered(s, replies, last);
    var d := AfterDrain(s, replies);
    xs := TasksOf(d.log, runId);
    DrainedTasks(replies, init, runId);
    TasksAppend(d.log, copies, runId);
    TasksOfCopies(copies, last, runId);
    if IsStep(last, runId) {
      DeliverCopies(xs, TasksOf(copies, runId), last.payload.e);
    } else {
      assert xs + [] == xs;
    }
  }

  lemma DrainedTasks(replies: nat -> Reply, ws: seq<Write>, runId: string)
    requires AllDelivered(AfterDrain(Run(replies, Issue(ws)), replies))
    ensures forall e :: e in TasksOf(AfterDrain(Run(replies, Issue(ws)), replies).log, runId) <==> Write(runId, SaveTask(e)) in ws
  {
    var s, given := Run(replies, Issue(ws)), Kept(replies, Issue(ws));
    WritesAreConserved(replies, Issue(ws));
    IssueKeeps(replies, ws);
    forall w
      ensures Accounted(AfterDrain(s, replies), w) <==> Accounted(s, w)
    {
      DrainAccounts(s, replies, w);
    }
    forall e
      ensures e in TasksOf(AfterDrain(s, replies).log, runId) <==> Write(runId, SaveTask(e)) in ws
    {
      DeliveredTasks(AfterDrain(s, replies), given, runId, e);
      InGivenTasks(given, runId, e);
    }
  }

  lemma StepsBeforeTheLastDiffer(ws: seq<Write>, runId: string, xs: seq<TaskEntry>)
    requires ws != [] && NoneCanOvertake(ws, runId)
    requires forall e :: e in xs <==> Write(runId, SaveTask(e)) in ws[..|ws| - 1]
    ensures Redeliveries(xs)
  {
    forall a, b | a in xs && b in xs && IdentityOf(a) == IdentityOf(b)
      ensures a == b
    {
      var i :| 0 <= i < |ws| - 1 && ws[i] == Write(runId, SaveTask(a));
      var j :| 0 <= j < |ws| - 1 && ws[j] == Write(runId, SaveTask(b));
      assert i < j ==> SharesToken(ws[i], ws[j], runId);
      assert j < i ==> SharesToken(ws[j], ws[i], runId);
    }
  }

  lemma KnownAmong(rows: seq<TaskEntry>, others: seq<TaskEntry>, e: TaskEntry)
    requires multiset(rows) == multiset(others) && Known(rows, e)
    ensures Known(others, e)
  {
    var r := KnownHasMember(rows, e);
    assert r in multiset(others);
    var i :| 0 <= i < |others| && others[i] == r;
  }

  lemma SaveRowPermutes(rows: seq<TaskEntry>, others: seq<TaskEntry>, e: TaskEntry)
    requires multiset(rows) == multiset(others)
    ensures multiset(SaveRow(rows, e)) == multiset(SaveRow(others, e))
  {
    if Known(rows, e) {
      KnownAmong(rows, others, e);
    } else if Known(others, e) {
      KnownAmong(others, rows, e);
    }
  }

  lemma InOrderConverges(ws: seq<Write>, runId: string, replies: nat -> Reply, replies': nat -> Reply)
    requires NoneCanOvertake(ws, runId)
    requires AllDelivered(Run(replies, Issue(ws))) && AllDelivered(Run(replies', Issue(ws)))
    ensures multiset(ServerRows(Run(replies, Issue(ws)), runId)) == multiset(ServerRows(Run(replies', Issue(ws)), runId))
  {
    if ws == [] {
    } else {
      var xs := RowsInOrder(replies, ws, runId);
      var ys := RowsInOrder(replies', ws, runId);
      StepsBeforeTheLastDiffer(ws, runId, xs);
      SameRowsEitherWay(xs, ys);
      if IsStep(ws[|ws| - 1], runId) {
        SaveRowPermutes(Deliver([], xs), Deliver([], ys), ws[|ws| - 1].payload.e);
      }
    }
  }

  // ---- a write that is overtaken ----

  /** The `n` requests from `t` on are answered. */
  predicate AnswersFrom(replies: nat -> Reply, t: nat, n: nat) {
    n == 0 || (AnswersFrom(replies, t, n - 1) && replies(t + n - 1).Accepted?)
  }

  /** The first request of write `m`, while write `i` is in the journal. */
  function At(i: nat, m: nat): nat
    requires i < m
  {
    i + 5 + 2 * (m - i - 1)
  }

  /** Write `i` meets five refusals, and each later write, before write `m`, one more in
      its drain. */
  ghost predicate Overtakes(replies: nat -> Reply, i: nat, m: nat)
    requires i < m
  {
    if m == i + 1 then AnswersFrom(replies, 0, i) && forall k :: i <= k < i + 5 ==> Dead(replies(k))
    else Overtakes(replies, i, m - 1) && Dead(replies(At(i, m - 1))) && replies(At(i, m - 1) + 1).Accepted?
  }

  /** Such an outage, and the control plane answering everything after it. */
  function Overtaking(i: nat, j: nat): nat -> Reply {
    (t: nat) =>
      if i <= t < i + 5 || (i + 5 <= t < i + 5 + 2 * (j - i) && (t - i - 5) % 2 == 0) then Refused(ConnectionError, false)
      else Accepted
  }

  lemma {:induction false} AnswersAll(replies: nat -> Reply, t: nat, n: nat)
    requires forall k :: t <= k < t + n ==> replies(k).Accepted?
    ensures AnswersFrom(replies, t, n)
  {
    if n == 0 {
    } else {
      AnswersAll(replies, t, n - 1);
    }
  }

  lemma {:induction false} OvertakingOvertakes(i: nat, j: nat, m: nat)
    requires i < m <= j + 1
    ensures Overtakes(Overtaking(i, j), i, m)
  {
    if m == i + 1 {
      AnswersAll(Overtaking(i, j), 0, i);
    } else {
      OvertakingOvertakes(i, j, m - 1);
    }
  }

  lemma ThenItAnswers(i: nat, j: nat, n: nat)
    requires i < j
    ensures Overtakes(Overtaking(i, j), i, j + 1)
    ensures AnswersFrom(Overtaking(i, j), At(i, j + 1), 2) && AnswersFrom(Overtaking(i, j), At(i, j + 1) + 2, n)
  {
    OvertakingOvertakes(i, j, j + 1);
    AnswersAll(Overtaking(i, j), At(i, j + 1), 2);
    AnswersAll(Overtaking(i, j), At(i, j + 1) + 2, n);
  }

  /** What a history has come to; `clean` when nothing was lost or refused for good. */
  datatype Standing = Standing(journal: seq<JournalEntry>, clock: nat, log: seq<Wire>, clean: bool)

  function StandingOf(s: CloudState): Standing {
    Standing(s.journal, s.clock, s.log, s.lost == [] && s.rejected == [])
  }

  /** One write, seen from there, when at most one entry waits: it is delivered, or
      journaled after five refusals; a waiting entry goes first if its drain is answered,
      and is overtaken if not. */
  function Next(st: Standing, replies: nat -> Reply, w: Write): Standing {
    if st.journal == [] then
      if replies(st.clock).Accepted? then st.(clock := st.clock + 1, log := st.log + [Direct(w)])
      else st.(journal := [JournalEntry(w, 5, 0)], clock := st.clock + 5)
    else if replies(st.clock).Accepted? then
      st.(journal := [], clock := st.clock + 2, log := st.log + [PayloadForReplay(st.journal[0]), Direct(w)])
    else st.(clock := st.clock + 2, log := st.log + [Direct(w)])
  }

  /** The replies met there leave no other way. */
  ghost predicate Fits(st: Standing, replies: nat -> Reply) {
    if st.journal == [] then replies(st.clock).Accepted? || forall k :: st.clock <= k < st.clock + 5 ==> Dead(replies(k))
    else |st.journal| == 1 && (replies(st.clock).Accepted? || Dead(replies(st.clock))) && replies(st.clock + 1).Accepted?
  }

  lemma NextIsExecute(s: CloudState, replies: nat -> Reply, w: Write)
    requires Fits(StandingOf(s), replies)
    ensures StandingOf(AfterExecute(s, replies, w, 0)) == Next(StandingOf(s), replies, w)
  {
    var answered := replies(s.clock).Accepted?;
    if s.journal == [] && answered {
      UpDelivers(s, replies, w, 0);
    } else if s.journal == [] {
      RefusedIsJournaled(s, replies, w, 0);
    } else if answered {
      DrainedFirst(s, replies, w, 0);
    } else {
      OvertakenInTheJournal(s, replies, w, 0);
    }
  }

  /** The first `m` writes. */
  function Through(replies: nat -> Reply, ws: seq<Write>, m: nat): Standing
    requires m <= |ws|
  {
    if m == 0 then Standing([], 0, [], true) else Next(Through(replies, ws, m - 1), replies, ws[m - 1])
  }

  ghost predicate AllFit(replies: nat -> Reply, ws: seq<Write>, m: nat)
    requires m <= |ws|
  {
    m == 0 || (AllFit(replies, ws, m - 1) && Fits(Through(replies, ws, m - 1), replies))
  }

  lemma RunNext(replies: nat -> Reply, ws: seq<Write>, m: nat)
    requires 1 <= m <= |ws|
    ensures Run(replies, Issue(ws[..m])) == AfterExecute(Run(replies, Issue(ws[..m - 1])), replies, ws[m - 1], 0)
  {
    assert ws[..m][..m - 1] == ws[..m - 1];
    RunThen(replies, Issue(ws[..m - 1]), StoreEvent.Execute(ws[m - 1], 0));
  }

  lemma OneIssued(replies: nat -> Reply, ws: seq<Write>, m: nat)
    requires 1 <= m <= |ws| && Fits(Through(replies, ws, m - 1), replies)
    requires StandingOf(Run(replies, Issue(ws[..m - 1]))) == Through(replies, ws, m - 1)
    ensures StandingOf(Run(replies, Issue(ws[..m]))) == Through(replies, ws, m)
  {
    RunNext(replies, ws, m);
    NextIsExecute(Run(replies, Issue(ws[..m - 1])), replies, ws[m - 1]);
  }

  lemma {:induction false} ThroughIsRun(replies: nat -> Reply, ws: seq<Write>, m: nat)
    requires m <= |ws| && AllFit(replies, ws, m)
    ensures StandingOf(Run(replies, Issue(ws[..m]))) == Through(replies, ws, m)
  {
    if m == 0 {
    } else {
      ThroughIsRun(replies, ws, m - 1);
      OneIssued(replies, ws, m);
    }
  }

  /** After `m` writes, whose replies fit. */
  ghost predicate Reaches(replies: nat -> Reply, ws: seq<Write>, m: nat, journal: seq<JournalEntry>, clock: nat, log: seq<Wire>) {
    m <= |ws| && AllFit(replies, ws, m) && Through(replies, ws, m) == Standing(journal, clock, log, true)
  }

  /** Nothing in the log is the write `w`. */
  ghost predicate Lacks(log: seq<Wire>, w: Write) {
    forall x :: x in log ==> x.write != w
  }

  /** Before the outage every write lands, none of them `w`. */
  lemma {:induction false} BeforeTheOutage(replies: nat -> Reply, ws: seq<Write>, m: nat, w: Write) returns (log: seq<Wire>)
    requires m <= |ws| && AnswersFrom(replies, 0, m) && forall k :: 0 <= k < m ==> ws[k] != w
    ensures Reaches(replies, ws, m, [], m, log) && Lacks(log, w)
  {
    if m == 0 {
      log := [];
    } else {
      var before := BeforeTheOutage(replies, ws, m - 1, w);
      log := before + [Direct(ws[m - 1])];
    }
  }

  /** Write `i` waits in the journal while the writes after it land. */
  lemma {:induction false} WhileItWaits(replies: nat -> Reply, ws: seq<Write>, i: nat, m: nat) returns (log: seq<Wire>)
    requires i < m <= |ws| && Overtakes(replies, i, m) && forall k :: 0 <= k < m && k != i ==> ws[k] != ws[i]
    ensures Reaches(replies, ws, m, [JournalEntry(ws[i], 5, 0)], At(i, m), log) && Lacks(log, ws[i])
    ensures m > i + 1 ==> Direct(ws[m - 1]) in log
  {
    if m == i + 1 {
      log := BeforeTheOutage(replies, ws, i, ws[i]);
      assert Dead(replies(i));
    } else {
      var before := WhileItWaits(replies, ws, i, m - 1);
      log := before + [Direct(ws[m - 1])];
    }
  }

  lemma {:induction false} WhileItAnswers(replies: nat -> Reply, ws: seq<Write>, m: nat, t: nat, log: seq<Wire>, n: nat) returns (rest: seq<Wire>)
    requires m + n <= |ws| && Reaches(replies, ws, m, [], t, log) && AnswersFrom(replies, t, n)
    ensures Reaches(replies, ws, m + n, [], t + n, log + rest)
  {
    if n == 0 {
      rest := [];
      assert log + rest == log;
    } else {
      var before := WhileItAnswers(replies, ws, m, t, log, n - 1);
      rest := before + [Direct(ws[m + n - 1])];
      assert log + before + [Direct(ws[m + n - 1])] == log + rest;
    }
  }

  /** Once the control plane is up, write `i` is drained and the rest follows. */
  lemma AfterTheOutage(replies: nat -> Reply, ws: seq<Write>, entry: JournalEntry, m: nat, t: nat, log: seq<Wire>) returns (rest: seq<Wire>)
    requires m < |ws| && Reaches(replies, ws, m, [entry], t, log)
    requires AnswersFrom(replies, t, 2) && AnswersFrom(replies, t + 2, |ws| - m - 1)
    ensures Reaches(replies, ws, |ws|, [], t + |ws| - m + 1, log + rest)
  {
    var drained := [PayloadForReplay(entry), Direct(ws[m])];
    assert AnswersFrom(replies, t, 1);
    assert Reaches(replies, ws, m + 1, [], t + 2, log + drained);
    var more := WhileItAnswers(replies, ws, m + 1, t + 2, log + drained, |ws| - m - 1);
    rest := drained + more;
    assert log + drained + more == log + rest;
  }

  // ---- which of two entries is kept ----

  lemma {:induction false} DirectTasks(ws: seq<Write>, runId: string, e: TaskEntry)
    ensures e in TasksOf(Directs(ws), runId) <==> Write(runId, SaveTask(e)) in ws
  {
    if ws == [] {
    } else {
      var init, last := ws[..|ws| - 1], ws[|ws| - 1];
      assert ws == init + [last];
      DirectTasks(init, runId, e);
    }
  }

  lemma {:induction false} DirectsAppend(a: seq<Write>, b: seq<Write>)
    ensures Directs(a + b) == Directs(a) + Directs(b)
  {
    if b == [] {
      assert a + b == a;
    } else {
      DirectsAppend(a, b[..|b| - 1]);
      assert (a + b)[..|a + b| - 1] == a + b[..|b| - 1];
    }
  }

  lemma TasksAround(ws: seq<Write>, i: nat, runId: string)
    requires i < |ws| && IsStep(ws[i], runId)
    ensures TasksOf(Directs(ws), runId) == TasksOf(Directs(ws[..i]), runId) + ([ws[i].payload.e] + TasksOf(Directs(ws[i + 1..]), runId))
  {
    DirectsAppend(ws[..i], ws[i..]);
    DirectsCons(ws[i], ws[i + 1..]);
    assert ws == ws[..i] + ws[i..] && ws[i..] == [ws[i]] + ws[i + 1..];
    TasksAppend(Directs(ws[..i]), Directs(ws[i..]), runId);
    TasksAppend([Direct(ws[i])], Directs(ws[i + 1..]), runId);
    OneTask(ws[i].payload.e, runId, None);
  }

  lemma KnownSharesToken(ws: seq<Write>, i: nat, runId: string) returns (k: nat)
    requires i < |ws| && IsStep(ws[i], runId) && Known(TasksOf(Directs(ws[..i]), runId), ws[i].payload.e)
    ensures k < i && SharesToken(ws[k], ws[i], runId)
  {
    var r := KnownHasMember(TasksOf(Directs(ws[..i]), runId), ws[i].payload.e);
    DirectTasks(ws[..i], runId, r);
    k :| 0 <= k < i && ws[k] == Write(runId, SaveTask(r));
  }

  lemma NotKnownBefore(ws: seq<Write>, i: nat, runId: string)
    requires i < |ws| && IsStep(ws[i], runId) && forall k :: 0 <= k < i ==> !SharesToken(ws[k], ws[i], runId)
    ensures !Known(TasksOf(Directs(ws[..i]), runId), ws[i].payload.e)
  {
    if Known(TasksOf(Directs(ws[..i]), runId), ws[i].payload.e) {
      var k := KnownSharesToken(ws, i, runId);
    }
  }

  /** An entry whose identity has not arrived before it is stored. */
  lemma FirstIsStored(before: seq<TaskEntry>, a: TaskEntry, rest: seq<TaskEntry>)
    requires !Known(before, a)
    ensures a in Deliver([], before + ([a] + rest))
  {
    var all := before + ([a] + rest);
    assert all[|before|] == a && all[..|before|] == before;
    DeliverHolds(all, a);
  }

  /** The first of a token, delivered in order, is kept. */
  lemma FirstIsKept(ws: seq<Write>, i: nat, runId: string)
    requires i < |ws| && IsStep(ws[i], runId) && forall k :: 0 <= k < i ==> !SharesToken(ws[k], ws[i], runId)
    ensures ws[i].payload.e in Deliver([], TasksOf(Directs(ws), runId))
  {
    TasksAround(ws, i, runId);
    NotKnownBefore(ws, i, runId);
    FirstIsStored(TasksOf(Directs(ws[..i]), runId), ws[i].payload.e, TasksOf(Directs(ws[i + 1..]), runId));
  }

  /** What a write was overtaken by has its token first. */
  lemma OvertakenIsNotKept(log: seq<Wire>, rest: seq<Wire>, a: TaskEntry, b: TaskEntry, runId: string)
    requires Lacks(log, Write(runId, SaveTask(a))) && Direct(Write(runId, SaveTask(b))) in log && IdentityOf(a) == IdentityOf(b)
    ensures a !in Deliver([], TasksOf(log + rest, runId))
  {
    TasksAppend(log, rest, runId);
    TasksMeaning(log, runId);
    BehindAnother(TasksOf(log, runId), TasksOf(rest, runId), b, a);
    DeliverHolds(TasksOf(log, runId) + TasksOf(rest, runId), a);
  }

  lemma FirstOfItsToken(ws: seq<Write>, j: nat, runId: string) returns (i: nat)
    requires j < |ws| && exists k :: 0 <= k < j && SharesToken(ws[k], ws[j], runId)
    ensures i < j && SharesToken(ws[i], ws[j], runId) && forall k :: 0 <= k < i ==> !SharesToken(ws[k], ws[j], runId)
  {
    i := 0;
    while !SharesToken(ws[i], ws[j], runId)
      invariant i < j && forall k :: 0 <= k < i ==> !SharesToken(ws[k], ws[j], runId)
      decreases j - i
    {
      i := i + 1;
    }
  }

  lemma KeptInOrder(ws: seq<Write>, i: nat, runId: string)
    requires i < |ws| && IsStep(ws[i], runId) && forall k :: 0 <= k < i ==> !SharesToken(ws[k], ws[i], runId)
    ensures AllDelivered(Run(Up(), Issue(ws))) && ws[i].payload.e in ServerRows(Run(Up(), Issue(ws)), runId)
  {
    IssueDelivers(ws);
    FirstIsKept(ws, i, runId);
  }

  /** The whole history: `log` has write `j` in it and not write `i`, and `rest` follows. */
  lemma Overtake(ws: seq<Write>, i: nat, j: nat) returns (log: seq<Wire>, rest: seq<Wire>)
    requires i < j < |ws| - 1 && forall k :: 0 <= k < j + 1 && k != i ==> ws[k] != ws[i]
    ensures Lacks(log, ws[i]) && Direct(ws[j]) in log
    ensures var st := StandingOf(Run(Overtaking(i, j), Issue(ws)));
            st.journal == [] && st.clean && st.log == log + rest
  {
    var replies := Overtaking(i, j);
    ThenItAnswers(i, j, |ws| - j - 2);
    log := WhileItWaits(replies, ws, i, j + 1);
    rest := AfterTheOutage(replies, ws, JournalEntry(ws[i], 5, 0), j + 1, At(i, j + 1), log);
    ThroughIsRun(replies, ws, |ws|);
    assert ws[..|ws|] == ws;
  }

  lemma LostToAnother(ws: seq<Write>, i: nat, j: nat, runId: string) returns (replies: nat -> Reply)
    requires i < j < |ws| - 1 && IssuedOnce(ws, runId) && SharesToken(ws[i], ws[j], runId)
    ensures AllDelivered(Run(replies, Issue(ws))) && ws[i].payload.e !in ServerRows(Run(replies, Issue(ws)), runId)
  {
    replies := Overtaking(i, j);
    forall k | 0 <= k < j + 1 && k != i
      ensures ws[k] != ws[i]
    {
      assert k < i ==> (IsStep(ws[k], runId) ==> ws[k] != ws[i]);
    }
    var log, rest := Overtake(ws, i, j);
    OvertakenIsNotKept(log, rest, ws[i].payload.e, ws[j].payload.e, runId);
  }

  lemma OneMissing(rows: seq<TaskEntry>, others: seq<TaskEntry>, a: TaskEntry)
    requires a in rows && a !in others
    ensures multiset(rows) != multiset(others)
  {
    assert a in multiset(rows) && a !in multiset(others);
  }

  lemma OvertakingDiverges(ws: seq<Write>, j: nat, runId: string)
    requires j < |ws| - 1 && IssuedOnce(ws, runId) && exists k :: 0 <= k < j && SharesToken(ws[k], ws[j], runId)
    ensures !RowsConvergeInOrder(ws, runId)
  {
    var i := FirstOfItsToken(ws, j, runId);
    KeptInOrder(ws, i, runId);
    var replies := LostToAnother(ws, i, j, runId);
    OneMissing(ServerRows(Run(Up(), Issue(ws)), runId), ServerRows(Run(replies, Issue(ws)), runId), ws[i].payload.e);
  }

  /** For writes issued in one order, each step once: no outage changes the rows exactly
      when no two steps before the last write share a token. The last write is different
      because the drain before it is the last: in a history that delivers everything
      nothing comes after it. */
  lemma ConvergeInOrderIff(ws: seq<Write>, runId: string)
    requires IssuedOnce(ws, runId)
    ensures RowsConvergeInOrder(ws, runId) <==> NoneCanOvertake(ws, runId)
  {
    if NoneCanOvertake(ws, runId) {
      forall replies, replies' | AllDelivered(Run(replies, Issue(ws))) && AllDelivered(Run(replies', Issue(ws)))
        ensures multiset(ServerRows(Run(replies, Issue(ws)), runId)) == multiset(ServerRows(Run(replies', Issue(ws)), runId))
      {
        InOrderConverges(ws, runId, replies, replies');
      }
    } else {
      var i, j :| 0 <= i < j < |ws| - 1 && SharesToken(ws[i], ws[j], runId);
      OvertakingDiverges(ws, j, runId);
    }
  }
}
