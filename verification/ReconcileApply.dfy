/** Applying a reconcile plan: one replacing PUT for each agent and resource that has
    work. Models `diff_env` and `apply_plan` of src/papayya/_reconcile.py. */
module ReconcileApply {
  import opened Types
  import opened Reconcile

  datatype AgentSpec = AgentSpec(slug: string, crons: seq<string>, hooks: seq<string>)

  datatype AgentPlan = AgentPlan(agentId: string, scheduleOps: seq<Op>, webhookOps: seq<Op>)

  type Tables = map<(Kind, string), seq<Row>>

  function RowsAt(tables: Tables, kind: Kind, agentId: string): seq<Row> {
    if (kind, agentId) in tables then tables[(kind, agentId)] else []
  }

  /** The rows the reconciler does not own. */
  function OtherRows(rows: seq<Row>): seq<Row> {
    if rows == [] then []
    else
      var before, last := OtherRows(rows[..|rows| - 1]), rows[|rows| - 1];
      if last.managedBy == Some("code") then before else before + [last]
  }

  /** They are the rows with another mark or none, each as often as it is there, in
      order. */
  lemma {:induction false} OtherRowsMeaning(a: seq<Row>, b: seq<Row>, r: Row)
    ensures r in OtherRows(a) <==> r in a && r.managedBy != Some("code")
    ensures OtherRows(a + b) == OtherRows(a) + OtherRows(b)
    ensures r.managedBy != Some("code") ==> OtherRows([r]) == [r]
    decreases |a| + |b|
  {
    assert [r][..0] == [];
    if b != [] {
      OtherRowsMeaning(a, b[..|b| - 1], r);
      assert (a + b)[..|a + b| - 1] == a + b[..|b| - 1];
    } else if a != [] {
      OtherRowsMeaning(a[..|a| - 1], [], r);
      assert a == a[..|a| - 1] + [a[|a| - 1]] && a + b == a;
    } else {
      assert a + b == [];
    }
  }

  /** The control plane as documented: a PUT replaces the code-managed rows of one
      agent and resource atomically, or fails and changes nothing. Whether the next
      PUT fails is arbitrary. */
  class Api {
    var tables: Tables
    var clock: nat
    const refuses: nat -> bool

    constructor (tables: Tables, refuses: nat -> bool)
      ensures this.tables == tables && this.refuses == refuses
    {
      this.tables := tables;
      this.refuses := refuses;
      clock := 0;
    }

    method Put(kind: Kind, agentId: string, names: seq<string>) returns (ok: bool)
      modifies this
      ensures !ok ==> tables == old(tables)
      ensures ok ==> Replaced(old(tables), tables, kind, agentId, names)
    {
      ok := !refuses(clock);
      clock := clock + 1;
      if ok {
        var rows := Replacement(RowsAt(tables, kind, agentId), names);
        ReplacementMeaning(KeyOf(kind), RowsAt(tables, kind, agentId), names);
        UpdateAt(tables, kind, agentId, rows);
        tables := tables[(kind, agentId) := rows];
      }
    }
  }

  lemma UpdateAt(tables: Tables, kind: Kind, agentId: string, rows: seq<Row>)
    ensures RowsAt(tables[(kind, agentId) := rows], kind, agentId) == rows
    ensures forall k, id :: k != kind || id != agentId ==> RowsAt(tables[(kind, agentId) := rows], k, id) == RowsAt(tables, k, id)
  {
    forall k, id | k != kind || id != agentId
      ensures RowsAt(tables[(kind, agentId) := rows], k, id) == RowsAt(tables, k, id)
    {
      assert (k, id) != (kind, agentId);
    }
  }

  /** The rows it does not own, then one row for each name. */
  function Replacement(rows: seq<Row>, names: seq<string>): seq<Row> {
    if names == [] then OtherRows(rows)
    else Replacement(rows, names[..|names| - 1]) + [Row("", Some(names[|names| - 1]), Some("code"))]
  }

  lemma {:induction false} ReplacementMeaning(key: string -> string, rows: seq<Row>, names: seq<string>)
    ensures OtherRows(Replacement(rows, names)) == OtherRows(rows)
    ensures CodeKeys(key, Replacement(rows, names)) == Keys(key, names)
  {
    if names == [] {
      OthersAreOthers(rows);
    } else {
      var init, row := Replacement(rows, names[..|names| - 1]), Row("", Some(names[|names| - 1]), Some("code"));
      ReplacementMeaning(key, rows, names[..|names| - 1]);
      assert (init + [row])[..|init|] == init;
      forall k
        ensures k in Keys(key, names) <==> k in Keys(key, names[..|names| - 1]) || k == RowKey(key, row)
      {
        KeysAppend(key, names, k);
      }
    }
  }

  lemma {:induction false} OthersAreOthers(rows: seq<Row>)
    ensures OtherRows(OtherRows(rows)) == OtherRows(rows)
    ensures forall key :: CodeKeys(key, OtherRows(rows)) == {}
  {
    if rows == [] {
    } else {
      var init, last := rows[..|rows| - 1], rows[|rows| - 1];
      OthersAreOthers(init);
      if !IsCodeManaged(last) {
        assert (OtherRows(init) + [last])[..|OtherRows(init)|] == OtherRows(init);
      }
    }
  }

  /** What one accepted PUT may do. */
  ghost predicate Replaced(before: Tables, after: Tables, kind: Kind, agentId: string, names: seq<string>) {
    && CodeKeys(KeyOf(kind), RowsAt(after, kind, agentId)) == Keys(KeyOf(kind), names)
    && OtherRows(RowsAt(after, kind, agentId)) == OtherRows(RowsAt(before, kind, agentId))
    && forall k, id :: k != kind || id != agentId ==> RowsAt(after, k, id) == RowsAt(before, k, id)
  }

  function Wanted(spec: AgentSpec, kind: Kind): seq<string> {
    match kind
    case Schedules => spec.crons
    case Webhooks => spec.hooks
  }

  /** The operations still needed for one agent and resource. */
  function KindWork(tables: Tables, spec: AgentSpec, agentId: string, kind: Kind): nat {
    Work(KeyOf(kind), RowsAt(tables, kind, agentId), Wanted(spec, kind))
  }

  function AgentWork(tables: Tables, spec: AgentSpec, agentId: string): nat {
    KindWork(tables, spec, agentId, Schedules) + KindWork(tables, spec, agentId, Webhooks)
  }

  /** The work left for each agent. */
  function WorkList(tables: Tables, specs: seq<AgentSpec>, ids: seq<string>): (ws: seq<nat>)
    requires |specs| == |ids|
    ensures |ws| == |ids|
  {
    seq(|ids|, i requires 0 <= i < |ids| => AgentWork(tables, specs[i], ids[i]))
  }

  function SumFrom(ws: seq<nat>, i: nat): nat
    requires i <= |ws|
    decreases |ws| - i
  {
    if i == |ws| then 0 else ws[i] + SumFrom(ws, i + 1)
  }

  /** The operations still needed altogether. */
  function Remaining(tables: Tables, specs: seq<AgentSpec>, ids: seq<string>): nat
    requires |specs| == |ids|
  {
    SumFrom(WorkList(tables, specs, ids), 0)
  }

  lemma {:induction false} SameFromSameSum(a: seq<nat>, b: seq<nat>, i: nat)
    requires |a| == |b| && i <= |a| && forall j :: i <= j < |a| ==> a[j] == b[j]
    ensures SumFrom(a, i) == SumFrom(b, i)
    decreases |a| - i
  {
    if i == |a| {
    } else {
      SameFromSameSum(a, b, i + 1);
    }
  }

  function Ids(specs: seq<AgentSpec>, deployed: map<string, string>): (ids: seq<string>)
    requires forall i :: 0 <= i < |specs| ==> specs[i].slug in deployed
    ensures |ids| == |specs|
  {
    seq(|specs|, i requires 0 <= i < |specs| => deployed[specs[i].slug])
  }

  ghost predicate AgentFits(tables: Tables, spec: AgentSpec, id: string, plan: AgentPlan) {
    && plan.agentId == id
    && OpsFor(Schedules, RowsAt(tables, Schedules, id), spec.crons, plan.scheduleOps)
    && OpsFor(Webhooks, RowsAt(tables, Webhooks, id), spec.hooks, plan.webhookOps)
  }

  ghost predicate PlanFits(tables: Tables, specs: seq<AgentSpec>, ids: seq<string>, plan: seq<AgentPlan>) {
    && |plan| == |specs| == |ids|
    && forall i :: 0 <= i < |plan| ==> AgentFits(tables, specs[i], ids[i], plan[i])
  }

  /** The first agents' plans fit. */
  ghost predicate FitsSoFar(tables: Tables, specs: seq<AgentSpec>, ids: seq<string>, plan: seq<AgentPlan>) {
    && |plan| <= |specs| == |ids|
    && (plan == [] || (FitsSoFar(tables, specs, ids, plan[..|plan| - 1])
                       && AgentFits(tables, specs[|plan| - 1], ids[|plan| - 1], plan[|plan| - 1])))
  }

  lemma {:induction false} FitsAt(tables: Tables, specs: seq<AgentSpec>, ids: seq<string>, plan: seq<AgentPlan>, j: nat)
    requires FitsSoFar(tables, specs, ids, plan) && j < |plan|
    ensures AgentFits(tables, specs[j], ids[j], plan[j])
    decreases |plan|
  {
    if j == |plan| - 1 {
    } else {
      FitsAt(tables, specs, ids, plan[..|plan| - 1], j);
    }
  }

  lemma AllFit(tables: Tables, specs: seq<AgentSpec>, ids: seq<string>, plan: seq<AgentPlan>)
    requires FitsSoFar(tables, specs, ids, plan) && |plan| == |specs|
    ensures PlanFits(tables, specs, ids, plan)
  {
    forall j | 0 <= j < |plan|
      ensures AgentFits(tables, specs[j], ids[j], plan[j])
    {
      FitsAt(tables, specs, ids, plan, j);
    }
  }

  /** Diff every agent; refused, before any look at the server, when a declared agent
      has not been deployed. */
  method DiffEnv(specs: seq<AgentSpec>, deployed: map<string, string>, api: Api) returns (plan: Option<seq<AgentPlan>>)
    ensures plan.None? <==> exists i :: 0 <= i < |specs| && specs[i].slug !in deployed
    ensures plan.Some? ==> PlanFits(api.tables, specs, Ids(specs, deployed), plan.value)
  {
    if exists i :: 0 <= i < |specs| && specs[i].slug !in deployed {
      return None;
    }
    var agents: seq<AgentPlan> := [];
    ghost var ids := Ids(specs, deployed);
    for i := 0 to |specs|
      invariant |agents| == i && FitsSoFar(api.tables, specs, ids, agents)
    {
      var agent := DiffAgent(specs[i], deployed[specs[i].slug], api);
      assert (agents + [agent])[..i] == agents;
      agents := agents + [agent];
    }
    AllFit(api.tables, specs, ids, agents);
    plan := Some(agents);
  }

  method DiffAgent(spec: AgentSpec, agentId: string, api: Api) returns (agent: AgentPlan)
    ensures AgentFits(api.tables, spec, agentId, agent)
  {
    var scheduleOps := Diff(Schedules, RowsAt(api.tables, Schedules, agentId), spec.crons);
    var webhookOps := Diff(Webhooks, RowsAt(api.tables, Webhooks, agentId), spec.hooks);
    agent := AgentPlan(agentId, scheduleOps, webhookOps);
  }

  function AgentOps(plan: AgentPlan): nat {
    ChangeCount(plan.scheduleOps) + ChangeCount(plan.webhookOps)
  }

  /** Every op of every agent is `unchanged`. */
  predicate IsNoop(plan: seq<AgentPlan>) {
    forall i :: 0 <= i < |plan| ==> AgentOps(plan[i]) == 0
  }

  function Counts(plan: seq<AgentPlan>): (counts: seq<nat>)
    ensures |counts| == |plan| && forall i :: 0 <= i < |plan| ==> counts[i] == AgentOps(plan[i])
  {
    seq(|plan|, i requires 0 <= i < |plan| => AgentOps(plan[i]))
  }

  function TotalOps(plan: seq<AgentPlan>): nat {
    SumFrom(Counts(plan), 0)
  }

  /** The ops of one resource count the work there is, and would PUT what is declared. */
  predicate Counted(tables: Tables, spec: AgentSpec, id: string, kind: Kind, ops: seq<Op>) {
    ChangeCount(ops) == KindWork(tables, spec, id, kind) && DesiredNames(ops) == Wanted(spec, kind)
  }

  lemma FittingPlanIsCounted(tables: Tables, spec: AgentSpec, id: string, plan: AgentPlan)
    requires AgentFits(tables, spec, id, plan)
    ensures Counted(tables, spec, id, Schedules, plan.scheduleOps) && Counted(tables, spec, id, Webhooks, plan.webhookOps)
  {
    PlanCountsTheWork(Schedules, RowsAt(tables, Schedules, id), spec.crons, plan.scheduleOps);
    PlanCountsTheWork(Webhooks, RowsAt(tables, Webhooks, id), spec.hooks, plan.webhookOps);
  }

  /** A plan counts the work there is. */
  lemma TotalIsTheWork(tables: Tables, specs: seq<AgentSpec>, ids: seq<string>, plan: seq<AgentPlan>)
    requires PlanFits(tables, specs, ids, plan)
    ensures TotalOps(plan) == Remaining(tables, specs, ids)
  {
    var counts := Counts(plan);
    forall i | 0 <= i < |plan|
      ensures counts[i] == WorkList(tables, specs, ids)[i]
    {
      FittingPlanIsCounted(tables, specs[i], ids[i], plan[i]);
    }
    assert counts == WorkList(tables, specs, ids);
  }

  ghost predicate DistinctIds(ids: seq<string>) {
    forall i, j :: 0 <= i < j < |ids| ==> ids[i] != ids[j]
  }

  ghost predicate OthersKept(before: Tables, after: Tables) {
    forall kind, id :: OtherRows(RowsAt(after, kind, id)) == OtherRows(RowsAt(before, kind, id))
  }

  /** No row with another mark, or none, comes or goes. */
  lemma OthersStay(before: Tables, after: Tables)
    requires OthersKept(before, after)
    ensures forall kind, id, r: Row :: r.managedBy != Some("code") ==> (r in RowsAt(after, kind, id) <==> r in RowsAt(before, kind, id))
  {
    forall kind, id, r: Row | r.managedBy != Some("code")
      ensures r in RowsAt(after, kind, id) <==> r in RowsAt(before, kind, id)
    {
      OtherRowsMeaning(RowsAt(after, kind, id), [], r);
      OtherRowsMeaning(RowsAt(before, kind, id), [], r);
      assert OtherRows(RowsAt(after, kind, id)) == OtherRows(RowsAt(before, kind, id));
    }
  }

  /** Nothing but agent `id` has changed. */
  ghost predicate OnlyAgent(before: Tables, after: Tables, id: string) {
    forall kind, other :: other != id ==> RowsAt(after, kind, other) == RowsAt(before, kind, other)
  }

  /** The work left from agent `i` on. */
  function LeftFrom(tables: Tables, specs: seq<AgentSpec>, ids: seq<string>, i: nat): nat
    requires |specs| == |ids| && i <= |ids|
  {
    SumFrom(WorkList(tables, specs, ids), i)
  }

  lemma OtherAgentsKeepTheirWork(before: Tables, after: Tables, specs: seq<AgentSpec>, ids: seq<string>, i: nat)
    requires |specs| == |ids| && i < |ids| && DistinctIds(ids) && OnlyAgent(before, after, ids[i])
    ensures forall j :: 0 <= j < |ids| && j != i ==> WorkList(after, specs, ids)[j] == WorkList(before, specs, ids)[j]
  {
    forall j | 0 <= j < |ids| && j != i
      ensures AgentWork(after, specs[j], ids[j]) == AgentWork(before, specs[j], ids[j])
    {
      assert ids[j] != ids[i];
    }
  }

  lemma {:induction false} SameUpToSum(a: seq<nat>, b: seq<nat>, k: nat, i: nat)
    requires |a| == |b| && k <= i <= |a| && forall j :: k <= j < i ==> a[j] == b[j]
    ensures SumFrom(a, k) - SumFrom(a, i) == SumFrom(b, k) - SumFrom(b, i)
    decreases i - k
  {
    if k == i {
    } else {
      SameUpToSum(a, b, k + 1, i);
    }
  }

  /** Two lists that differ at `i` only. */
  lemma OneDifference(a: seq<nat>, b: seq<nat>, i: nat)
    requires |a| == |b| && i < |a| && forall j :: 0 <= j < |a| && j != i ==> a[j] == b[j]
    ensures SumFrom(a, i + 1) == SumFrom(b, i + 1)
    ensures SumFrom(a, 0) - SumFrom(a, i) == SumFrom(b, 0) - SumFrom(b, i)
  {
    SameFromSameSum(a, b, i + 1);
    SameUpToSum(a, b, 0, i);
  }

  /** Pushing agent `i` changes its own work only. */
  lemma {:induction false} PushCounts(before: Tables, after: Tables, specs: seq<AgentSpec>, ids: seq<string>, i: nat)
    requires |specs| == |ids| && i < |ids| && DistinctIds(ids) && OnlyAgent(before, after, ids[i])
    ensures LeftFrom(after, specs, ids, i + 1) == LeftFrom(before, specs, ids, i + 1)
    ensures LeftFrom(before, specs, ids, i) == AgentWork(before, specs[i], ids[i]) + LeftFrom(before, specs, ids, i + 1)
    ensures LeftFrom(after, specs, ids, i) == AgentWork(after, specs[i], ids[i]) + LeftFrom(after, specs, ids, i + 1)
    ensures LeftFrom(after, specs, ids, 0) - LeftFrom(after, specs, ids, i) == LeftFrom(before, specs, ids, 0) - LeftFrom(before, specs, ids, i)
  {
    OtherAgentsKeepTheirWork(before, after, specs, ids, i);
    OneDifference(WorkList(after, specs, ids), WorkList(before, specs, ids), i);
  }

  /** The rows of the agents from `i` on are still what the plan was made for. */
  ghost predicate SameFrom(before: Tables, after: Tables, ids: seq<string>, i: nat) {
    forall j, kind :: i <= j < |ids| ==> RowsAt(after, kind, ids[j]) == RowsAt(before, kind, ids[j])
  }

  lemma StillFits(start: Tables, now: Tables, specs: seq<AgentSpec>, ids: seq<string>, plan: seq<AgentPlan>, i: nat)
    requires PlanFits(start, specs, ids, plan) && i < |plan| && SameFrom(start, now, ids, i)
    ensures AgentFits(now, specs[i], ids[i], plan[i]) && plan[i].agentId == ids[i]
  {
    assert AgentFits(start, specs[i], ids[i], plan[i]);
  }

  /** Nothing but one resource of agent `id` has changed. */
  ghost predicate OnlyResource(before: Tables, after: Tables, kind: Kind, id: string) {
    forall k, other :: k != kind || other != id ==> RowsAt(after, k, other) == RowsAt(before, k, other)
  }

  /** An accepted PUT of what is declared leaves no work, and nothing else changed. */
  lemma PutSettles(before: Tables, after: Tables, kind: Kind, id: string, spec: AgentSpec)
    requires Replaced(before, after, kind, id, Wanted(spec, kind))
    ensures KindWork(after, spec, id, kind) == 0 && OthersKept(before, after) && OnlyResource(before, after, kind, id)
  {
    NoWorkIffSame(KeyOf(kind), RowsAt(after, kind, id), Wanted(spec, kind));
    forall k, other
      ensures OtherRows(RowsAt(after, k, other)) == OtherRows(RowsAt(before, k, other))
    {
      if k == kind && other == id {
      } else {
        assert RowsAt(after, k, other) == RowsAt(before, k, other);
      }
    }
  }

  /** Push one resource of one agent, if it has work. */
  method Push(api: Api, kind: Kind, agentId: string, ops: seq<Op>, ghost spec: AgentSpec) returns (ok: bool, count: nat)
    requires Counted(api.tables, spec, agentId, kind, ops)
    modifies api
    ensures OthersKept(old(api.tables), api.tables) && OnlyResource(old(api.tables), api.tables, kind, agentId)
    ensures count + KindWork(api.tables, spec, agentId, kind) == KindWork(old(api.tables), spec, agentId, kind)
    ensures ok <==> KindWork(api.tables, spec, agentId, kind) == 0
  {
    ok, count := true, 0;
    if ChangeCount(ops) > 0 {
      ok := api.Put(kind, agentId, DesiredNames(ops));
      if ok {
        count := ChangeCount(ops);
        PutSettles(old(api.tables), api.tables, kind, agentId, spec);
      }
    }
  }

  /** The two pushes of an agent together; the second did nothing when the first failed. */
  lemma BothPushed(start: Tables, mid: Tables, after: Tables, spec: AgentSpec, id: string)
    requires OthersKept(start, mid) && OnlyResource(start, mid, Schedules, id)
    requires mid == after || (OthersKept(mid, after) && OnlyResource(mid, after, Webhooks, id))
    ensures OthersKept(start, after) && OnlyAgent(start, after, id)
    ensures KindWork(mid, spec, id, Webhooks) == KindWork(start, spec, id, Webhooks)
    ensures KindWork(after, spec, id, Schedules) == KindWork(mid, spec, id, Schedules)
  {
    SameRowsSameKindWork(start, mid, spec, id, Webhooks);
    SameRowsSameKindWork(mid, after, spec, id, Schedules);
  }

  lemma StillCounted(start: Tables, mid: Tables, spec: AgentSpec, id: string, ops: seq<Op>)
    requires OnlyResource(start, mid, Schedules, id) && Counted(start, spec, id, Webhooks, ops)
    ensures Counted(mid, spec, id, Webhooks, ops)
  {
    SameRowsSameKindWork(start, mid, spec, id, Webhooks);
  }

  lemma SameRowsSameKindWork(before: Tables, after: Tables, spec: AgentSpec, id: string, kind: Kind)
    requires RowsAt(after, kind, id) == RowsAt(before, kind, id)
    ensures KindWork(after, spec, id, kind) == KindWork(before, spec, id, kind)
  {
  }

  /** Push both resources of one agent; what was counted and what is left of its work
      add up to what there was. */
  method PushAgent(api: Api, plan: AgentPlan, ghost spec: AgentSpec) returns (ok: bool, count: nat)
    requires Counted(api.tables, spec, plan.agentId, Schedules, plan.scheduleOps)
    requires Counted(api.tables, spec, plan.agentId, Webhooks, plan.webhookOps)
    modifies api
    ensures OthersKept(old(api.tables), api.tables) && OnlyAgent(old(api.tables), api.tables, plan.agentId)
    ensures count + AgentWork(api.tables, spec, plan.agentId) == AgentWork(old(api.tables), spec, plan.agentId)
    ensures ok <==> AgentWork(api.tables, spec, plan.agentId) == 0
  {
    ghost var start := api.tables;
    ok, count := Push(api, Schedules, plan.agentId, plan.scheduleOps, spec);
    ghost var mid := api.tables;
    if ok {
      StillCounted(start, mid, spec, plan.agentId, plan.webhookOps);
      var more: nat;
      ok, more := Push(api, Webhooks, plan.agentId, plan.webhookOps, spec);
      count := count + more;
    }
    BothPushed(start, mid, api.tables, spec, plan.agentId);
  }

  /** Apply the plan, stopping at the first failed PUT. Success or not, the next diff
      finds exactly the operations that were not applied, and rows that are not
      code-managed keep their places; success leaves none. */
  method ApplyPlan(plan: seq<AgentPlan>, api: Api, ghost specs: seq<AgentSpec>, ghost ids: seq<string>)
    returns (ok: bool, applied: nat, total: nat)
    requires PlanFits(api.tables, specs, ids, plan) && DistinctIds(ids)
    modifies api
    ensures total == Remaining(old(api.tables), specs, ids)
    ensures applied + Remaining(api.tables, specs, ids) == total
    ensures ok <==> applied == total
    ensures OthersKept(old(api.tables), api.tables)
  {
    TotalIsTheWork(api.tables, specs, ids, plan);
    total, applied, ok := TotalOps(plan), 0, true;
    ghost var start := api.tables;
    for i := 0 to |plan|
      invariant ok && applied + LeftFrom(api.tables, specs, ids, 0) == total
      invariant LeftFrom(api.tables, specs, ids, 0) == LeftFrom(api.tables, specs, ids, i)
      invariant SameFrom(start, api.tables, ids, i) && OthersKept(start, api.tables)
    {
      var count: nat;
      ghost var before := api.tables;
      StillFits(start, before, specs, ids, plan, i);
      FittingPlanIsCounted(before, specs[i], ids[i], plan[i]);
      ok, count := PushAgent(api, plan[i], specs[i]);
      applied := applied + count;
      PushCounts(before, api.tables, specs, ids, i);
      StaysSame(start, before, api.tables, ids, i);
      if !ok {
        return;
      }
    }
  }

  lemma StaysSame(start: Tables, before: Tables, after: Tables, ids: seq<string>, i: nat)
    requires i < |ids| && DistinctIds(ids) && SameFrom(start, before, ids, i)
    requires OnlyAgent(before, after, ids[i]) && OthersKept(start, before) && OthersKept(before, after)
    ensures SameFrom(start, after, ids, i + 1) && OthersKept(start, after)
  {
    forall j, kind | i + 1 <= j < |ids|
      ensures RowsAt(after, kind, ids[j]) == RowsAt(start, kind, ids[j])
    {
      assert ids[j] != ids[i];
    }
  }

  /** The next plan is a no-op exactly when nothing remains. */
  lemma NoopIffNothingRemains(tables: Tables, specs: seq<AgentSpec>, ids: seq<string>, plan: seq<AgentPlan>)
    requires PlanFits(tables, specs, ids, plan)
    ensures IsNoop(plan) <==> Remaining(tables, specs, ids) == 0
  {
    TotalIsTheWork(tables, specs, ids, plan);
    SumIsZero(Counts(plan), 0);
    forall i | 0 <= i < |plan|
      ensures Counts(plan)[i] == AgentOps(plan[i])
    {
    }
  }

  /** Nothing remains exactly when, for every agent, the rows marked `code` are the
      declared ones. */
  lemma NothingRemainsIffInStep(tables: Tables, specs: seq<AgentSpec>, ids: seq<string>)
    requires |specs| == |ids|
    ensures Remaining(tables, specs, ids) == 0 <==>
            forall i :: 0 <= i < |ids| ==> InStep(Schedules, RowsAt(tables, Schedules, ids[i]), specs[i].crons)
                                           && InStep(Webhooks, RowsAt(tables, Webhooks, ids[i]), specs[i].hooks)
  {
    var works := WorkList(tables, specs, ids);
    SumIsZero(works, 0);
    forall i | 0 <= i < |ids|
      ensures works[i] == 0 <==> InStep(Schedules, RowsAt(tables, Schedules, ids[i]), specs[i].crons)
                                 && InStep(Webhooks, RowsAt(tables, Webhooks, ids[i]), specs[i].hooks)
    {
      NoWorkIffInStep(Schedules, RowsAt(tables, Schedules, ids[i]), specs[i].crons);
      NoWorkIffInStep(Webhooks, RowsAt(tables, Webhooks, ids[i]), specs[i].hooks);
    }
  }

  lemma {:induction false} SumIsZero(ws: seq<nat>, i: nat)
    requires i <= |ws|
    ensures SumFrom(ws, i) == 0 <==> forall j :: i <= j < |ws| ==> ws[j] == 0
    decreases |ws| - i
  {
    if i == |ws| {
    } else {
      SumIsZero(ws, i + 1);
    }
  }
}
