/**
 What holds of every version an environment row ever had, however old the snapshots that passes write back
 and whatever calls fail: a pass may overwrite a row with a stale one, but never with an incoherent one.
 */
module RowHistory {
  import opened Transitions
  import opened Calls
  import opened Lifecycle

  /** A coherent row: both refs agree, and a serving row knows its deployment and its revision. */
  predicate RowOk(e: Environment) {
    && e.deployRef == e.lastGoodDeployRef
    && (Serving(e.status) ==> e.deployRef != "" && e.lastGoodArtifactRef != "")
  }

  /** A row as it is created: pending, with nothing deployed and nothing known good. */
  predicate Reserved(e: Environment) {
    e.status == Pending && e.deployRef == "" && e.lastGoodDeployRef == "" && e.lastGoodArtifactRef == "" && !e.pinned
  }

  ghost predicate VersionsOk(v: Versions) {
    && Reserved(v.All()[0])
    && (forall i {:trigger v.All()[i]} :: 0 <= i < |v.All()| ==> v.All()[i].createdAt == v.All()[0].createdAt)
    && (forall i {:trigger v.All()[i]} :: 0 <= i < |v.All()| ==> RowOk(v.All()[i]))
    && (forall i {:trigger v.All()[i]} :: 0 < i < |v.All()| ==> CanTransition(v.All()[i - 1].status, v.All()[i].status))
  }

  type Table = map<EnvId, Versions>

  ghost predicate HistoryOk(t: Table) {
    && NoId !in t
    && forall id :: id in t ==> VersionsOk(t[id])
  }

  /** History only grows. */
  ghost predicate Extends(t: Table, t': Table) {
    forall id :: id in t ==> id in t' && t[id].All() <= t'[id].All()
  }

  ghost predicate Keeps(w: World, w': World) {
    HistoryOk(w'.environments) && Extends(w.environments, w'.environments)
  }

  ghost predicate RefsGiven(c: Config) {
    ValidConfig(c) && forall p, b, x :: c.refOf(p, b, x) != ""
  }

  lemma ExtendsTransitive(t: Table, t': Table, t'': Table)
    requires Extends(t, t') && Extends(t', t'')
    ensures Extends(t, t'')
  {
    forall id | id in t
      ensures t[id].All() <= t''[id].All()
    {
      var a, b, d := t[id].All(), t'[id].All(), t''[id].All();
      assert a <= b && b <= d;
    }
  }

  lemma AppendVersion(v: Versions, row: Environment)
    requires VersionsOk(v) && RowOk(row) && CanTransition(v.current.status, row.status)
    requires row.createdAt == v.current.createdAt
    ensures VersionsOk(Versions(v.All(), row)) && v.All() <= Versions(v.All(), row).All()
  {
    var all := Versions(v.All(), row).All();
    assert all == v.All() + [row] && v.All()[|v.All()| - 1] == v.current;
    forall i | 0 <= i < |all|
      ensures RowOk(all[i])
      ensures 0 < i ==> CanTransition(all[i - 1].status, all[i].status)
      ensures all[i].createdAt == all[0].createdAt
    {
      assert i < |v.All()| ==> all[i] == v.All()[i];
    }
  }

  /** Writing a coherent row keeps the history coherent, even when the row written is a stale snapshot. */
  lemma UpdateKeeps(o: Oracle, w: World, env: Environment)
    requires HistoryOk(w.environments) && RowOk(env)
    ensures var u := UpdateEnvironment(o, w, env);
      && Keeps(w, u.w)
      && (u.out.Ok? ==> RowOk(u.out.value) && u.out.value.status == env.status)
  {
    hide VersionsOk, CanTransition;
    var t, u := w.environments, UpdateEnvironment(o, w, env);
    if u.w.environments != t {
      var row := u.w.Current(env.id);
      AppendVersion(t[env.id], row);
      assert u.w.environments == t[env.id := Versions(t[env.id].All(), row)];
    }
  }

  lemma CurrentOk(w: World, id: EnvId)
    requires HistoryOk(w.environments) && id in w.environments
    ensures RowOk(w.Current(id))
  {
    var v := w.environments[id];
    assert v.All()[|v.All()| - 1] == v.current;
  }

  lemma {:induction false} WaitKeepsTable(c: Config, o: Oracle, w: World, ref: string, deadline: int)
    requires ValidConfig(c)
    ensures WaitUntilHealthy(c, o, w, ref, deadline).w.environments == w.environments
    decreases if w.now < deadline then deadline - w.now else 0
  {
    if o(ProviderCall, w.calls).ok {
      var h := HealthCheck(o, Tick(o, w, ProviderCall), ref);
      if h.out == Unhealthy && h.w.now < deadline {
        WaitKeepsTable(c, o, Sleep(h.w, c.readinessPollInterval), ref, deadline);
      }
    }
  }

  lemma {:induction false} RecordsKeepTable(o: Oracle, w: World, records: seq<DnsRow>)
    ensures DestroyRecords(o, w, records).w.environments == w.environments
    decreases |records|
  {
    if records != [] {
      var d := DeleteRecord(o, w, records[0]);
      RecordsKeepTable(o, d.w, records[1..]);
      RecordsKeepTable(o, DeleteDnsRecord(o, d.w, records[0].rowId).w, records[1..]);
    }
  }

  lemma InfrastructureKeepsTable(c: Config, o: Oracle, w: World, env: Environment)
    ensures DestroyInfrastructure(c, o, w, env).w.environments == w.environments
  {
  }

  lemma PublishKeepsTable(c: Config, o: Oracle, w: World, id: EnvId, req: ApplyRequest, ref: string)
    ensures PublishRecords(c, o, w, id, req, ref).w.environments == w.environments
  {
    hide HasRow, RowsOf;
  }

  lemma SameHistory(w: World)
    requires HistoryOk(w.environments)
    ensures Keeps(w, w)
  {
  }

  lemma AttemptKeeps(c: Config, o: Oracle, w: World, env: Environment, req: ApplyRequest)
    requires RefsGiven(c) && HistoryOk(w.environments) && RowOk(env) && req.artifactRef != ""
    ensures var a := AttemptApply(c, o, w, env, req);
      Keeps(w, a.w) && RowOk(a.out.env) && (a.out.err.None? ==> a.out.env.status == Ready)
  {
    hide HistoryOk, WaitUntilHealthy, PublishRecords, UpdateEnvironment;
    var ref := c.refOf(req.project, req.branch, env.deployRef);
    var d := DeployApply(o, w, ref, req.artifactRef);
    WaitKeepsTable(c, o, d.w, ref, d.w.now + c.readinessTimeout);
    var h := WaitUntilHealthy(c, o, d.w, ref, d.w.now + c.readinessTimeout);
    PublishKeepsTable(c, o, h.w, env.id, req, ref);
    var p := PublishRecords(c, o, h.w, env.id, req, ref);
    UpdateKeeps(o, p.w, ReadyRow(c, env, ref, req.artifactRef, p.w.now));
  }

  lemma {:induction false} LoopKeeps(c: Config, o: Oracle, w: World, env: Environment, req: ApplyRequest, attempt: nat)
    requires RefsGiven(c) && HistoryOk(w.environments) && RowOk(env) && req.artifactRef != ""
    requires 1 <= attempt <= MaxApplyAttempts
    ensures var a := ApplyLoop(c, o, w, env, req, attempt);
      Keeps(w, a.w) && RowOk(a.out.env)
    decreases MaxApplyAttempts - attempt
  {
    hide AttemptApply, HistoryOk, Extends;
    var w1 := if attempt > 1 then Sleep(w, ApplyBackoff(attempt)) else w;
    AttemptKeeps(c, o, w1, env, req);
    var a := AttemptApply(c, o, w1, env, req);
    if a.out.err.Some? && attempt < MaxApplyAttempts {
      LoopKeeps(c, o, a.w, a.out.env, req, attempt + 1);
      ExtendsTransitive(w.environments, a.w.environments, ApplyLoop(c, o, a.w, a.out.env, req, attempt + 1).w.environments);
    }
  }

  lemma GiveUpKeeps(c: Config, o: Oracle, w: World, env: Environment, req: ApplyRequest)
    requires RefsGiven(c) && HistoryOk(w.environments) && RowOk(env)
    ensures Keeps(w, GiveUp(c, o, w, env, req))
  {
    hide AttemptApply, UpdateEnvironment, HistoryOk, Extends;
    UpdateKeeps(o, w, env.(status := Failed));
    if env.lastGoodArtifactRef != "" && env.lastGoodArtifactRef != req.artifactRef {
      var back := req.(artifactRef := env.lastGoodArtifactRef);
      AttemptKeeps(c, o, w, env, back);
      var b := AttemptApply(c, o, w, env, back);
      var row := if b.out.err.None? then b.out.env.(status := Degraded, artifactRef := req.artifactRef)
                 else env.(status := Failed);
      UpdateKeeps(o, b.w, row);
      ExtendsTransitive(w.environments, b.w.environments, UpdateEnvironment(o, b.w, row).w.environments);
    }
  }

  lemma ApplyKeeps(c: Config, o: Oracle, w: World, env: Environment, req: ApplyRequest)
    requires RefsGiven(c) && HistoryOk(w.environments) && RowOk(env) && req.artifactRef != ""
    ensures Keeps(w, DoApply(c, o, w, env, req).w)
  {
    hide ApplyLoop, GiveUp, UpdateEnvironment, HistoryOk, Extends;
    UpdateKeeps(o, w, DeployingRow(env, req));
    var u := UpdateEnvironment(o, w, DeployingRow(env, req));
    if u.out.Ok? {
      LoopKeeps(c, o, u.w, u.out.value, req, 1);
      var a := ApplyLoop(c, o, u.w, u.out.value, req, 1);
      GiveUpKeeps(c, o, a.w, a.out.env, req);
      ExtendsTransitive(w.environments, u.w.environments, a.w.environments);
      ExtendsTransitive(w.environments, a.w.environments, GiveUp(c, o, a.w, a.out.env, req).environments);
    }
  }

  /** A successful write has appended what it returns. */
  lemma WriteAppends(o: Oracle, w: World, env: Environment)
    ensures var u := UpdateEnvironment(o, w, env);
      && u.w.deployCalls == w.deployCalls
      && (u.out.Ok? ==> env.id in w.environments && env.id in u.w.environments
                        && u.w.environments[env.id].All() == w.environments[env.id].All() + [u.out.value]
                        && u.out.value.status == env.status && u.out.value.artifactRef == env.artifactRef)
  {
    hide CanTransition;
  }

  /** Main result: nothing is deployed before the row says deploying, and which revision. */
  lemma ApplyMarksFirst(c: Config, o: Oracle, w: World, env: Environment, req: ApplyRequest)
    requires RefsGiven(c) && HistoryOk(w.environments) && RowOk(env) && req.artifactRef != ""
    ensures var w' := DoApply(c, o, w, env, req).w;
      w'.deployCalls != w.deployCalls ==>
        && env.id in w.environments && env.id in w'.environments
        && var before, after := w.environments[env.id].All(), w'.environments[env.id].All();
           before < after && after[|before|].status == Deploying && after[|before|].artifactRef == req.artifactRef
  {
    hide ApplyLoop, GiveUp, UpdateEnvironment, HistoryOk, Extends;
    UpdateKeeps(o, w, DeployingRow(env, req));
    WriteAppends(o, w, DeployingRow(env, req));
    var u := UpdateEnvironment(o, w, DeployingRow(env, req));
    if u.out.Ok? {
      LoopKeeps(c, o, u.w, u.out.value, req, 1);
      var a := ApplyLoop(c, o, u.w, u.out.value, req, 1);
      GiveUpKeeps(c, o, a.w, a.out.env, req);
      var w' := DoApply(c, o, w, env, req).w;
      assert Extends(a.w.environments, w'.environments) by { ExtendsItself(a.w.environments); }
      ExtendsTransitive(u.w.environments, a.w.environments, w'.environments);
      RowExtends(u.w.environments, w'.environments, env.id);
    }
  }

  lemma RowExtends(t: Table, t': Table, id: EnvId)
    requires Extends(t, t') && id in t
    ensures id in t' && t[id].All() <= t'[id].All()
  {
  }

  lemma TeardownKeeps(c: Config, o: Oracle, w: World, env: Environment)
    requires HistoryOk(w.environments) && RowOk(env)
    ensures Keeps(w, DoDestroy(c, o, w, env).w)
  {
    hide DestroyRecords, DestroyInfrastructure, UpdateEnvironment, HistoryOk, Extends;
    SameHistory(w);
    var l := ListDnsRecords(o, w, env.id);
    var records := if l.out.Ok? then l.out.value else [];
    RecordsKeepTable(o, l.w, records);
    var r := DestroyRecords(o, l.w, records);
    var i := DestroyInfrastructure(c, o, r.w, env);
    InfrastructureKeepsTable(c, o, r.w, env);
    assert i.w.environments == w.environments;
    UpdateKeeps(o, i.w, env.(status := Destroyed));
  }

  lemma DestroyKeeps(c: Config, o: Oracle, w: World, env: Environment)
    requires HistoryOk(w.environments) && RowOk(env)
    ensures Keeps(w, DestroyWithoutEvent(c, o, w, env).w)
  {
    hide DoDestroy, UpdateEnvironment, HistoryOk, Extends;
    TeardownKeeps(c, o, w, env);
    UpdateKeeps(o, w, env.(status := Destroying));
    var u := UpdateEnvironment(o, w, env.(status := Destroying));
    if u.out.Ok? {
      TeardownKeeps(c, o, u.w, u.out.value);
      ExtendsTransitive(w.environments, u.w.environments, DoDestroy(c, o, u.w, u.out.value).w.environments);
    }
  }

  /** Only a ready snapshot is put to sleep and only a sleeping one woken, so the row written stays coherent. */
  lemma SleepWakeKeep(o: Oracle, w: World, env: Environment)
    requires HistoryOk(w.environments) && RowOk(env)
    ensures Keeps(w, DoSleep(o, w, env).w) && Keeps(w, DoWake(o, w, env).w)
  {
    hide UpdateEnvironment, HistoryOk, Extends;
    SameHistory(w);
    var s := DeploySetRunning(o, w, env.deployRef, false);
    var k := DeploySetRunning(o, w, env.deployRef, true);
    if env.status == Ready { UpdateKeeps(o, s.w, env.(status := Sleeping)); }
    if env.status == Sleeping { UpdateKeeps(o, k.w, env.(status := Ready)); }
  }

  lemma UpsertKeeps(o: Oracle, w: World, req: ApplyRequest)
    requires HistoryOk(w.environments)
    ensures var u := UpsertPendingEnvironment(o, w, req);
      Keeps(w, u.w) && (u.out.Ok? ==> RowOk(u.out.value))
  {
    hide VersionsOk;
    var id := EnvId(req.project, req.branch);
    if id in w.environments { CurrentOk(w, id); } else { FirstVersion(NewRow(req)); }
    var u := UpsertPendingEnvironment(o, w, req);
    if u.w.environments != w.environments { FirstVersion(u.w.Current(id)); }
  }

  lemma FirstVersion(row: Environment)
    requires Reserved(row)
    ensures VersionsOk(Versions([], row)) && RowOk(row)
  {
    assert Versions([], row).All() == [row];
  }

  lemma DeliveryKeeps(c: Config, o: Oracle, w: World, req: ApplyRequest)
    requires RefsGiven(c) && HistoryOk(w.environments) && req.artifactRef != ""
    ensures Keeps(w, ApplyDelivery(c, o, w, req).w)
  {
    hide DoApply;
    UpsertKeeps(o, w, req);
    var u := UpsertPendingEnvironment(o, w, req);
    if u.out.Ok? {
      ApplyKeeps(c, o, u.w, u.out.value, req);
      ExtendsTransitive(w.environments, u.w.environments, DoApply(c, o, u.w, u.out.value, req).w.environments);
    }
  }

  lemma PushKeeps(c: Config, o: Oracle, w: World, allowed: bool, req: ApplyRequest)
    requires RefsGiven(c) && HistoryOk(w.environments) && req.artifactRef != ""
    ensures Keeps(w, PushDelivery(c, o, w, allowed, req).w)
  {
    hide ApplyDelivery, UpsertPendingEnvironment, HistoryOk, Extends, LiveIds;
    ExtendsItself(w.environments);
    var a := Admit(c, o, w, allowed, req);
    var n := CountLiveEnvironments(o, GetEnvironment(o, w, EnvId(req.project, req.branch)).w);
    UpsertKeeps(o, n.w, req);
    assert Keeps(w, a.w);
    if a.out == Admitted {
      DeliveryKeeps(c, o, a.w, req);
      ExtendsTransitive(w.environments, a.w.environments, ApplyDelivery(c, o, a.w, req).w.environments);
    }
  }

  // ---------- runs ----------

  // Everything that acts on a row. A snapshot is a row read at some earlier time.
  datatype Op =
    | Push(allowed: bool, req: ApplyRequest)
    | ApiApply(req: ApplyRequest)
    | ReplayApply(snapshot: Environment, req: ApplyRequest)
    | Destroy(snapshot: Environment)
    | ReplayDestroy(snapshot: Environment)
    | PutToSleep(snapshot: Environment)
    | WakeUp(snapshot: Environment)

  ghost predicate Seen(w: World, env: Environment) {
    env.id in w.environments && env in w.environments[env.id].All()
  }

  /** Requests carry an artifact; snapshots are versions the table has held. */
  ghost predicate Admissible(w: World, op: Op) {
    match op
    case Push(_, req) => req.artifactRef != ""
    case ApiApply(req) => req.artifactRef != ""
    case ReplayApply(env, req) => Seen(w, env) && req.artifactRef != ""
    case Destroy(env) => Seen(w, env)
    case ReplayDestroy(env) => Seen(w, env)
    case PutToSleep(env) => Seen(w, env)
    case WakeUp(env) => Seen(w, env)
  }

  function Perform(c: Config, o: Oracle, w: World, op: Op): World
    requires ValidConfig(c)
  {
    match op
    case Push(allowed, req) => PushDelivery(c, o, w, allowed, req).w
    case ApiApply(req) => ApplyDelivery(c, o, w, req).w
    case ReplayApply(env, req) => DoApply(c, o, w, env, req).w
    case Destroy(env) => DestroyWithoutEvent(c, o, w, env).w
    case ReplayDestroy(env) => DoDestroy(c, o, w, env).w
    case PutToSleep(env) => DoSleep(o, w, env).w
    case WakeUp(env) => DoWake(o, w, env).w
  }

  lemma SeenIsOk(w: World, env: Environment)
    requires HistoryOk(w.environments) && Seen(w, env)
    ensures RowOk(env)
  {
  }

  lemma OpKeeps(c: Config, o: Oracle, w: World, op: Op)
    requires RefsGiven(c) && HistoryOk(w.environments) && Admissible(w, op)
    ensures Keeps(w, Perform(c, o, w, op))
  {
    hide PushDelivery, ApplyDelivery, DoApply, DestroyWithoutEvent, DoDestroy, DoSleep, DoWake;
    match op
    case Push(allowed, req) => PushKeeps(c, o, w, allowed, req);
    case ApiApply(req) => DeliveryKeeps(c, o, w, req);
    case ReplayApply(env, req) => SeenIsOk(w, env); ApplyKeeps(c, o, w, env, req);
    case Destroy(env) => SeenIsOk(w, env); DestroyKeeps(c, o, w, env);
    case ReplayDestroy(env) => SeenIsOk(w, env); TeardownKeeps(c, o, w, env);
    case PutToSleep(env) => SeenIsOk(w, env); SleepWakeKeep(o, w, env);
    case WakeUp(env) => SeenIsOk(w, env); SleepWakeKeep(o, w, env);
  }

  /** states[i + 1] is what operation ops[i] made of states[i]; a crash inside an operation is an oracle that falls silent. */
  ghost predicate IsRun(c: Config, states: seq<World>, ops: seq<Op>, oracles: seq<Oracle>)
    requires ValidConfig(c)
  {
    && |states| == |ops| + 1 && |oracles| == |ops|
    && forall i {:trigger ops[i]} :: 0 <= i < |ops| ==>
         Admissible(states[i], ops[i]) && states[i + 1] == Perform(c, oracles[i], states[i], ops[i])
  }

  lemma {:induction false} HistoriesGrow(c: Config, states: seq<World>, ops: seq<Op>, oracles: seq<Oracle>, m: nat, n: nat)
    requires RefsGiven(c) && IsRun(c, states, ops, oracles)
    requires m <= n < |states| && HistoryOk(states[m].environments)
    ensures HistoryOk(states[n].environments) && Extends(states[m].environments, states[n].environments)
    decreases n
  {
    hide HistoryOk, Perform, Admissible, Extends;
    if m == n {
      ExtendsItself(states[n].environments);
    } else {
      HistoriesGrow(c, states, ops, oracles, m, n - 1);
      assert Admissible(states[n - 1], ops[n - 1])
             && states[n - 1 + 1] == Perform(c, oracles[n - 1], states[n - 1], ops[n - 1]);
      OpKeeps(c, oracles[n - 1], states[n - 1], ops[n - 1]);
      ExtendsTransitive(states[m].environments, states[n - 1].environments, states[n].environments);
    }
  }

  lemma ExtendsItself(t: Table)
    ensures Extends(t, t)
  {
  }

  lemma NothingYet(t: Table)
    requires t == map[]
    ensures HistoryOk(t)
  {
  }

  /** Main result: every version of every row reached by any run is coherent, and history is only ever extended. */
  lemma EveryVersionCoherent(c: Config, states: seq<World>, ops: seq<Op>, oracles: seq<Oracle>, n: nat)
    requires RefsGiven(c) && IsRun(c, states, ops, oracles)
    requires states[0].environments == map[]
    requires n < |states|
    ensures HistoryOk(states[n].environments)
    ensures forall m :: 0 <= m <= n ==> Extends(states[m].environments, states[n].environments)
  {
    hide HistoryOk, IsRun, Extends;
    NothingYet(states[0].environments);
    forall m | 0 <= m <= n
      ensures HistoryOk(states[n].environments) && Extends(states[m].environments, states[n].environments)
    {
      HistoriesGrow(c, states, ops, oracles, 0, m);
      HistoriesGrow(c, states, ops, oracles, m, n);
    }
    assert HistoryOk(states[n].environments) by { HistoriesGrow(c, states, ops, oracles, 0, n); }
  }

  function Statuses(rows: seq<Environment>): seq<Status> {
    seq(|rows|, i requires 0 <= i < |rows| => rows[i].status)
  }

  lemma VersionsArePath(v: Versions)
    requires VersionsOk(v)
    ensures LegalPath(Statuses(v.All()))
  {
    var rows := v.All();
    var path := Statuses(rows);
    forall k | 0 < k < |path| ensures CanTransition(path[k - 1], path[k]) {
      assert rows[k] == v.All()[k];
    }
  }

  lemma VersionsRedeploy(v: Versions, i: nat, j: nat)
    requires VersionsOk(v) && i < j < |v.All()|
    requires v.All()[i].status == Destroyed && Serving(v.All()[j].status)
    ensures exists k :: i < k < j && v.All()[k].status == Deploying
  {
    hide VersionsOk, LegalPath;
    VersionsArePath(v);
    var rows := v.All();
    RevivalNeedsDeploying(Statuses(rows), i, j);
    var k :| i < k < j && Statuses(rows)[k] == Deploying;
    assert rows[k].status == Deploying;
  }

  lemma VersionsOf(t: Table, id: EnvId)
    requires HistoryOk(t) && id in t
    ensures VersionsOk(t[id])
  {
  }

  /** In any run, between a destroyed version of a row and a later serving one lies a deploying one. */
  lemma RevivalRedeploys(c: Config, states: seq<World>, ops: seq<Op>, oracles: seq<Oracle>, n: nat, id: EnvId, i: nat, j: nat)
    requires RefsGiven(c) && IsRun(c, states, ops, oracles)
    requires states[0].environments == map[]
    requires n < |states| && id in states[n].environments
    requires i < j < |states[n].environments[id].All()|
    requires states[n].environments[id].All()[i].status == Destroyed
    requires Serving(states[n].environments[id].All()[j].status)
    ensures exists k :: i < k < j && states[n].environments[id].All()[k].status == Deploying
  {
    hide HistoryOk, VersionsOk, IsRun, Extends, RefsGiven;
    EveryVersionCoherent(c, states, ops, oracles, n);
    VersionsOf(states[n].environments, id);
    VersionsRedeploy(states[n].environments[id], i, j);
  }
}
