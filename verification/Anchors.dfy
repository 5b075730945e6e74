/**
 What the recovery from failures relies on holds of every row that any run has produced under one rule for choosing
 references: the row deploys where a first deployment of its branch would.
 */
module Anchors {
  import opened Transitions
  import opened Calls
  import opened Lifecycle
  import opened RowHistory
  import CrashRecovery
  import FailureRecovery

  function RefAt(c: Config, id: EnvId, previous: string): string
    requires id.EnvId?
  {
    c.refOf(id.project, id.branch, previous)
  }

  /** The row names a branch and deploys where its first deployment would. */
  predicate AtHome(c: Config, e: Environment) {
    e.id.EnvId? && RefAt(c, e.id, e.deployRef) == RefAt(c, e.id, "")
  }

  /** What passes hand on: a row at home, or the empty row. */
  predicate Handed(c: Config, e: Environment) {
    e.id == NoId || AtHome(c, e)
  }

  predicate VersionsAtHome(c: Config, id: EnvId, v: Versions) {
    forall e :: e in v.All() ==> e.id == id && AtHome(c, e) && !e.status.Unknown?
  }

  predicate AllAtHome(c: Config, t: map<EnvId, Versions>) {
    forall id :: id in t ==> VersionsAtHome(c, id, t[id])
  }

  lemma OneMore(c: Config, id: EnvId, v: Versions, row: Environment)
    requires VersionsAtHome(c, id, v) && row.id == id && AtHome(c, row) && !row.status.Unknown?
    ensures VersionsAtHome(c, id, Versions(v.All(), row))
  {
    assert forall e :: e in Versions(v.All(), row).All() ==> e in v.All() || e == row;
  }

  lemma CurrentAtHome(c: Config, w: World, id: EnvId)
    requires AllAtHome(c, w.environments) && id in w.environments
    ensures w.Current(id).id == id && AtHome(c, w.Current(id)) && !w.Current(id).status.Unknown?
  {
    assert w.Current(id) in w.environments[id].All();
  }

  lemma UpdateStays(c: Config, o: Oracle, w: World, env: Environment)
    requires AllAtHome(c, w.environments) && Handed(c, env)
    ensures var u := UpdateEnvironment(o, w, env);
      AllAtHome(c, u.w.environments) && (u.out.Ok? ==> u.out.value.id == env.id && AtHome(c, u.out.value))
  {
    hide VersionsAtHome, AtHome;
    var t, w' := w.environments, UpdateEnvironment(o, w, env).w;
    if env.id in t { CurrentAtHome(c, w, env.id); }
    if w'.environments != t {
      var row := w'.Current(env.id);
      if env.status.Unknown? { UnknownIsIsolated(env.status, t[env.id].current.status); }
      Stamped(c, env, row);
      OneMore(c, env.id, t[env.id], row);
    }
    Stamped(c, env, env.(createdAt := 0));
    if env.id in w'.environments { CurrentAtHome(c, w', env.id); }
  }

  lemma Stamped(c: Config, e: Environment, f: Environment)
    requires Handed(c, e) && f.id == e.id && f.deployRef == e.deployRef
    ensures Handed(c, f) && (e.id != NoId ==> AtHome(c, f))
  {
  }

  /** The request is about the row, or the row is the empty one. */
  predicate About(e: Environment, req: ApplyRequest) {
    e.id == NoId || e.id == EnvId(req.project, req.branch)
  }

  lemma AttemptStays(c: Config, o: Oracle, w: World, env: Environment, req: ApplyRequest)
    requires ValidConfig(c) && CrashRecovery.RefsStable(c)
    requires AllAtHome(c, w.environments) && Handed(c, env) && About(env, req)
    ensures var a := AttemptApply(c, o, w, env, req);
      AllAtHome(c, a.w.environments) && Handed(c, a.out.env) && About(a.out.env, req)
  {
    hide AllAtHome, WaitUntilHealthy, PublishRecords, UpdateEnvironment;
    var ref := c.refOf(req.project, req.branch, env.deployRef);
    var d := DeployApply(o, w, ref, req.artifactRef);
    WaitKeepsTable(c, o, d.w, ref, d.w.now + c.readinessTimeout);
    var h := WaitUntilHealthy(c, o, d.w, ref, d.w.now + c.readinessTimeout);
    PublishKeepsTable(c, o, h.w, env.id, req, ref);
    var p := PublishRecords(c, o, h.w, env.id, req, ref);
    UpdateStays(c, o, p.w, ReadyRow(c, env, ref, req.artifactRef, p.w.now));
  }

  lemma {:induction false} LoopStays(c: Config, o: Oracle, w: World, env: Environment, req: ApplyRequest, attempt: nat)
    requires ValidConfig(c) && CrashRecovery.RefsStable(c) && 1 <= attempt <= MaxApplyAttempts
    requires AllAtHome(c, w.environments) && Handed(c, env) && About(env, req)
    ensures var a := ApplyLoop(c, o, w, env, req, attempt);
      AllAtHome(c, a.w.environments) && Handed(c, a.out.env) && About(a.out.env, req)
    decreases MaxApplyAttempts - attempt
  {
    hide AttemptApply, AllAtHome, Handed;
    var w1 := if attempt > 1 then Sleep(w, ApplyBackoff(attempt)) else w;
    AttemptStays(c, o, w1, env, req);
    var a := AttemptApply(c, o, w1, env, req);
    if a.out.err.Some? && attempt < MaxApplyAttempts { LoopStays(c, o, a.w, a.out.env, req, attempt + 1); }
  }

  lemma GiveUpStays(c: Config, o: Oracle, w: World, env: Environment, req: ApplyRequest)
    requires ValidConfig(c) && CrashRecovery.RefsStable(c)
    requires AllAtHome(c, w.environments) && Handed(c, env) && About(env, req)
    ensures AllAtHome(c, GiveUp(c, o, w, env, req).environments)
  {
    hide AttemptApply, AllAtHome, UpdateEnvironment;
    UpdateStays(c, o, w, env.(status := Failed));
    var back := req.(artifactRef := env.lastGoodArtifactRef);
    AttemptStays(c, o, w, env, back);
    var b := AttemptApply(c, o, w, env, back);
    UpdateStays(c, o, b.w, b.out.env.(status := Degraded, artifactRef := req.artifactRef));
    UpdateStays(c, o, b.w, env.(status := Failed));
  }

  lemma ApplyStays(c: Config, o: Oracle, w: World, env: Environment, req: ApplyRequest)
    requires ValidConfig(c) && CrashRecovery.RefsStable(c)
    requires AllAtHome(c, w.environments) && Handed(c, env) && About(env, req)
    ensures AllAtHome(c, DoApply(c, o, w, env, req).w.environments)
  {
    hide ApplyLoop, GiveUp, AllAtHome, UpdateEnvironment;
    UpdateStays(c, o, w, DeployingRow(env, req));
    var u := UpdateEnvironment(o, w, DeployingRow(env, req));
    if u.out.Ok? {
      LoopStays(c, o, u.w, u.out.value, req, 1);
      var a := ApplyLoop(c, o, u.w, u.out.value, req, 1);
      GiveUpStays(c, o, a.w, a.out.env, req);
    }
  }

  lemma TeardownStays(c: Config, o: Oracle, w: World, env: Environment)
    requires AllAtHome(c, w.environments) && Handed(c, env)
    ensures AllAtHome(c, DoDestroy(c, o, w, env).w.environments)
  {
    hide AllAtHome, UpdateEnvironment, DestroyRecords;
    var l := ListDnsRecords(o, w, env.id);
    var records := if l.out.Ok? then l.out.value else [];
    RecordsKeepTable(o, l.w, records);
    var i := DestroyInfrastructure(c, o, DestroyRecords(o, l.w, records).w, env);
    assert i.w.environments == w.environments;
    UpdateStays(c, o, i.w, env.(status := Destroyed));
  }

  lemma DestroyStays(c: Config, o: Oracle, w: World, env: Environment)
    requires AllAtHome(c, w.environments) && Handed(c, env)
    ensures AllAtHome(c, DestroyWithoutEvent(c, o, w, env).w.environments)
  {
    hide AllAtHome, UpdateEnvironment, DoDestroy;
    TeardownStays(c, o, w, env);
    UpdateStays(c, o, w, env.(status := Destroying));
    var u := UpdateEnvironment(o, w, env.(status := Destroying));
    if u.out.Ok? { TeardownStays(c, o, u.w, u.out.value); }
  }

  lemma SleepWakeStay(c: Config, o: Oracle, w: World, env: Environment)
    requires AllAtHome(c, w.environments) && Handed(c, env)
    ensures AllAtHome(c, DoSleep(o, w, env).w.environments) && AllAtHome(c, DoWake(o, w, env).w.environments)
  {
    hide AllAtHome, UpdateEnvironment;
    UpdateStays(c, o, DeploySetRunning(o, w, env.deployRef, false).w, env.(status := Sleeping));
    UpdateStays(c, o, DeploySetRunning(o, w, env.deployRef, true).w, env.(status := Ready));
  }

  lemma UpsertStays(c: Config, o: Oracle, w: World, req: ApplyRequest)
    requires AllAtHome(c, w.environments)
    ensures var u := UpsertPendingEnvironment(o, w, req);
      AllAtHome(c, u.w.environments) && (u.out.Ok? ==> Handed(c, u.out.value) && About(u.out.value, req))
  {
    var id := EnvId(req.project, req.branch);
    if id in w.environments { CurrentAtHome(c, w, id); }
  }

  lemma DeliveryStays(c: Config, o: Oracle, w: World, req: ApplyRequest)
    requires ValidConfig(c) && CrashRecovery.RefsStable(c) && AllAtHome(c, w.environments)
    ensures AllAtHome(c, ApplyDelivery(c, o, w, req).w.environments)
  {
    hide DoApply, UpsertPendingEnvironment, AllAtHome;
    UpsertStays(c, o, w, req);
    var u := UpsertPendingEnvironment(o, w, req);
    if u.out.Ok? { ApplyStays(c, o, u.w, u.out.value, req); }
  }

  lemma PushStays(c: Config, o: Oracle, w: World, allowed: bool, req: ApplyRequest)
    requires ValidConfig(c) && CrashRecovery.RefsStable(c) && AllAtHome(c, w.environments)
    ensures AllAtHome(c, PushDelivery(c, o, w, allowed, req).w.environments)
  {
    hide ApplyDelivery, UpsertPendingEnvironment, AllAtHome;
    var n := CountLiveEnvironments(o, GetEnvironment(o, w, EnvId(req.project, req.branch)).w);
    UpsertStays(c, o, n.w, req);
    var a := Admit(c, o, w, allowed, req);
    if a.out == Admitted { DeliveryStays(c, o, a.w, req); }
  }

  // ---------- runs ----------

  /** An apply event carries the request it was written for, about the row it was written for. */
  predicate NamesItsRow(op: Op) {
    op.ReplayApply? ==> op.snapshot.id == EnvId(op.req.project, op.req.branch)
  }

  lemma SeenAtHome(c: Config, w: World, env: Environment)
    requires AllAtHome(c, w.environments) && Seen(w, env)
    ensures Handed(c, env)
  {
  }

  lemma OpStays(c: Config, o: Oracle, w: World, op: Op)
    requires ValidConfig(c) && CrashRecovery.RefsStable(c)
    requires AllAtHome(c, w.environments) && Admissible(w, op) && NamesItsRow(op)
    ensures AllAtHome(c, Perform(c, o, w, op).environments)
  {
    hide PushDelivery, ApplyDelivery, DoApply, DestroyWithoutEvent, DoDestroy, DoSleep, DoWake, AllAtHome, Handed, Seen;
    match op
    case Push(allowed, req) => PushStays(c, o, w, allowed, req);
    case ApiApply(req) => DeliveryStays(c, o, w, req);
    case ReplayApply(env, req) => SeenAtHome(c, w, env); ApplyStays(c, o, w, env, req);
    case Destroy(env) => SeenAtHome(c, w, env); DestroyStays(c, o, w, env);
    case ReplayDestroy(env) => SeenAtHome(c, w, env); TeardownStays(c, o, w, env);
    case PutToSleep(env) => SeenAtHome(c, w, env); SleepWakeStay(c, o, w, env);
    case WakeUp(env) => SeenAtHome(c, w, env); SleepWakeStay(c, o, w, env);
  }

  /**
   Main result: every version of every row reached by any run, from snapshots of any age and whatever fails, is stored
   under its own name in a known status, and deploys where a first deployment would.
   */
  lemma {:induction false} EveryRowIsAtHome(c: Config, states: seq<World>, ops: seq<Op>, oracles: seq<Oracle>, n: nat)
    requires ValidConfig(c) && CrashRecovery.RefsStable(c) && IsRun(c, states, ops, oracles)
    requires forall i :: 0 <= i < |ops| ==> NamesItsRow(ops[i])
    requires states[0].environments == map[] && n < |states|
    ensures AllAtHome(c, states[n].environments)
  {
    hide Perform, Admissible, NamesItsRow, VersionsAtHome, CrashRecovery.RefsStable;
    if n > 0 {
      EveryRowIsAtHome(c, states, ops, oracles, n - 1);
      assert Admissible(states[n - 1], ops[n - 1])
             && states[n - 1 + 1] == Perform(c, oracles[n - 1], states[n - 1], ops[n - 1]);
      OpStays(c, oracles[n - 1], states[n - 1], ops[n - 1]);
    }
  }

  lemma HomeIsAnchored(c: Config, req: ApplyRequest, w: World)
    requires AllAtHome(c, w.environments)
    requires CrashRecovery.IdOf(req) in w.environments ==> w.Current(CrashRecovery.IdOf(req)).status != Destroying
    ensures FailureRecovery.Anchored(c, req, w.environments)
  {
    var id := CrashRecovery.IdOf(req);
    if id in w.environments { CurrentAtHome(c, w, id); }
    if NoId in w.environments { CurrentAtHome(c, w, NoId); }
  }

  /**
   Main result: in every state that any run reaches, a push to a branch that is not being torn down survives any number
   of passes that fail in any way: one clean replay ends where one undisturbed run would have.
   */
  lemma ReachedPushesSurvive(c: Config, states: seq<World>, ops: seq<Op>, oracles: seq<Oracle>, n: nat, allowed: bool,
                             req: ApplyRequest, passes: seq<Oracle>, replay: Oracle, clean: Oracle)
    requires ValidConfig(c) && CrashRecovery.RefsStable(c) && IsRun(c, states, ops, oracles)
    requires forall i :: 0 <= i < |ops| ==> NamesItsRow(ops[i])
    requires states[0].environments == map[] && n < |states|
    requires CrashRecovery.AllOk(replay) && CrashRecovery.AllOk(clean)
    requires CrashRecovery.IdOf(req) in states[n].environments ==>
               states[n].Current(CrashRecovery.IdOf(req)).status != Destroying
    ensures var w := states[n];
      var undisturbed := PushDelivery(c, clean, w, allowed, req);
      var recovered := PushDelivery(c, replay, FailureRecovery.FailedPushes(c, w, allowed, req, passes), allowed, req);
      undisturbed.out.None? && recovered.out.None? && CrashRecovery.See(recovered.w) == CrashRecovery.See(undisturbed.w)
  {
    hide PushDelivery, Perform, Admissible, NamesItsRow, AllAtHome, FailureRecovery.Anchored, CrashRecovery.See,
      CrashRecovery.AllOk, FailureRecovery.FailedPushes, CrashRecovery.RefsStable;
    EveryRowIsAtHome(c, states, ops, oracles, n);
    HomeIsAnchored(c, req, states[n]);
    FailureRecovery.PushSurvivesFailures(c, states[n], allowed, req, passes, replay, clean);
  }
}
