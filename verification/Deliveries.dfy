/**
 What the answer of a webhook delivery means: the worker retires the event of a delivery that reports success and retries
 that of one that reports an error (internal/core/reconciler.go).
 */
module Deliveries {
  import opened Wrappers
  import opened Transitions
  import opened Calls
  import opened Lifecycle
  import opened ApplyOutcome
  import opened CrashRecovery
  import Attempts
  import Teardown

  /** Every row is stored under its own name. */
  predicate Keyed(t: map<EnvId, Versions>) {
    NoId !in t && forall id :: id in t ==> t[id].current.id == id
  }

  // ---------- admission ----------

  /**
   Main result: nothing that is wanted is skipped and nothing else admitted, whatever fails; with a reliable store the
   wanted deliveries are the admitted ones.
   */
  lemma AdmissionVerdict(c: Config, o: Oracle, w: World, allowed: bool, req: ApplyRequest)
    ensures var a := Admit(c, o, w, allowed, req);
      && (a.out == Skipped ==> !Wanted(c, allowed, req, See(w)) && See(a.w) == See(w))
      && (a.out == Admitted ==> Wanted(c, allowed, req, See(w)))
      && (Reliable(o) ==> a.out == if Wanted(c, allowed, req, See(w)) then Admitted else Skipped)
  {
    hide UpsertPendingEnvironment, CurrentRows, LiveIds, LiveRows;
    InTable(w);
    LiveSeen(w);
    var g := GetEnvironment(o, w, IdOf(req));
    LiveSeen(g.w);
    var n := CountLiveEnvironments(o, g.w);
    if Reliable(o) { UpsertAnswered(o, n.w, req); }
  }

  lemma UpsertAnswered(o: Oracle, w: World, req: ApplyRequest)
    requires Reliable(o)
    ensures UpsertPendingEnvironment(o, w, req).out.Ok?
  {
  }

  /**
   Main result: the row of a branch is created at most once, and then exactly as asked: pending, with nothing deployed,
   nothing known good, no expiry; a row already there is returned as it is.
   */
  lemma UpsertReserves(o: Oracle, w: World, req: ApplyRequest)
    ensures var u := UpsertPendingEnvironment(o, w, req);
      var id := EnvId(req.project, req.branch);
      && u.w.environments - {id} == w.environments - {id} && SameOutside(w, u.w)
      && (u.w.environments != w.environments ==>
            id !in w.environments && id in u.w.environments &&
            var at := u.w.Current(id).createdAt;
            u.w.environments[id] == Versions([], Environment(id, req.prNumber, req.subdomain, req.artifactRef, "", Pending,
                                                             "", "", false, None, at, at))
            && w.now <= at <= u.w.now)
      && (u.out.Ok? ==> id in u.w.environments && u.out.value == u.w.Current(id))
      && (!o(StoreCall, w.calls).ok ==> u.out.Err? && u.w.environments == w.environments)
  {
  }

  // ---------- pushes ----------

  /** The branch is up on the requested revision, as requested, and published under its name. */
  predicate Served(c: Config, w: World, req: ApplyRequest) {
    var id := EnvId(req.project, req.branch);
    && id in w.environments
    && var row := w.Current(id);
       && row.status == Ready && row.prNumber == req.prNumber && row.subdomain == req.subdomain
       && row.artifactRef == row.lastGoodArtifactRef == req.artifactRef && row.lastGoodDeployRef == row.deployRef
       && Attempts.Healthy(w, row.deployRef, req.artifactRef)
       && Attempts.AllPublished(c, w, id, req, row.deployRef)
  }

  /** What an apply hands from attempt to attempt: the row as requested, or the empty row. */
  predicate Carries(env: Environment, req: ApplyRequest) {
    || env.id == NoId
    || (env.id == EnvId(req.project, req.branch) && env.prNumber == req.prNumber && env.subdomain == req.subdomain
        && env.artifactRef == req.artifactRef)
  }

  lemma WriteIsRead(o: Oracle, w: World, env: Environment)
    ensures var u := UpdateEnvironment(o, w, env);
      && u.w.environments.Keys == w.environments.Keys
      && (u.out.Ok? ==> env.id in w.environments && env.id in u.w.environments && u.out.value == u.w.Current(env.id)
                        && u.out.value == env.(createdAt := u.out.value.createdAt, updatedAt := u.out.value.updatedAt))
  {
    hide CanTransition;
  }

  lemma AttemptServes(c: Config, o: Oracle, w: World, env: Environment, req: ApplyRequest)
    requires ValidConfig(c) && NoId !in w.environments && Carries(env, req)
    ensures var a := AttemptApply(c, o, w, env, req);
      && NoId !in a.w.environments && Carries(a.out.env, req)
      && (a.out.err.None? ==> Served(c, a.w, req) && a.out.env == a.w.Current(EnvId(req.project, req.branch)))
  {
    hide WaitUntilHealthy, PublishRecords, UpdateEnvironment, Attempts.AllPublished, Attempts.Healthy;
    Attempts.AttemptInOrder(c, o, w, env, req);
    var ref := c.refOf(req.project, req.branch, env.deployRef);
    var d := DeployApply(o, w, ref, req.artifactRef);
    if d.out.None? {
      Attempts.WaitingPublishesNothing(c, o, d.w, ref, d.w.now + c.readinessTimeout);
      var h := WaitUntilHealthy(c, o, d.w, ref, d.w.now + c.readinessTimeout);
      if h.out.None? {
        Attempts.PublishesInOrder(c, o, h.w, env.id, req, ref);
        var p := PublishRecords(c, o, h.w, env.id, req, ref);
        WriteIsRead(o, p.w, ReadyRow(c, env, ref, req.artifactRef, p.w.now));
      } else {
        Attempts.WaitingPublishesNothing(c, o, d.w, ref, d.w.now + c.readinessTimeout);
      }
    }
  }

  lemma {:induction false} LoopServes(c: Config, o: Oracle, w: World, env: Environment, req: ApplyRequest, attempt: nat)
    requires ValidConfig(c) && NoId !in w.environments && Carries(env, req) && 1 <= attempt <= MaxApplyAttempts
    ensures var a := ApplyLoop(c, o, w, env, req, attempt);
      a.out.err.None? ==> Served(c, a.w, req) && a.out.env == a.w.Current(EnvId(req.project, req.branch))
    decreases MaxApplyAttempts - attempt
  {
    hide AttemptApply, Served, Carries;
    var w1 := if attempt > 1 then Sleep(w, ApplyBackoff(attempt)) else w;
    AttemptServes(c, o, w1, env, req);
    var a := AttemptApply(c, o, w1, env, req);
    if a.out.err.Some? && attempt < MaxApplyAttempts { LoopServes(c, o, a.w, a.out.env, req, attempt + 1); }
  }

  lemma ApplyServes(c: Config, o: Oracle, w: World, env: Environment, req: ApplyRequest)
    requires ValidConfig(c) && NoId !in w.environments && env.id == EnvId(req.project, req.branch)
    ensures var r := DoApply(c, o, w, env, req);
      r.out.Ok? ==> Served(c, r.w, req) && r.out.value == r.w.Current(env.id)
  {
    hide ApplyLoop, GiveUp, UpdateEnvironment, Served;
    WriteIsRead(o, w, DeployingRow(env, req));
    var u := UpdateEnvironment(o, w, DeployingRow(env, req));
    if u.out.Ok? {
      LoopServes(c, o, u.w, u.out.value, req, 1);
      var a := ApplyLoop(c, o, u.w, u.out.value, req, 1);
      if a.out.err.None? { NoticeKeeps(c, o, a.w, req, if IsUpdate(env) then "updated" else "ready"); }
    }
  }

  lemma NoticeKeeps(c: Config, o: Oracle, w: World, req: ApplyRequest, kind: string)
    requires Served(c, w, req)
    ensures Served(c, Notify(o, w, kind), req)
  {
    hide HasRow;
  }

  /**
   Main result: whatever fails, a push reports success only if it was not wanted, and then has changed nothing, or if the
   branch is up on the requested revision and published.
   */
  lemma PushAnswers(c: Config, o: Oracle, w: World, allowed: bool, req: ApplyRequest)
    requires ValidConfig(c) && Keyed(w.environments)
    ensures var r := PushDelivery(c, o, w, allowed, req);
      r.out.None? ==> if Wanted(c, allowed, req, See(w)) then Served(c, r.w, req) else See(r.w) == See(w)
  {
    hide Admit, DoApply, UpsertPendingEnvironment, Wanted, See, Served;
    AdmissionVerdict(c, o, w, allowed, req);
    AdmitKeepsKeys(c, o, w, allowed, req);
    var a := Admit(c, o, w, allowed, req);
    if a.out == Admitted {
      UpsertKeepsKeys(o, a.w, req);
      var u := UpsertPendingEnvironment(o, a.w, req);
      if u.out.Ok? { ApplyServes(c, o, u.w, u.out.value, req); }
    }
  }

  /** Main result: with a reliable store exactly the unwanted and the served pushes are reported as successes. */
  lemma PushVerdict(c: Config, o: Oracle, w: World, allowed: bool, req: ApplyRequest)
    requires ValidConfig(c) && Reliable(o) && Keyed(w.environments) && Applicable(w.environments, IdOf(req))
    ensures var r := PushDelivery(c, o, w, allowed, req);
      r.out.None? <==> !Wanted(c, allowed, req, See(w)) || Served(c, r.w, req)
  {
    hide Admit, DoApply, UpsertPendingEnvironment, Wanted, See, Keyed, Applicable, Reliable;
    AdmissionVerdict(c, o, w, allowed, req);
    PushAnswers(c, o, w, allowed, req);
    var a := Admit(c, o, w, allowed, req);
    if a.out == Admitted {
      AdmitKeepsGoal(c, o, w, allowed, req);
      UpsertAnswered(o, a.w, req);
      UpsertSees(o, a.w, req);
      var u := UpsertPendingEnvironment(o, a.w, req);
      RefusedIsUnserved(c, o, u.w, u.out.value, req);
    }
  }

  lemma RefusedIsUnserved(c: Config, o: Oracle, w: World, env: Environment, req: ApplyRequest)
    requires ValidConfig(c) && Reliable(o) && Fresh(w, env) && Applicable(w.environments, env.id) && env.id == IdOf(req)
    ensures var r := DoApply(c, o, w, env, req); r.out.Err? ==> !Served(c, r.w, req)
  {
    hide DoApply, Reliable, Serves;
    ApplyEnds(c, o, w, env, req);
  }

  lemma UpsertKeepsKeys(o: Oracle, w: World, req: ApplyRequest)
    requires Keyed(w.environments)
    ensures var u := UpsertPendingEnvironment(o, w, req);
      Keyed(u.w.environments) && (u.out.Ok? ==> u.out.value.id == EnvId(req.project, req.branch))
  {
  }

  lemma AdmitKeepsKeys(c: Config, o: Oracle, w: World, allowed: bool, req: ApplyRequest)
    requires Keyed(w.environments)
    ensures Keyed(Admit(c, o, w, allowed, req).w.environments)
  {
    hide UpsertPendingEnvironment, Keyed, LiveIds;
    var n := CountLiveEnvironments(o, GetEnvironment(o, w, EnvId(req.project, req.branch)).w);
    UpsertKeepsKeys(o, n.w, req);
  }

  // ---------- closes ----------

  /** Nothing recorded for the row is left, and it says so. */
  predicate Closed(c: Config, w: World, row: Environment, w': World) {
    && row.id in w'.environments && w'.Current(row.id).status == Destroyed
    && (forall x :: x in w'.dnsRows ==> x.envId != row.id)
    && (forall x :: x in w.dnsRows && x.envId == row.id ==> x.name !in w'.zone)
    && Teardown.InfrastructureGone(c, row, w'.certificates, w'.installed, w'.deployments)
  }

  /** The row is being torn down, or has been. */
  predicate GoingDown(w: World, id: EnvId) {
    id in w.environments && w.Current(id).status in {Destroying, Destroyed}
  }

  lemma TeardownStaysMarked(c: Config, o: Oracle, w: World, env: Environment)
    requires Fresh(w, env) && env.status == Destroying && Teardown.DistinctIds(w.dnsRows)
    ensures GoingDown(DoDestroy(c, o, w, env).w, env.id)
  {
    hide DestroyRecords, RowsOf, DestroyInfrastructure, UpdateEnvironment, DoDestroy;
    var t := Teardown.TornDown(c, o, w, env);
    var _ := Teardown.AllSteps(c, o, w, env);
    EndsMarked(o, t.w, env);
    LastStep(c, o, w, env);
  }

  lemma EndsMarked(o: Oracle, w: World, env: Environment)
    requires GoingDown(w, env.id)
    ensures GoingDown(UpdateEnvironment(o, w, env.(status := Destroyed)).w, env.id)
  {
  }

  lemma LastStep(c: Config, o: Oracle, w: World, env: Environment)
    ensures var t := Teardown.TornDown(c, o, w, env);
      var u := UpdateEnvironment(o, t.w, env.(status := Destroyed));
      var w' := DoDestroy(c, o, w, env).w;
      w'.environments == t.w.environments || w'.environments == u.w.environments
  {
    hide DestroyRecords, RowsOf, DestroyInfrastructure, UpdateEnvironment;
  }

  /** What a close that returned err has come to. */
  predicate CloseTold(c: Config, w: World, id: EnvId, w': World, err: Option<Error>) {
    && (err.None? ==> if id in w.environments then Closed(c, w, w.Current(id), w') else See(w') == See(w))
    && (w'.steps != w.steps ==> GoingDown(w', id))
  }

  /**
   Main result: whatever fails, a close reports success only if there was no row, and then has changed nothing, or if
   nothing recorded for the row is left and it says destroyed; and nothing is torn down under a row that does not say so.
   */
  lemma CloseAnswers(c: Config, o: Oracle, w: World, id: EnvId)
    requires Keyed(w.environments) && Teardown.DistinctIds(w.dnsRows)
    ensures var r := CloseDelivery(c, o, w, id); CloseTold(c, w, id, r.w, r.out)
  {
    hide DoDestroy, UpdateEnvironment, Teardown.DistinctIds, Closed;
    var g := GetEnvironment(o, w, id);
    if g.out.Ok? {
      var env := g.out.value;
      if env.status == Destroying {
        TeardownAnswers(c, o, w, g.w, env, env);
      } else {
        MarkedRow(o, g.w, env);
        var u := UpdateEnvironment(o, g.w, env.(status := Destroying));
        if u.out.Ok? { TeardownAnswers(c, o, w, u.w, env, u.out.value); }
      }
    } else {
      assert See(g.w) == See(w);
    }
  }

  /** A row already being torn down is torn down as it stands: it is not marked again, and a pass that fails leaves it alone. */
  lemma MarkedIsNotMarkedAgain(c: Config, o: Oracle, w: World, id: EnvId) returns (pass: seq<TeardownStep>)
    requires Keyed(w.environments) && Teardown.DistinctIds(w.dnsRows)
    requires id in w.environments && w.Current(id).status == Destroying && o(StoreCall, w.calls).ok
    ensures var r := CloseDelivery(c, o, w, id);
      Teardown.PassDone(c, o, Tick(o, w, StoreCall), w.Current(id), r.w, r.out, pass)
  {
    hide DoDestroy, Teardown.DistinctIds, Teardown.PassDone;
    var env := w.Current(id);
    pass := Teardown.TeardownPass(c, o, Tick(o, w, StoreCall), env);
  }

  lemma MarkedRow(o: Oracle, w: World, env: Environment)
    ensures var u := UpdateEnvironment(o, w, env.(status := Destroying));
      && u.w.steps == w.steps && u.w.dnsRows == w.dnsRows && u.w.zone == w.zone
      && (u.out.Ok? ==> Fresh(u.w, u.out.value) && u.out.value.status == Destroying && u.out.value.id == env.id
                        && u.out.value.subdomain == env.subdomain && u.out.value.deployRef == env.deployRef)
  {
    hide CanTransition;
  }

  lemma TeardownAnswers(c: Config, o: Oracle, w: World, w1: World, was: Environment, env: Environment)
    requires Fresh(w1, env) && env.status == Destroying && Teardown.DistinctIds(w1.dnsRows)
    requires w1.dnsRows == w.dnsRows && w1.steps == w.steps
    requires was.id == env.id && was.subdomain == env.subdomain && was.deployRef == env.deployRef
    ensures var r := DoDestroy(c, o, w1, env);
      (r.out.None? ==> Closed(c, w, was, r.w)) && GoingDown(r.w, env.id)
  {
    hide DoDestroy, Teardown.DistinctIds, Teardown.RowsLeft, Teardown.ZoneFramed, Teardown.Attempted, Teardown.AllTried,
      Teardown.OthersKept, Teardown.SomeStepFailed;
    TeardownStaysMarked(c, o, w1, env);
    var _ := Teardown.TeardownPass(c, o, w1, env);
  }
}
