/**
 Recovery of a push from failures of any kind, those of the store included: writes refused, writes that took effect and
 were reported lost, and the empty rows that attempts go on from afterwards. It needs the row to carry the reference
 that a first deployment would choose, so that an attempt on an empty row deploys to the same place.
 */
module FailureRecovery {
  import opened Transitions
  import opened Calls
  import opened Lifecycle
  import opened ApplyOutcome
  import opened CrashRecovery

  /** The row, if there is one, deploys where an empty row would; nothing is stored under the empty id. */
  predicate Anchored(c: Config, req: ApplyRequest, t: map<EnvId, Versions>) {
    && NoId !in t && Applicable(t, IdOf(req))
    && (IdOf(req) in t ==> RefFor(c, req, t[IdOf(req)].current.deployRef) == RefFor(c, req, ""))
  }

  /** The goal is kept, and so is what the recovery relies on. */
  ghost predicate Onward(c: Config, req: ApplyRequest, w: World, w': World) {
    && Towards(c, req, w, w')
    && (Anchored(c, req, w.environments) ==> Anchored(c, req, w'.environments))
  }

  lemma OnwardTransitive(c: Config, req: ApplyRequest, w: World, w': World, w'': World)
    requires Onward(c, req, w, w') && Onward(c, req, w', w'')
    ensures Onward(c, req, w, w'')
  {
    hide Towards, Anchored;
    TowardsTransitive(c, req, w, w', w'');
  }

  lemma OnwardSame(c: Config, req: ApplyRequest, w: World, w': World)
    requires w'.environments == w.environments && w'.calls >= w.calls && SameGoal(c, req, w, w')
    ensures Onward(c, req, w, w')
  {
    hide SameGoal, Applicable;
  }

  /** env is a version of the request's row: writing it keeps what the goal depends on. */
  predicate Alike(c: Config, t: map<EnvId, Versions>, env: Environment, req: ApplyRequest) {
    && env.id == IdOf(req) && IdOf(req) in t && t[IdOf(req)].current.pinned == env.pinned
    && RefFor(c, req, env.deployRef) == RefFor(c, req, "")
  }

  /** What an attempt may be given: the deploying row as the table holds it, or the empty row. */
  predicate Carried(c: Config, w: World, env: Environment, req: ApplyRequest) {
    || (env == ZeroEnvironment && IdOf(req) in w.environments)
    || (Fresh(w, env) && Alike(c, w.environments, env, req) && env.status == Deploying)
  }

  lemma RowIsFresh(c: Config, w: World, req: ApplyRequest)
    requires Anchored(c, req, w.environments) && IdOf(req) in w.environments
    ensures Fresh(w, w.Current(IdOf(req))) && w.Current(IdOf(req)).id == IdOf(req)
    ensures Alike(c, w.environments, w.Current(IdOf(req)), req)
  {
  }

  /** Whatever becomes of a write, the row is still an anchored version of itself. */
  lemma WriteStaysAnchored(c: Config, o: Oracle, w: World, env: Environment, req: ApplyRequest)
    requires Anchored(c, req, w.environments) && Alike(c, w.environments, env, req)
    requires env.status != Destroying && !env.status.Unknown?
    ensures var u := UpdateEnvironment(o, w, env);
      && Anchored(c, req, u.w.environments) && Alike(c, u.w.environments, env, req)
      && IdOf(req) in u.w.environments
  {
    hide RefFor, CanTransition;
  }

  lemma WriteIsRead(o: Oracle, w: World, env: Environment)
    requires env.id in w.environments
    ensures var u := UpdateEnvironment(o, w, env);
      && u.w.calls > w.calls
      && (u.out.Ok? ==> Fresh(u.w, u.out.value) && Untimed(u.out.value) == Untimed(env))
  {
    hide CanTransition;
  }

  /** Any write of the row, refused, applied or lost. */
  lemma AnyWrite(c: Config, o: Oracle, w: World, env: Environment, req: ApplyRequest)
    requires Anchored(c, req, w.environments) && Alike(c, w.environments, env, req)
    requires env.status != Destroying && !env.status.Unknown?
    ensures var u := UpdateEnvironment(o, w, env);
      && Onward(c, req, w, u.w) && Alike(c, u.w.environments, env, req)
      && (u.out.Ok? ==> Fresh(u.w, u.out.value) && Untimed(u.out.value) == Untimed(env))
  {
    hide UpdateEnvironment, SameGoal, RefFor;
    RowIsFresh(c, w, req);
    WriteKeepsGoal(c, o, w, env, w.Current(IdOf(req)), req);
    WriteStaysAnchored(c, o, w, env, req);
    WriteIsRead(o, w, env);
  }

  lemma NotifiedWrite(c: Config, o: Oracle, w: World, env: Environment, req: ApplyRequest, kind: string)
    requires Anchored(c, req, w.environments) && Alike(c, w.environments, env, req)
    requires env.status != Destroying && !env.status.Unknown?
    ensures Onward(c, req, w, Notify(o, UpdateEnvironment(o, w, env).w, kind))
  {
    hide Onward, UpdateEnvironment, Anchored, Alike;
    AnyWrite(c, o, w, env, req);
    var u := UpdateEnvironment(o, w, env);
    Notified(c, o, req, u.w, kind);
    OnwardTransitive(c, req, w, u.w, Notify(o, u.w, kind));
  }

  lemma Notified(c: Config, o: Oracle, req: ApplyRequest, w: World, kind: string)
    ensures Onward(c, req, w, Notify(o, w, kind))
  {
    assert See(Notify(o, w, kind)) == See(w);
    OnwardSame(c, req, w, Notify(o, w, kind));
  }

  // ---------- attempts on the empty row ----------

  lemma RecordForNobody(o: Oracle, w: World, name: string, value: string, tag: string)
    requires NoId !in w.environments
    ensures var r := RecordDnsRow(o, w, NoId, name, value, tag);
      r.w.environments == w.environments && r.w.calls >= w.calls && See(r.w) == See(w)
  {
    hide RowsOf, HasRow, CurrentRows, RowSet;
  }

  /** Publishing for the empty id may do what publishing does, but records no row. */
  lemma PublishForNobody(c: Config, o: Oracle, w: World, req: ApplyRequest, sent: ApplyRequest, ref: string)
    requires sent.(artifactRef := req.artifactRef) == req && NoId !in w.environments
    ensures var p := PublishRecords(c, o, w, NoId, sent, ref);
      && p.w.environments == w.environments && p.w.calls >= w.calls
      && PublishShape(c, req, ref, See(w), See(p.w), false)
  {
    hide RecordDnsRow, RecordShape, RowSet, CurrentRows;
    var name, tag := Fqdn(c, req.subdomain), c.tagOf(req.project, req.branch);
    var d := EnsureRecord(o, w, name, c.addrOf(ref), tag);
    var t := EnsureCertificate(o, d.w, name);
    var i := if c.installsCertificates && c.issuesPem then InstallCertificate(o, t.w, name) else t;
    RecordForNobody(o, i.w, name, c.addrOf(ref), tag);
    ShapeReflexive(c, req, ref, See(w));
  }

  /** An attempt on the empty row fails, and moves no goal. */
  lemma EmptyAttempt(c: Config, o: Oracle, w: World, req: ApplyRequest, sent: ApplyRequest)
    requires ValidConfig(c) && sent.(artifactRef := req.artifactRef) == req
    requires Anchored(c, req, w.environments) && IdOf(req) in w.environments
    ensures var a := AttemptApply(c, o, w, ZeroEnvironment, sent);
      a.out.err.Some? && a.out.env == ZeroEnvironment && a.w.environments == w.environments && Onward(c, req, w, a.w)
  {
    hide Onward, SameGoal, PublishRecords, WaitUntilHealthy, PublishShape, DeployApply, See, Applicable, CurrentRows;
    var row := w.Current(IdOf(req));
    RowIsFresh(c, w, req);
    DeployKeepsGoal(c, o, w, row, req, sent);
    var ref := RefFor(c, req, "");
    var d := DeployApply(o, w, ref, sent.artifactRef);
    var h := WaitUntilHealthy(c, o, d.w, ref, d.w.now + c.readinessTimeout);
    PublishForNobody(c, o, h.w, req, sent, ref);
    var p := PublishRecords(c, o, h.w, NoId, sent, ref);
    PublishMovesNoGoal(c, req, h.w, p.w, ref);
    GoalTransitive(c, req, w, h.w, p.w);
    OnwardSame(c, req, w, d.w);
    OnwardSame(c, req, w, h.w);
    OnwardSame(c, req, w, p.w);
    var u := UpdateEnvironment(o, p.w, ReadyRow(c, ZeroEnvironment, ref, sent.artifactRef, p.w.now));
    NoSuchRow(c, o, p.w, ReadyRow(c, ZeroEnvironment, ref, sent.artifactRef, p.w.now), req);
    OnwardTransitive(c, req, w, p.w, u.w);
  }

  lemma PublishMovesNoGoal(c: Config, req: ApplyRequest, w: World, w': World, ref: string)
    requires IdOf(req) in w.environments && ref == RefFor(c, req, w.Current(IdOf(req)).deployRef)
    requires PublishShape(c, req, ref, See(w), See(w'), false)
    ensures SameGoal(c, req, w, w')
  {
    hide PublishShape, Deployed;
    assert BaseRow(req, See(w).rows).deployRef == w.Current(IdOf(req)).deployRef;
    PublishKeepsGoal(c, req, See(w), See(w'), false);
  }

  lemma NoSuchRow(c: Config, o: Oracle, w: World, env: Environment, req: ApplyRequest)
    requires env.id == NoId && NoId !in w.environments
    ensures var u := UpdateEnvironment(o, w, env);
      u.out.Err? && u.w.environments == w.environments && Onward(c, req, w, u.w)
  {
    var u := UpdateEnvironment(o, w, env);
    assert See(u.w) == See(w);
    OnwardSame(c, req, w, u.w);
  }

  /**
   The anchor is needed: an attempt on the empty row that gets as far as deploying keeps the goal if and only if the
   reference it deploys to is the row's own; otherwise it leaves a deployment that no replay takes away.
   */
  lemma EmptyAttemptStrays(c: Config, o: Oracle, w: World, req: ApplyRequest)
    requires ValidConfig(c) && NoId !in w.environments && Applicable(w.environments, IdOf(req))
    requires IdOf(req) in w.environments
    requires o(ProviderCall, w.calls).Acts() && RefFor(c, req, "") !in w.deployments
    ensures SameGoal(c, req, w, AttemptApply(c, o, w, ZeroEnvironment, req).w) <==>
            RefFor(c, req, w.Current(IdOf(req)).deployRef) == RefFor(c, req, "")
  {
    hide SameGoal, AttemptApply;
    var own, empty := RefFor(c, req, w.Current(IdOf(req)).deployRef), RefFor(c, req, "");
    if own == empty {
      EmptyAttempt(c, o, w, req, req);
      OnwardParts(c, req, w, AttemptApply(c, o, w, ZeroEnvironment, req).w);
    } else {
      EmptyAttemptDeploys(c, o, w, req);
      StrayIsSeen(c, req, w, AttemptApply(c, o, w, ZeroEnvironment, req).w, empty);
    }
  }

  lemma EmptyAttemptDeploys(c: Config, o: Oracle, w: World, req: ApplyRequest)
    requires ValidConfig(c) && NoId !in w.environments && o(ProviderCall, w.calls).Acts()
    ensures var a := AttemptApply(c, o, w, ZeroEnvironment, req);
      RefFor(c, req, "") in a.w.deployments && a.w.environments == w.environments
  {
    hide PublishRecords, WaitUntilHealthy;
    var ref := RefFor(c, req, "");
    var d := DeployApply(o, w, ref, req.artifactRef);
    var same := d.w.deployments[ref];
    WaitKeepsGoal(c, o, d.w, ref, d.w.now + c.readinessTimeout, same);
    WaitKeepsKeys(c, o, d.w, ref, d.w.now + c.readinessTimeout);
    var h := WaitUntilHealthy(c, o, d.w, ref, d.w.now + c.readinessTimeout);
    PublishForNobody(c, o, h.w, req, req, ref);
  }

  lemma {:induction false} WaitKeepsKeys(c: Config, o: Oracle, w: World, ref: string, deadline: int)
    requires ValidConfig(c)
    ensures WaitUntilHealthy(c, o, w, ref, deadline).w.deployments.Keys == w.deployments.Keys
    decreases if w.now < deadline then deadline - w.now else 0
  {
    if o(ProviderCall, w.calls).ok {
      var h := HealthCheck(o, Tick(o, w, ProviderCall), ref);
      if h.out == Unhealthy && h.w.now < deadline {
        WaitKeepsKeys(c, o, Sleep(h.w, c.readinessPollInterval), ref, deadline);
      }
    }
  }

  lemma StrayIsSeen(c: Config, req: ApplyRequest, w: World, w': World, stray: string)
    requires IdOf(req) in w.environments && w'.environments == w.environments
    requires stray !in w.deployments && stray in w'.deployments
    requires stray != RefFor(c, req, w.Current(IdOf(req)).deployRef)
    ensures !SameGoal(c, req, w, w')
  {
    assert stray in Deployed(c, req, See(w')).deployments;
    assert stray !in Deployed(c, req, See(w)).deployments;
  }

  // ---------- any attempt, and the whole apply ----------

  lemma RowAttempt(c: Config, o: Oracle, w: World, env: Environment, req: ApplyRequest, sent: ApplyRequest)
    requires ValidConfig(c) && RefsStable(c) && sent.(artifactRef := req.artifactRef) == req
    requires Anchored(c, req, w.environments) && Fresh(w, env) && Alike(c, w.environments, env, req)
    requires env.status == Deploying
    ensures var a := AttemptApply(c, o, w, env, sent);
      && Onward(c, req, w, a.w) && Alike(c, a.w.environments, env, req)
      && (a.out.err.Some? ==> Carried(c, a.w, a.out.env, req))
      && (a.out.err.None? ==> Fresh(a.w, a.out.env) && Alike(c, a.w.environments, a.out.env, req))
  {
    hide Onward, SameGoal, WaitUntilHealthy, PublishRecords, DeployApply, UpdateEnvironment, See, RefsStable, Applicable,
      AttemptApply, Anchored;
    AttemptParts(c, o, w, env, req, sent);
    DeployKeepsGoal(c, o, w, env, req, sent);
    PublishKeepsStep(c, o, w, env, req, sent);
    var ref := RefFor(c, req, env.deployRef);
    var d := DeployApply(o, w, ref, sent.artifactRef);
    var h := WaitUntilHealthy(c, o, d.w, ref, d.w.now + c.readinessTimeout);
    var p := PublishRecords(c, o, h.w, env.id, sent, ref);
    OnwardSame(c, req, w, d.w);
    OnwardSame(c, req, w, h.w);
    OnwardSame(c, req, w, p.w);
    var row := ReadyRow(c, env, ref, sent.artifactRef, p.w.now);
    RefAgain(c, req, env.deployRef);
    AnyWrite(c, o, p.w, row, req);
    OnwardTransitive(c, req, w, p.w, UpdateEnvironment(o, p.w, row).w);
  }

  lemma RefAgain(c: Config, req: ApplyRequest, prev: string)
    requires RefsStable(c)
    ensures RefFor(c, req, RefFor(c, req, prev)) == RefFor(c, req, prev)
  {
  }

  lemma {:induction false} AnyLoop(c: Config, o: Oracle, w: World, env: Environment, req: ApplyRequest, attempt: nat)
    requires ValidConfig(c) && RefsStable(c) && 1 <= attempt <= MaxApplyAttempts
    requires Anchored(c, req, w.environments) && Carried(c, w, env, req)
    ensures var a := ApplyLoop(c, o, w, env, req, attempt);
      Onward(c, req, w, a.w) && (a.out.err.Some? ==> Carried(c, a.w, a.out.env, req))
    decreases MaxApplyAttempts - attempt
  {
    hide AttemptApply, Onward, Anchored, Alike, RefsStable;
    var w1 := if attempt > 1 then Sleep(w, ApplyBackoff(attempt)) else w;
    Slept(c, req, w, w1);
    AnyAttempt(c, o, w1, env, req, req);
    var a := AttemptApply(c, o, w1, env, req);
    OnwardTransitive(c, req, w, w1, a.w);
    if a.out.err.Some? && attempt < MaxApplyAttempts {
      StillAnchored(c, req, w, a.w);
      AnyLoop(c, o, a.w, a.out.env, req, attempt + 1);
      OnwardTransitive(c, req, w, a.w, ApplyLoop(c, o, a.w, a.out.env, req, attempt + 1).w);
    }
  }

  lemma StillAnchored(c: Config, req: ApplyRequest, w: World, w': World)
    requires Anchored(c, req, w.environments) && Onward(c, req, w, w')
    ensures Anchored(c, req, w'.environments)
  {
  }

  lemma Slept(c: Config, req: ApplyRequest, w: World, w1: World)
    requires w1 == w.(now := w1.now)
    ensures Onward(c, req, w, w1)
  {
    assert See(w1) == See(w);
    OnwardSame(c, req, w, w1);
  }

  lemma AnyAttempt(c: Config, o: Oracle, w: World, env: Environment, req: ApplyRequest, sent: ApplyRequest)
    requires ValidConfig(c) && RefsStable(c) && sent.(artifactRef := req.artifactRef) == req
    requires Anchored(c, req, w.environments) && Carried(c, w, env, req)
    ensures var a := AttemptApply(c, o, w, env, sent);
      && Onward(c, req, w, a.w)
      && (a.out.err.Some? ==> Carried(c, a.w, a.out.env, req))
      && (a.out.err.None? ==> Fresh(a.w, a.out.env) && Alike(c, a.w.environments, a.out.env, req))
      && (env != ZeroEnvironment ==> Alike(c, a.w.environments, env, req))
  {
    hide AttemptApply, Onward, Anchored, Alike, RefsStable;
    if env == ZeroEnvironment { EmptyAttempt(c, o, w, req, sent); } else { RowAttempt(c, o, w, env, req, sent); }
  }

  /** Giving up on the empty row marks nothing; on a row, whatever it writes is overwritten by the goal. */
  lemma AnyGiveUp(c: Config, o: Oracle, w: World, env: Environment, req: ApplyRequest)
    requires ValidConfig(c) && RefsStable(c) && Anchored(c, req, w.environments) && Carried(c, w, env, req)
    ensures Onward(c, req, w, GiveUp(c, o, w, env, req))
  {
    hide AttemptApply, UpdateEnvironment, Onward, Anchored, Notify, RefsStable;
    if env == ZeroEnvironment {
      NobodyFails(c, o, w, req);
    } else {
      NotifiedWrite(c, o, w, env.(status := Failed), req, "failed");
      if env.lastGoodArtifactRef != "" && env.lastGoodArtifactRef != req.artifactRef {
        var back := req.(artifactRef := env.lastGoodArtifactRef);
        AnyAttempt(c, o, w, env, req, back);
        var b := AttemptApply(c, o, w, env, back);
        StillAnchored(c, req, w, b.w);
        if b.out.err.None? {
          var row := b.out.env.(status := Degraded, artifactRef := req.artifactRef);
          NotifiedWrite(c, o, b.w, row, req, "degraded");
          OnwardTransitive(c, req, w, b.w, Notify(o, UpdateEnvironment(o, b.w, row).w, "degraded"));
        } else {
          NotifiedWrite(c, o, b.w, env.(status := Failed), req, "failed");
          OnwardTransitive(c, req, w, b.w, MarkFailed(o, b.w, env));
        }
      }
    }
  }

  lemma NobodyFails(c: Config, o: Oracle, w: World, req: ApplyRequest)
    requires Anchored(c, req, w.environments)
    ensures Onward(c, req, w, MarkFailed(o, w, ZeroEnvironment))
  {
    hide UpdateEnvironment, Onward, Notify;
    var row := ZeroEnvironment.(status := Failed);
    NoSuchRow(c, o, w, row, req);
    var u := UpdateEnvironment(o, w, row);
    Notified(c, o, req, u.w, "failed");
    OnwardTransitive(c, req, w, u.w, Notify(o, u.w, "failed"));
  }

  lemma AnyApply(c: Config, o: Oracle, w: World, env: Environment, req: ApplyRequest)
    requires ValidConfig(c) && RefsStable(c) && Anchored(c, req, w.environments)
    requires Fresh(w, env) && env.id == IdOf(req)
    ensures Onward(c, req, w, DoApply(c, o, w, env, req).w)
  {
    hide ApplyLoop, GiveUp, UpdateEnvironment, Onward, Notify, RefsStable, Applicable;
    var row := DeployingRow(env, req);
    AnyWrite(c, o, w, row, req);
    var u := UpdateEnvironment(o, w, row);
    if u.out.Ok? {
      StillAnchored(c, req, w, u.w);
      assert Carried(c, u.w, u.out.value, req);
      AnyLoop(c, o, u.w, u.out.value, req, 1);
      var a := ApplyLoop(c, o, u.w, u.out.value, req, 1);
      OnwardTransitive(c, req, w, u.w, a.w);
      if a.out.err.None? {
        var kind := if IsUpdate(env) then "updated" else "ready";
        Notified(c, o, req, a.w, kind);
        OnwardTransitive(c, req, w, a.w, Notify(o, a.w, kind));
      } else {
        StillAnchored(c, req, w, a.w);
        AnyGiveUp(c, o, a.w, a.out.env, req);
        OnwardTransitive(c, req, w, a.w, GiveUp(c, o, a.w, a.out.env, req));
      }
    }
  }

  // ---------- deliveries ----------

  lemma AnyUpsert(c: Config, o: Oracle, w: World, req: ApplyRequest)
    requires Anchored(c, req, w.environments)
    ensures var u := UpsertPendingEnvironment(o, w, req);
      Anchored(c, req, u.w.environments) && (u.out.Ok? ==> Fresh(u.w, u.out.value) && u.out.value.id == IdOf(req))
  {
  }

  /** However a push fails, and wherever, its goal is unmoved. */
  lemma FailedPushKeepsGoal(c: Config, o: Oracle, w: World, allowed: bool, req: ApplyRequest)
    requires ValidConfig(c) && RefsStable(c) && Anchored(c, req, w.environments)
    ensures var w' := PushDelivery(c, o, w, allowed, req).w;
      PushGoal(c, allowed, req, See(w')) == PushGoal(c, allowed, req, See(w)) && Anchored(c, req, w'.environments)
  {
    hide Admit, DoApply, UpsertPendingEnvironment, RefsStable, Deployed, See, Onward;
    AdmitKeepsGoal(c, o, w, allowed, req);
    AdmitKeepsAnchor(c, o, w, allowed, req);
    var a := Admit(c, o, w, allowed, req);
    if a.out == Admitted {
      UpsertKeepsGoal(c, o, a.w, req);
      AnyUpsert(c, o, a.w, req);
      UpsertSees(o, a.w, req);
      var u := UpsertPendingEnvironment(o, a.w, req);
      InTable(a.w);
      InTable(u.w);
      if u.out.Ok? {
        AnyApply(c, o, u.w, u.out.value, req);
        var w' := DoApply(c, o, u.w, u.out.value, req).w;
        StillAnchored(c, req, u.w, w');
        InTable(w');
        OnwardParts(c, req, u.w, w');
      }
    }
  }

  lemma OnwardParts(c: Config, req: ApplyRequest, w: World, w': World)
    requires Onward(c, req, w, w')
    ensures SameGoal(c, req, w, w') && (IdOf(req) in w.environments ==> IdOf(req) in w'.environments)
  {
  }

  lemma AdmitKeepsAnchor(c: Config, o: Oracle, w: World, allowed: bool, req: ApplyRequest)
    requires Anchored(c, req, w.environments)
    ensures Anchored(c, req, Admit(c, o, w, allowed, req).w.environments)
  {
    hide UpsertPendingEnvironment, Anchored, LiveIds;
    var g := GetEnvironment(o, w, IdOf(req));
    var n := CountLiveEnvironments(o, g.w);
    assert n.w.environments == w.environments;
    AnyUpsert(c, o, n.w, req);
  }

  /** The state after one pass per oracle. */
  function FailedPushes(c: Config, w: World, allowed: bool, req: ApplyRequest, passes: seq<Oracle>): World
    requires ValidConfig(c)
  {
    if passes == [] then w
    else
      var n := |passes| - 1;
      PushDelivery(c, passes[n], FailedPushes(c, w, allowed, req, passes[..n]), allowed, req).w
  }

  lemma {:induction false} FailuresKeepPushGoal(c: Config, w: World, allowed: bool, req: ApplyRequest, passes: seq<Oracle>)
    requires ValidConfig(c) && RefsStable(c) && Anchored(c, req, w.environments)
    ensures var w' := FailedPushes(c, w, allowed, req, passes);
      PushGoal(c, allowed, req, See(w')) == PushGoal(c, allowed, req, See(w)) && Anchored(c, req, w'.environments)
  {
    hide PushDelivery, PushGoal, See, Anchored, RefsStable;
    if passes != [] {
      var n := |passes| - 1;
      FailuresKeepPushGoal(c, w, allowed, req, passes[..n]);
      FailedPushKeepsGoal(c, passes[n], FailedPushes(c, w, allowed, req, passes[..n]), allowed, req);
    }
  }

  /**
   Main result: after any number of passes under any oracles at all, with calls of store and providers failing, taking
   effect unreported or stopping for good anywhere, one pass with every call succeeding ends where one undisturbed run
   ends.
   */
  lemma PushSurvivesFailures(c: Config, w: World, allowed: bool, req: ApplyRequest, passes: seq<Oracle>, replay: Oracle,
                             clean: Oracle)
    requires ValidConfig(c) && RefsStable(c) && AllOk(replay) && AllOk(clean)
    requires Anchored(c, req, w.environments)
    ensures var undisturbed := PushDelivery(c, clean, w, allowed, req);
      var recovered := PushDelivery(c, replay, FailedPushes(c, w, allowed, req, passes), allowed, req);
      undisturbed.out.None? && recovered.out.None? && See(recovered.w) == See(undisturbed.w)
  {
    hide PushDelivery, PushGoal, See, RefsStable, AllOk, FailedPushes, Applicable;
    FailuresKeepPushGoal(c, w, allowed, req, passes);
    PushAttains(c, replay, FailedPushes(c, w, allowed, req, passes), allowed, req);
    PushAttains(c, clean, w, allowed, req);
  }
}
