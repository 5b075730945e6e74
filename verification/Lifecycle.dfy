/**
 The reconciler's passes over one environment (internal/core/reconciler.go), as functions of the world and an oracle.
 Module Reconciler runs the same passes step by step on mutable state and is proved equal to these.
 */
module Lifecycle {
  import opened Wrappers
  import opened Transitions
  import opened Calls

  const MaxApplyAttempts: nat := 5

  function ApplyBackoff(attempt: nat): int
    requires 2 <= attempt
  {
    var d := Pow2(attempt - 2) * Second;
    if d > 30 * Second then 30 * Second else d
  }

  function Pow2(n: nat): nat {
    if n == 0 then 1 else 2 * Pow2(n - 1)
  }

  /** Polls until the deployment is healthy, a call fails, the context is cancelled, or the deadline has passed. */
  function WaitUntilHealthy(c: Config, o: Oracle, w: World, ref: string, deadline: int): Ran<Option<Error>>
    requires ValidConfig(c)
    decreases if w.now < deadline then deadline - w.now else 0
  {
    if !o(ProviderCall, w.calls).ok then Ran(Tick(o, w, ProviderCall), Some(CallFailed)) // context cancelled
    else
      var h := HealthCheck(o, Tick(o, w, ProviderCall), ref);
      match h.out
      case ProbeFailed => Ran(h.w, Some(CallFailed))
      case Healthy => Ran(h.w, None)
      case Unhealthy =>
        if h.w.now >= deadline then Ran(h.w, Some(NotHealthy))
        else WaitUntilHealthy(c, o, Sleep(h.w, c.readinessPollInterval), ref, deadline)
  }

  predicate HasRow(rows: seq<DnsRow>, id: EnvId, name: string) {
    exists i :: 0 <= i < |rows| && rows[i].envId == id && rows[i].name == name
  }

  function RecordDnsRow(o: Oracle, w: World, id: EnvId, name: string, value: string, tag: string): Ran<Option<Error>> {
    var l := ListDnsRecords(o, w, id);
    if l.out.Err? then Ran(l.w, Some(CallFailed))
    else if HasRow(l.out.value, id, name) then Ran(l.w, None)
    else CreateDnsRecord(o, l.w, id, name, value, tag)
  }

  // The environment an attempt hands on, and its error if it failed.
  datatype Attempt = Attempt(env: Environment, err: Option<Error>)

  function PublishRecords(c: Config, o: Oracle, w: World, id: EnvId, req: ApplyRequest, ref: string): Ran<Option<Error>> {
    var name := Fqdn(c, req.subdomain);
    var tag := c.tagOf(req.project, req.branch);
    var d := EnsureRecord(o, w, name, c.addrOf(ref), tag);
    if d.out.Some? then d else
    var t := EnsureCertificate(o, d.w, name);
    if t.out.Some? then t else
    var i := if c.installsCertificates && c.issuesPem then InstallCertificate(o, t.w, name) else t;
    if i.out.Some? then i else
    RecordDnsRow(o, i.w, id, name, c.addrOf(ref), tag)
  }

  function ReadyRow(c: Config, env: Environment, ref: string, artifact: string, now: int): Environment {
    env.(deployRef := ref, status := Ready, lastGoodArtifactRef := artifact, lastGoodDeployRef := ref,
         ttlExpiresAt := if c.defaultTTL > 0 then Some(now + c.defaultTTL) else env.ttlExpiresAt)
  }

  /** One deploy, readiness, DNS, certificate, persist attempt. A failed final update hands on the zero Environment. */
  function AttemptApply(c: Config, o: Oracle, w: World, env: Environment, req: ApplyRequest): Ran<Attempt>
    requires ValidConfig(c)
  {
    var ref := c.refOf(req.project, req.branch, env.deployRef);
    var d := DeployApply(o, w, ref, req.artifactRef);
    if d.out.Some? then Ran(d.w, Attempt(env, d.out)) else
    var h := WaitUntilHealthy(c, o, d.w, ref, d.w.now + c.readinessTimeout);
    if h.out.Some? then Ran(h.w, Attempt(env, h.out)) else
    var p := PublishRecords(c, o, h.w, env.id, req, ref);
    if p.out.Some? then Ran(p.w, Attempt(env, p.out)) else
    var u := UpdateEnvironment(o, p.w, ReadyRow(c, env, ref, req.artifactRef, p.w.now));
    Ran(u.w, if u.out.Ok? then Attempt(u.out.value, None) else Attempt(ZeroEnvironment, Some(u.out.error)))
  }

  function ApplyLoop(c: Config, o: Oracle, w: World, env: Environment, req: ApplyRequest, attempt: nat): Ran<Attempt>
    requires ValidConfig(c)
    requires 1 <= attempt <= MaxApplyAttempts
    decreases MaxApplyAttempts - attempt
  {
    var a := AttemptApply(c, o, if attempt > 1 then Sleep(w, ApplyBackoff(attempt)) else w, env, req);
    if a.out.err.None? || attempt == MaxApplyAttempts then a
    else ApplyLoop(c, o, a.w, a.out.env, req, attempt + 1)
  }

  function MarkFailed(o: Oracle, w: World, env: Environment): World {
    Notify(o, UpdateEnvironment(o, w, env.(status := Failed)).w, "failed")
  }

  /** All attempts failed: redeploy the last good revision if there is another one, else mark the row failed. */
  function GiveUp(c: Config, o: Oracle, w: World, env: Environment, req: ApplyRequest): World
    requires ValidConfig(c)
  {
    if env.lastGoodArtifactRef != "" && env.lastGoodArtifactRef != req.artifactRef then
      var b := AttemptApply(c, o, w, env, req.(artifactRef := env.lastGoodArtifactRef));
      if b.out.err.None? then
        var u := UpdateEnvironment(o, b.w, b.out.env.(status := Degraded, artifactRef := req.artifactRef));
        Notify(o, u.w, "degraded")
      else MarkFailed(o, b.w, env)
    else MarkFailed(o, w, env)
  }

  predicate IsUpdate(env: Environment) {
    env.status == Ready || env.status == Degraded || env.deployRef != ""
  }

  function DeployingRow(env: Environment, req: ApplyRequest): Environment {
    env.(prNumber := req.prNumber, subdomain := req.subdomain, artifactRef := req.artifactRef, status := Deploying)
  }

  function DoApply(c: Config, o: Oracle, w: World, env: Environment, req: ApplyRequest): Ran<Result<Environment, Error>>
    requires ValidConfig(c)
  {
    var u := UpdateEnvironment(o, w, DeployingRow(env, req));
    if u.out.Err? then u else
    var a := ApplyLoop(c, o, u.w, u.out.value, req, 1);
    if a.out.err.None? then
      Ran(Notify(o, a.w, if IsUpdate(env) then "updated" else "ready"), Ok(a.out.env))
    else
      Ran(GiveUp(c, o, a.w, a.out.env, req), Err(ApplyFailed))
  }

  // ---------- teardown ----------

  /** Deletes each listed record at the provider, then its row; counts the steps that failed. */
  function DestroyRecords(o: Oracle, w: World, records: seq<DnsRow>): Ran<nat>
    decreases |records|
  {
    if records == [] then Ran(w, 0)
    else
      var rec := records[0];
      var d := DeleteRecord(o, w, rec);
      if d.out.Some? then
        var rest := DestroyRecords(o, d.w, records[1..]);
        Ran(rest.w, rest.out + 1)
      else
        var r := DeleteDnsRecord(o, d.w, rec.rowId);
        var rest := DestroyRecords(o, r.w, records[1..]);
        Ran(rest.w, rest.out + if r.out.Some? then 1 else 0)
  }

  function Failures(e: Option<Error>): nat {
    if e.Some? then 1 else 0
  }

  function DestroyInfrastructure(c: Config, o: Oracle, w: World, env: Environment): Ran<nat> {
    var name := Fqdn(c, env.subdomain);
    var v := RevokeCertificate(o, w, name);
    var m := if c.removesCertificates then RemoveCertificate(o, v.w, name) else Ran(v.w, None);
    var d := if env.deployRef != "" then DeployDestroy(o, m.w, env.deployRef) else Ran(m.w, None);
    Ran(d.w, Failures(v.out) + Failures(m.out) + Failures(d.out))
  }

  /** Runs every teardown step whatever fails, and marks the row destroyed only when none did. */
  function DoDestroy(c: Config, o: Oracle, w: World, env: Environment): Ran<Option<Error>> {
    var l := ListDnsRecords(o, w, env.id);
    var r := DestroyRecords(o, l.w, if l.out.Ok? then l.out.value else []);
    var i := DestroyInfrastructure(c, o, r.w, env);
    if l.out.Err? || r.out > 0 || i.out > 0 then Ran(i.w, Some(TeardownIncomplete)) else
    var u := UpdateEnvironment(o, i.w, env.(status := Destroyed));
    if u.out.Err? then Ran(u.w, Some(u.out.error)) else Ran(Notify(o, u.w, "destroyed"), None)
  }

  function DestroyWithoutEvent(c: Config, o: Oracle, w: World, env: Environment): Ran<Option<Error>> {
    if env.status == Destroying then DoDestroy(c, o, w, env) else
    var u := UpdateEnvironment(o, w, env.(status := Destroying));
    if u.out.Err? then Ran(u.w, Some(u.out.error)) else DoDestroy(c, o, u.w, u.out.value)
  }

  // ---------- sleep and wake ----------

  function DoSleep(o: Oracle, w: World, env: Environment): Ran<Result<Environment, Error>> {
    if env.status != Ready || env.deployRef == "" then Ran(w, Err(InvalidAction)) else
    var s := DeploySetRunning(o, w, env.deployRef, false);
    if s.out.Some? then Ran(s.w, Err(s.out.value)) else
    UpdateEnvironment(o, s.w, env.(status := Sleeping))
  }

  function DoWake(o: Oracle, w: World, env: Environment): Ran<Result<Environment, Error>> {
    if env.status != Sleeping || env.deployRef == "" then Ran(w, Err(InvalidAction)) else
    var s := DeploySetRunning(o, w, env.deployRef, true);
    if s.out.Some? then Ran(s.w, Err(s.out.value)) else
    UpdateEnvironment(o, s.w, env.(status := Ready))
  }

  // ---------- webhook deliveries ----------

  function NewRow(req: ApplyRequest): Environment {
    ZeroEnvironment.(id := EnvId(req.project, req.branch), prNumber := req.prNumber, subdomain := req.subdomain,
                     artifactRef := req.artifactRef, status := Pending)
  }

  function UpsertPendingEnvironment(o: Oracle, w: World, req: ApplyRequest): Ran<Result<Environment, Error>> {
    var g := GetEnvironment(o, w, EnvId(req.project, req.branch));
    if g.out == Err(RowNotFound) then CreateEnvironment(o, g.w, NewRow(req)) else g
  }

  datatype Admission = Admitted | Skipped | AdmissionFailed(error: Error)

  /** The policy's verdict, then the ceiling on live environments, which only creation is subject to. */
  function Admit(c: Config, o: Oracle, w: World, allowed: bool, req: ApplyRequest): Ran<Admission> {
    if !allowed then Ran(w, Skipped)
    else if c.maxConcurrent <= 0 then Ran(w, Admitted)
    else
      var g := GetEnvironment(o, w, EnvId(req.project, req.branch));
      if g.out.Ok? then Ran(g.w, Admitted)
      else if g.out.error != RowNotFound then Ran(g.w, AdmissionFailed(g.out.error))
      else
        var n := CountLiveEnvironments(o, g.w);
        if n.out.Err? then Ran(n.w, AdmissionFailed(n.out.error))
        else if n.out.value >= c.maxConcurrent then Ran(n.w, Skipped)
        else
          var u := UpsertPendingEnvironment(o, n.w, req);
          Ran(u.w, if u.out.Err? then AdmissionFailed(u.out.error) else Admitted)
  }

  /** The body shared by webhook pushes and API applies: find or create the row, then apply. */
  function ApplyDelivery(c: Config, o: Oracle, w: World, req: ApplyRequest): Ran<Option<Error>>
    requires ValidConfig(c)
  {
    var u := UpsertPendingEnvironment(o, w, req);
    if u.out.Err? then Ran(u.w, Some(u.out.error)) else
    var d := DoApply(c, o, u.w, u.out.value, req);
    Ran(d.w, if d.out.Err? then Some(d.out.error) else None)
  }

  function PushDelivery(c: Config, o: Oracle, w: World, allowed: bool, req: ApplyRequest): Ran<Option<Error>>
    requires ValidConfig(c)
  {
    var a := Admit(c, o, w, allowed, req);
    match a.out
    case AdmissionFailed(e) => Ran(a.w, Some(e))
    case Skipped => Ran(a.w, None)
    case Admitted => ApplyDelivery(c, o, a.w, req)
  }

  function CloseDelivery(c: Config, o: Oracle, w: World, id: EnvId): Ran<Option<Error>> {
    var g := GetEnvironment(o, w, id);
    if g.out == Err(RowNotFound) then Ran(g.w, None)
    else if g.out.Err? then Ran(g.w, Some(g.out.error))
    else DestroyWithoutEvent(c, o, g.w, g.out.value)
  }
}
