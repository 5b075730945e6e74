/**
 The reconciler as the object the source makes it: methods that loop, reassign their environment and
 change the tables and the providers step by step. Each is proved equal to its pass in module Lifecycle, and those that
 callers enter by promise outright what is proved of their passes.
 */
module Reconciler {
  import opened Wrappers
  import opened Transitions
  import opened Calls
  import L = Lifecycle
  import ApplyOutcome
  import Attempts
  import CloseRecovery
  import CrashRecovery
  import Deliveries
  import FailureRecovery
  import RowHistory
  import SleepWake
  import Teardown

  class Reconciler {
    const cfg: Config
    const oracle: Oracle

    var environments: map<EnvId, Versions>
    var dnsRows: seq<DnsRow>
    var nextRow: nat
    var deployments: map<string, Deployment>
    var zone: map<string, Published>
    var certificates: set<string>
    var installed: set<string>
    var now: int
    var calls: nat
    var deployCalls: nat
    var rejections: nat
    var steps: seq<TeardownStep>
    var notices: seq<string>

    function View(): World
      reads this
    {
      World(environments, dnsRows, nextRow, deployments, zone, certificates, installed, now, calls,
            deployCalls, rejections, steps, notices)
    }

    constructor (cfg: Config, oracle: Oracle)
      requires ValidConfig(cfg)
      ensures this.cfg == cfg && this.oracle == oracle
      ensures View() == World(map[], [], 0, map[], map[], {}, {}, 0, 0, 0, 0, [], [])
    {
      this.cfg, this.oracle := cfg, oracle;
      environments, dnsRows, nextRow := map[], [], 0;
      deployments, zone, certificates, installed := map[], map[], {}, {};
      now, calls, deployCalls, rejections, steps, notices := 0, 0, 0, 0, [], [];
    }

    // ---------- single calls ----------

    method Call(k: Kind) returns (r: Reply)
      modifies this
      ensures r == oracle(k, old(calls))
      ensures View() == Tick(oracle, old(View()), k)
    {
      r := oracle(k, calls);
      calls, now := calls + 1, now + r.lag;
    }

    method GetEnvironment(id: EnvId) returns (res: Result<Environment, Error>)
      modifies this
      ensures Ran(View(), res) == Calls.GetEnvironment(oracle, old(View()), id)
    {
      var r := Call(StoreCall);
      if !r.ok { return Err(CallFailed); }
      if id !in environments { return Err(RowNotFound); }
      return Ok(environments[id].current);
    }

    method CreateEnvironment(env: Environment) returns (res: Result<Environment, Error>)
      modifies this
      ensures Ran(View(), res) == Calls.CreateEnvironment(oracle, old(View()), env)
      ensures env.id in old(environments) ==> environments == old(environments) && res.Err?
      ensures res.Ok? ==> res.value == env.(createdAt := now, updatedAt := now)
                          && environments == old(environments)[env.id := Versions([], res.value)]
    {
      var r := Call(StoreCall);
      if !r.Acts() { return Err(CallFailed); }
      if env.id in environments { return Err(RowConflict); }
      var row := env.(createdAt := now, updatedAt := now);
      environments := environments[env.id := Versions([], row)];
      if !r.ok { return Err(CallFailed); }
      return Ok(row);
    }

    method UpdateEnvironment(env: Environment) returns (res: Result<Environment, Error>)
      modifies this
      ensures Ran(View(), res) == Calls.UpdateEnvironment(oracle, old(View()), env)
      ensures res.Ok? ==> env.id in old(environments)
      ensures res.Ok? ==> var was := old(environments)[env.id];
        && CanTransition(was.current.status, env.status)
        && res.value == env.(createdAt := was.current.createdAt, updatedAt := res.value.updatedAt)
        && environments == old(environments)[env.id := Versions(was.past + [was.current], res.value)]
      ensures res == Err(IllegalTransition) ==> environments == old(environments)
    {
      var r := Call(StoreCall);
      if !r.Acts() { return Err(CallFailed); }
      if env.id !in environments { return Err(RowNotFound); }
      var v := environments[env.id];
      if !CanTransition(v.current.status, env.status) {
        rejections := rejections + 1;
        return Err(IllegalTransition);
      }
      environments := environments[env.id := Versions(v.All(), env.(createdAt := v.current.createdAt, updatedAt := now))];
      if !r.ok { return Err(CallFailed); }
      res := GetEnvironment(env.id);
    }

    method CountLiveEnvironments() returns (res: Result<nat, Error>)
      modifies this
      ensures Ran(View(), res) == Calls.CountLiveEnvironments(oracle, old(View()))
      ensures res.Ok? ==> res.value == |set id | id in environments && environments[id].current.status != Destroyed|
    {
      ghost var w := View();
      var r := Call(StoreCall);
      assert LiveIds(w) == set id | id in environments && environments[id].current.status != Destroyed;
      if !r.ok { return Err(CallFailed); }
      return Ok(|set id | id in environments && environments[id].current.status != Destroyed|);
    }

    method ListDnsRecords(id: EnvId) returns (res: Result<seq<DnsRow>, Error>)
      modifies this
      ensures Ran(View(), res) == Calls.ListDnsRecords(oracle, old(View()), id)
    {
      var r := Call(StoreCall);
      if !r.ok { return Err(CallFailed); }
      var rows := [];
      for i := 0 to |dnsRows|
        invariant rows == RowsOf(dnsRows[..i], id)
      {
        assert dnsRows[..i + 1][..i] == dnsRows[..i];
        if dnsRows[i].envId == id { rows := rows + [dnsRows[i]]; }
      }
      assert dnsRows[..|dnsRows|] == dnsRows;
      return Ok(rows);
    }

    method CreateDnsRecord(id: EnvId, name: string, value: string, tag: string) returns (err: Option<Error>)
      modifies this
      ensures Ran(View(), err) == Calls.CreateDnsRecord(oracle, old(View()), id, name, value, tag)
    {
      var r := Call(StoreCall);
      if !r.Acts() || id !in environments { return Some(CallFailed); }
      dnsRows, nextRow := dnsRows + [DnsRow(nextRow, id, name, value, tag)], nextRow + 1;
      return if r.ok then None else Some(CallFailed);
    }

    method DeleteDnsRecord(rowId: nat) returns (err: Option<Error>)
      modifies this
      ensures Ran(View(), err) == Calls.DeleteDnsRecord(oracle, old(View()), rowId)
    {
      var r := Call(StoreCall);
      if r.Acts() { dnsRows := WithoutRow(dnsRows, rowId); }
      steps := steps + [RowRemoval(rowId, r.Acts(), r.ok)];
      return if r.ok then None else Some(CallFailed);
    }

    method DeployApply(ref: string, artifact: string) returns (err: Option<Error>)
      modifies this
      ensures Ran(View(), err) == Calls.DeployApply(oracle, old(View()), ref, artifact)
    {
      var r := Call(ProviderCall);
      deployCalls := deployCalls + 1;
      if r.Acts() { deployments := deployments[ref := Deployment(artifact, true, false)]; }
      return Answer(r);
    }

    method DeploySetRunning(ref: string, running: bool) returns (err: Option<Error>)
      modifies this
      ensures Ran(View(), err) == Calls.DeploySetRunning(oracle, old(View()), ref, running)
    {
      var r := Call(ProviderCall);
      if r.Acts() && ref in deployments {
        deployments := deployments[ref := deployments[ref].(running := running)];
      }
      return Answer(r);
    }

    method DeployDestroy(ref: string) returns (err: Option<Error>)
      modifies this
      ensures Ran(View(), err) == Calls.DeployDestroy(oracle, old(View()), ref)
    {
      var r := Call(ProviderCall);
      if r.Acts() { deployments := deployments - {ref}; }
      steps := steps + [DeploymentRemoval(ref, r.ok)];
      return Answer(r);
    }

    method HealthCheck(ref: string) returns (probe: Probe)
      modifies this
      ensures Ran(View(), probe) == Calls.HealthCheck(oracle, old(View()), ref)
    {
      var r := Call(ProviderCall);
      if !r.ok { return ProbeFailed; }
      if !r.healthy { return Unhealthy; }
      if ref in deployments { deployments := deployments[ref := deployments[ref].(healthy := true)]; }
      return Healthy;
    }

    method EnsureRecord(name: string, value: string, tag: string) returns (err: Option<Error>)
      modifies this
      ensures Ran(View(), err) == Calls.EnsureRecord(oracle, old(View()), name, value, tag)
    {
      var r := Call(ProviderCall);
      if r.Acts() { zone := zone[name := Published(value, tag)]; }
      return Answer(r);
    }

    method DeleteRecord(rec: DnsRow) returns (err: Option<Error>)
      modifies this
      ensures Ran(View(), err) == Calls.DeleteRecord(oracle, old(View()), rec)
    {
      var r := Call(ProviderCall);
      var mine := rec.name in zone ==> zone[rec.name].tag == rec.ownershipTag;
      if r.Acts() && mine { zone := zone - {rec.name}; }
      steps := steps + [RecordDeletion(rec.rowId, r.ok && mine)];
      return if r.ok && !mine then Some(OwnerMismatch) else Answer(r);
    }

    method EnsureCertificate(name: string) returns (err: Option<Error>)
      modifies this
      ensures Ran(View(), err) == Calls.EnsureCertificate(oracle, old(View()), name)
    {
      var r := Call(ProviderCall);
      if r.Acts() { certificates := certificates + {name}; }
      return Answer(r);
    }

    method InstallCertificate(name: string) returns (err: Option<Error>)
      modifies this
      ensures Ran(View(), err) == Calls.InstallCertificate(oracle, old(View()), name)
    {
      var r := Call(ProviderCall);
      if r.Acts() { installed := installed + {name}; }
      return Answer(r);
    }

    method RevokeCertificate(name: string) returns (err: Option<Error>)
      modifies this
      ensures Ran(View(), err) == Calls.RevokeCertificate(oracle, old(View()), name)
    {
      var r := Call(ProviderCall);
      if r.Acts() { certificates := certificates - {name}; }
      steps := steps + [Revocation(name, r.ok)];
      return Answer(r);
    }

    method RemoveCertificate(name: string) returns (err: Option<Error>)
      modifies this
      ensures Ran(View(), err) == Calls.RemoveCertificate(oracle, old(View()), name)
    {
      var r := Call(ProviderCall);
      if r.Acts() { installed := installed - {name}; }
      steps := steps + [CertificateRemoval(name, r.ok)];
      return Answer(r);
    }

    method Notify(kind: string)
      modifies this
      ensures View() == Calls.Notify(oracle, old(View()), kind)
    {
      var _ := Call(ProviderCall);
      notices := notices + [kind];
    }

    // ---------- apply ----------

    method WaitUntilHealthy(ref: string) returns (err: Option<Error>)
      requires ValidConfig(cfg)
      modifies this
      ensures Ran(View(), err) ==
        L.WaitUntilHealthy(cfg, oracle, old(View()), ref, old(now) + cfg.readinessTimeout)
    {
      var deadline := now + cfg.readinessTimeout;
      ghost var goal := L.WaitUntilHealthy(cfg, oracle, View(), ref, deadline);
      while true
        invariant goal == L.WaitUntilHealthy(cfg, oracle, View(), ref, deadline)
        decreases if now < deadline then deadline - now else 0
      {
        var ctx := Call(ProviderCall);
        if !ctx.ok { return Some(CallFailed); }
        var probe := HealthCheck(ref);
        match probe {
          case ProbeFailed => return Some(CallFailed);
          case Healthy => return None;
          case Unhealthy =>
            if now >= deadline { return Some(NotHealthy); }
            now := now + cfg.readinessPollInterval;
        }
      }
    }

    method RecordDnsRow(id: EnvId, name: string, value: string, tag: string) returns (err: Option<Error>)
      modifies this
      ensures Ran(View(), err) == L.RecordDnsRow(oracle, old(View()), id, name, value, tag)
    {
      var existing := ListDnsRecords(id);
      if existing.Err? { return Some(CallFailed); }
      for i := 0 to |existing.value|
        invariant forall j :: 0 <= j < i ==> !(existing.value[j].envId == id && existing.value[j].name == name)
        invariant Ran(View(), existing) == Calls.ListDnsRecords(oracle, old(View()), id)
      {
        if existing.value[i].envId == id && existing.value[i].name == name { return None; }
      }
      err := CreateDnsRecord(id, name, value, tag);
    }

    method PublishRecords(id: EnvId, req: ApplyRequest, ref: string) returns (err: Option<Error>)
      modifies this
      ensures Ran(View(), err) == L.PublishRecords(cfg, oracle, old(View()), id, req, ref)
    {
      var name := Fqdn(cfg, req.subdomain);
      var tag := cfg.tagOf(req.project, req.branch);
      err := EnsureRecord(name, cfg.addrOf(ref), tag);
      if err.Some? { return; }
      err := EnsureCertificate(name);
      if err.Some? { return; }
      if cfg.installsCertificates && cfg.issuesPem {
        err := InstallCertificate(name);
        if err.Some? { return; }
      }
      err := RecordDnsRow(id, name, cfg.addrOf(ref), tag);
    }

    method AttemptApply(env: Environment, req: ApplyRequest) returns (next: Environment, err: Option<Error>)
      requires ValidConfig(cfg)
      modifies this
      ensures Ran(View(), L.Attempt(next, err)) == L.AttemptApply(cfg, oracle, old(View()), env, req)
      ensures Attempts.InOrder(cfg, old(View()), env, req, View(), err)
    {
      hide L.WaitUntilHealthy, Attempts.InOrder;
      Attempts.AttemptInOrder(cfg, oracle, View(), env, req);
      var ref := cfg.refOf(req.project, req.branch, env.deployRef);
      err := DeployApply(ref, req.artifactRef);
      if err.Some? { return env, err; }
      err := WaitUntilHealthy(ref);
      if err.Some? { return env, err; }
      err := PublishRecords(env.id, req, ref);
      if err.Some? { return env, err; }
      var u := UpdateEnvironment(L.ReadyRow(cfg, env, ref, req.artifactRef, now));
      match u {
        case Ok(row) => return row, None;
        case Err(e) => return ZeroEnvironment, Some(e);
      }
    }

    method MarkFailed(env: Environment)
      modifies this
      ensures View() == L.MarkFailed(oracle, old(View()), env)
    {
      var _ := UpdateEnvironment(env.(status := Failed));
      Notify("failed");
    }

    method GiveUp(env: Environment, req: ApplyRequest)
      requires ValidConfig(cfg)
      modifies this
      ensures View() == L.GiveUp(cfg, oracle, old(View()), env, req)
      ensures ApplyOutcome.Reliable(oracle) && ApplyOutcome.Fresh(old(View()), env) && env.status == Deploying
              && env == ApplyOutcome.Asked(env, req) ==>
              ApplyOutcome.Compensated(cfg, oracle, old(now), env, old(View()), env, req, View())
    {
      hide L.AttemptApply, Attempts.InOrder, ApplyOutcome.Compensated, ApplyOutcome.Reliable;
      ghost var w := View();
      if ApplyOutcome.Reliable(oracle) && ApplyOutcome.Fresh(w, env) && env.status == Deploying
         && env == ApplyOutcome.Asked(env, req) {
        ApplyOutcome.GiveUpOutcome(cfg, oracle, w, env, now, env, req);
      }
      if env.lastGoodArtifactRef != "" && env.lastGoodArtifactRef != req.artifactRef {
        var rolledBack, err := AttemptApply(env, req.(artifactRef := env.lastGoodArtifactRef));
        if err.None? {
          var _ := UpdateEnvironment(rolledBack.(status := Degraded, artifactRef := req.artifactRef));
          Notify("degraded");
          return;
        }
      }
      MarkFailed(env);
    }

    /** The retry loop of doApply. */
    method ApplyLoop(env: Environment, req: ApplyRequest) returns (row: Environment, err: Option<Error>)
      requires ValidConfig(cfg)
      modifies this
      ensures Ran(View(), L.Attempt(row, err)) == L.ApplyLoop(cfg, oracle, old(View()), env, req, 1)
    {
      hide L.AttemptApply, Attempts.InOrder;
      row := env;
      ghost var goal := L.ApplyLoop(cfg, oracle, View(), row, req, 1);
      var attempt := 1;
      while true
        invariant 1 <= attempt <= L.MaxApplyAttempts
        invariant goal == L.ApplyLoop(cfg, oracle, View(), row, req, attempt)
        decreases L.MaxApplyAttempts - attempt
      {
        if attempt > 1 { now := now + L.ApplyBackoff(attempt); }
        row, err := AttemptApply(row, req);
        if err.None? || attempt == L.MaxApplyAttempts { return; }
        attempt := attempt + 1;
      }
    }

    method DoApply(env: Environment, req: ApplyRequest) returns (res: Result<Environment, Error>)
      requires ValidConfig(cfg)
      modifies this
      ensures Ran(View(), res) == L.DoApply(cfg, oracle, old(View()), env, req)
      ensures ApplyOutcome.Reliable(oracle) && ApplyOutcome.Fresh(old(View()), env)
              && !env.status.Unknown? && env.status != Destroying ==>
              ApplyOutcome.Ended(cfg, oracle, old(View()), env, req, View(), res)
      ensures RowHistory.RefsGiven(cfg) && req.artifactRef != "" ==>
              RowHistory.HistoryOk(old(View()).environments) && RowHistory.RowOk(env) ==>
              RowHistory.Keeps(old(View()), View())
    {
      hide ApplyOutcome.Ended, ApplyOutcome.Reliable, ApplyOutcome.Fresh, RowHistory.RefsGiven, RowHistory.HistoryOk,
        RowHistory.RowOk, RowHistory.Keeps;
      ghost var w := View();
      if ApplyOutcome.Reliable(oracle) && ApplyOutcome.Fresh(w, env) && !env.status.Unknown? && env.status != Destroying {
        ApplyOutcome.ApplyEnds(cfg, oracle, w, env, req);
      }
      if RowHistory.RefsGiven(cfg) && RowHistory.HistoryOk(w.environments) && RowHistory.RowOk(env) && req.artifactRef != "" {
        RowHistory.ApplyKeeps(cfg, oracle, w, env, req);
      }
      var u := UpdateEnvironment(L.DeployingRow(env, req));
      if u.Err? { return u; }
      var row, err := ApplyLoop(u.value, req);
      if err.None? {
        Notify(if L.IsUpdate(env) then "updated" else "ready");
        return Ok(row);
      }
      GiveUp(row, req);
      return Err(ApplyFailed);
    }

    // ---------- teardown ----------

    method DestroyRecords(records: seq<DnsRow>) returns (failures: nat)
      modifies this
      ensures Ran(View(), failures) == L.DestroyRecords(oracle, old(View()), records)
    {
      failures := 0;
      ghost var goal := L.DestroyRecords(oracle, View(), records);
      for i := 0 to |records|
        invariant var rest := L.DestroyRecords(oracle, View(), records[i..]);
          goal.w == rest.w && goal.out == failures + rest.out
      {
        assert records[i..][0] == records[i] && records[i..][1..] == records[i + 1..];
        var err := DeleteRecord(records[i]);
        if err.Some? {
          failures := failures + 1;
          continue;
        }
        err := DeleteDnsRecord(records[i].rowId);
        if err.Some? { failures := failures + 1; }
      }
    }

    /** The certificate and deployment steps of doDestroy. */
    method DestroyInfrastructure(env: Environment) returns (failures: nat)
      modifies this
      ensures Ran(View(), failures) == L.DestroyInfrastructure(cfg, oracle, old(View()), env)
    {
      var name := Fqdn(cfg, env.subdomain);
      var err := RevokeCertificate(name);
      failures := L.Failures(err);
      if cfg.removesCertificates {
        err := RemoveCertificate(name);
        failures := failures + L.Failures(err);
      }
      if env.deployRef != "" {
        err := DeployDestroy(env.deployRef);
        failures := failures + L.Failures(err);
      }
    }

    method DoDestroy(env: Environment) returns (err: Option<Error>)
      modifies this
      ensures Ran(View(), err) == L.DoDestroy(cfg, oracle, old(View()), env)
      ensures Teardown.DistinctIds(old(View()).dnsRows) && ApplyOutcome.Fresh(old(View()), env)
              && env.status == Destroying ==>
              exists pass :: Teardown.PassDone(cfg, oracle, old(View()), env, View(), err, pass)
    {
      hide Teardown.PassDone, Teardown.DistinctIds, ApplyOutcome.Fresh;
      ghost var w := View();
      if Teardown.DistinctIds(w.dnsRows) && ApplyOutcome.Fresh(w, env) && env.status == Destroying {
        ghost var pass := Teardown.TeardownPass(cfg, oracle, w, env);
      }
      var l := ListDnsRecords(env.id);
      var records := DestroyRecords(if l.Ok? then l.value else []);
      var infrastructure := DestroyInfrastructure(env);
      if l.Err? || records > 0 || infrastructure > 0 { return Some(TeardownIncomplete); }
      var u := UpdateEnvironment(env.(status := Destroyed));
      if u.Err? { return Some(u.error); }
      Notify("destroyed");
      return None;
    }

    method DestroyWithoutEvent(env: Environment) returns (err: Option<Error>)
      modifies this
      ensures Ran(View(), err) == L.DestroyWithoutEvent(cfg, oracle, old(View()), env)
      ensures RowHistory.HistoryOk(old(View()).environments) && RowHistory.RowOk(env) ==>
              RowHistory.Keeps(old(View()), View())
    {
      hide RowHistory.HistoryOk, RowHistory.RowOk, RowHistory.Keeps;
      ghost var w := View();
      if RowHistory.HistoryOk(w.environments) && RowHistory.RowOk(env) {
        RowHistory.DestroyKeeps(cfg, oracle, w, env);
      }
      var row := env;
      if row.status != Destroying {
        var u := UpdateEnvironment(row.(status := Destroying));
        if u.Err? { return Some(u.error); }
        row := u.value;
      }
      err := DoDestroy(row);
    }

    // ---------- sleep and wake ----------

    method DoSleep(env: Environment) returns (res: Result<Environment, Error>)
      modifies this
      ensures Ran(View(), res) == L.DoSleep(oracle, old(View()), env)
      ensures SleepWake.SwitchDone(old(View()), env, false, Ready, Sleeping, View(), res)
      ensures RowHistory.HistoryOk(old(View()).environments) && RowHistory.RowOk(env) ==>
              RowHistory.Keeps(old(View()), View())
    {
      hide RowHistory.HistoryOk, RowHistory.RowOk, RowHistory.Keeps, SleepWake.SwitchDone;
      ghost var w := View();
      SleepWake.SleepStops(oracle, w, env);
      if RowHistory.HistoryOk(w.environments) && RowHistory.RowOk(env) {
        RowHistory.SleepWakeKeep(oracle, w, env);
      }
      if env.status != Ready || env.deployRef == "" { return Err(InvalidAction); }
      var err := DeploySetRunning(env.deployRef, false);
      if err.Some? { return Err(err.value); }
      res := UpdateEnvironment(env.(status := Sleeping));
    }

    method DoWake(env: Environment) returns (res: Result<Environment, Error>)
      modifies this
      ensures Ran(View(), res) == L.DoWake(oracle, old(View()), env)
      ensures SleepWake.SwitchDone(old(View()), env, true, Sleeping, Ready, View(), res)
      ensures RowHistory.HistoryOk(old(View()).environments) && RowHistory.RowOk(env) ==>
              RowHistory.Keeps(old(View()), View())
    {
      hide RowHistory.HistoryOk, RowHistory.RowOk, RowHistory.Keeps, SleepWake.SwitchDone;
      ghost var w := View();
      SleepWake.WakeStarts(oracle, w, env);
      if RowHistory.HistoryOk(w.environments) && RowHistory.RowOk(env) {
        RowHistory.SleepWakeKeep(oracle, w, env);
      }
      if env.status != Sleeping || env.deployRef == "" { return Err(InvalidAction); }
      var err := DeploySetRunning(env.deployRef, true);
      if err.Some? { return Err(err.value); }
      res := UpdateEnvironment(env.(status := Ready));
    }

    // ---------- webhook deliveries ----------

    method UpsertPendingEnvironment(req: ApplyRequest) returns (res: Result<Environment, Error>)
      modifies this
      ensures Ran(View(), res) == L.UpsertPendingEnvironment(oracle, old(View()), req)
    {
      res := GetEnvironment(EnvId(req.project, req.branch));
      if res == Err(RowNotFound) { res := CreateEnvironment(L.NewRow(req)); }
    }

    method Admit(allowed: bool, req: ApplyRequest) returns (a: L.Admission)
      modifies this
      ensures Ran(View(), a) == L.Admit(cfg, oracle, old(View()), allowed, req)
    {
      if !allowed { return L.Skipped; }
      if cfg.maxConcurrent <= 0 { return L.Admitted; }
      var found := GetEnvironment(EnvId(req.project, req.branch));
      if found.Ok? { return L.Admitted; }
      if found.error != RowNotFound { return L.AdmissionFailed(found.error); }
      var live := CountLiveEnvironments();
      if live.Err? { return L.AdmissionFailed(live.error); }
      if live.value >= cfg.maxConcurrent { return L.Skipped; }
      var reserved := UpsertPendingEnvironment(req);
      if reserved.Err? { return L.AdmissionFailed(reserved.error); }
      return L.Admitted;
    }

    method ApplyWithoutEvent(req: ApplyRequest) returns (err: Option<Error>)
      requires ValidConfig(cfg)
      modifies this
      ensures Ran(View(), err) == L.ApplyDelivery(cfg, oracle, old(View()), req)
    {
      var env := UpsertPendingEnvironment(req);
      if env.Err? { return Some(env.error); }
      var res := DoApply(env.value, req);
      return if res.Err? then Some(res.error) else None;
    }

    method ProcessPush(allowed: bool, req: ApplyRequest) returns (err: Option<Error>)
      requires ValidConfig(cfg)
      modifies this
      ensures Ran(View(), err) == L.PushDelivery(cfg, oracle, old(View()), allowed, req)
      ensures Deliveries.Keyed(old(View()).environments) && err.None? ==>
              if CrashRecovery.Wanted(cfg, allowed, req, CrashRecovery.See(old(View()))) then Deliveries.Served(cfg, View(), req)
              else CrashRecovery.See(View()) == CrashRecovery.See(old(View()))
      ensures CrashRecovery.RefsStable(cfg) && FailureRecovery.Anchored(cfg, req, old(View()).environments) ==>
              CrashRecovery.PushGoal(cfg, allowed, req, CrashRecovery.See(View())) ==
              CrashRecovery.PushGoal(cfg, allowed, req, CrashRecovery.See(old(View())))
      ensures CrashRecovery.AllOk(oracle)
              && CrashRecovery.Applicable(old(View()).environments, CrashRecovery.IdOf(req)) ==>
              err.None? && CrashRecovery.See(View()) ==
                           CrashRecovery.PushGoal(cfg, allowed, req, CrashRecovery.See(old(View())))
    {
      hide CrashRecovery.RefsStable, FailureRecovery.Anchored, CrashRecovery.PushGoal, CrashRecovery.See,
        CrashRecovery.AllOk, CrashRecovery.Applicable, CrashRecovery.Wanted, Deliveries.Keyed, Deliveries.Served;
      ghost var w := View();
      if Deliveries.Keyed(w.environments) { Deliveries.PushAnswers(cfg, oracle, w, allowed, req); }
      if CrashRecovery.RefsStable(cfg) && FailureRecovery.Anchored(cfg, req, w.environments) {
        FailureRecovery.FailedPushKeepsGoal(cfg, oracle, w, allowed, req);
      }
      if CrashRecovery.AllOk(oracle) && CrashRecovery.Applicable(w.environments, CrashRecovery.IdOf(req)) {
        CrashRecovery.PushAttains(cfg, oracle, w, allowed, req);
      }
      var a := Admit(allowed, req);
      match a {
        case AdmissionFailed(e) => return Some(e);
        case Skipped => return None;
        case Admitted => err := ApplyWithoutEvent(req);
      }
    }

    method ProcessClose(id: EnvId) returns (err: Option<Error>)
      modifies this
      ensures Ran(View(), err) == L.CloseDelivery(cfg, oracle, old(View()), id)
      ensures Deliveries.Keyed(old(View()).environments) && Teardown.DistinctIds(old(View()).dnsRows) ==>
              Deliveries.CloseTold(cfg, old(View()), id, View(), err)
      ensures CloseRecovery.Closable(old(View()), id) ==>
              CloseRecovery.CloseGoal(cfg, id, CrashRecovery.See(View())) ==
              CloseRecovery.CloseGoal(cfg, id, CrashRecovery.See(old(View())))
      ensures CloseRecovery.Closable(old(View()), id) && CrashRecovery.AllOk(oracle) ==>
              err.None? && CrashRecovery.See(View()) ==
                           CloseRecovery.CloseGoal(cfg, id, CrashRecovery.See(old(View())))
    {
      hide CloseRecovery.Closable, CloseRecovery.CloseGoal, CrashRecovery.See, CrashRecovery.AllOk, Teardown.DistinctIds,
        Deliveries.Keyed, Deliveries.CloseTold;
      ghost var w := View();
      if Deliveries.Keyed(w.environments) && Teardown.DistinctIds(w.dnsRows) { Deliveries.CloseAnswers(cfg, oracle, w, id); }
      if CloseRecovery.Closable(w, id) { CloseRecovery.CloseKeepsGoal(cfg, oracle, w, id); }
      var env := GetEnvironment(id);
      if env == Err(RowNotFound) { return None; }
      if env.Err? { return Some(env.error); }
      err := DestroyWithoutEvent(env.value);
    }
  }
}
