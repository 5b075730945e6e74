/**
 The durable tables and the outside world a reconciler pass acts on, and the single calls it makes:
 store operations (internal/store/sqlite.go) and provider operations (providers/providerapi).
 An oracle answers every call, so statements over all oracles cover every pattern of failures.
 */
module Calls {
  import opened Wrappers
  import opened Transitions

  const Second: int := 1_000_000_000

  // (project, branch) is UNIQUE and environment rows are never deleted, so the pair names the row
  // as well as its random id does. NoId is the id of the zero Environment.
  datatype EnvId = NoId | EnvId(project: string, branch: string)

  datatype Environment = Environment(
    id: EnvId, prNumber: int, subdomain: string, artifactRef: string, deployRef: string, status: Status,
    lastGoodArtifactRef: string, lastGoodDeployRef: string, pinned: bool,
    ttlExpiresAt: Option<int>, createdAt: int, updatedAt: int)

  // What a failed store call hands back.
  const ZeroEnvironment: Environment :=
    Environment(NoId, 0, "", "", "", Unknown(""), "", "", false, None, 0, 0)

  datatype ApplyRequest = ApplyRequest(
    project: string, branch: string, prNumber: int, subdomain: string, artifactRef: string)

  datatype DnsRow = DnsRow(rowId: nat, envId: EnvId, name: string, value: string, ownershipTag: string)

  // The table keeps each row's superseded versions beside the current one; code only ever reads `current`.
  datatype Versions = Versions(past: seq<Environment>, current: Environment) {
    function All(): seq<Environment> { past + [current] }
  }

  // healthy: a health check has succeeded since the last Apply on this ref.
  datatype Deployment = Deployment(artifact: string, running: bool, healthy: bool)

  datatype Published = Published(value: string, tag: string)

  // One step of a teardown pass, with what became of it.
  datatype TeardownStep =
    | RecordDeletion(rowId: nat, ok: bool)
    | RowRemoval(rowId: nat, gone: bool, ok: bool)
    | Revocation(name: string, ok: bool)
    | CertificateRemoval(name: string, ok: bool)
    | DeploymentRemoval(ref: string, ok: bool)

  datatype World = World(
    environments: map<EnvId, Versions>,
    dnsRows: seq<DnsRow>, nextRow: nat,
    deployments: map<string, Deployment>,
    zone: map<string, Published>,
    certificates: set<string>, installed: set<string>,
    now: int, calls: nat,
    deployCalls: nat, rejections: nat, steps: seq<TeardownStep>, notices: seq<string>)
  {
    function Current(id: EnvId): Environment
      requires id in environments
    {
      environments[id].current
    }
  }

  // Deploy providers choose refs and addresses by fixed rules; certificate capabilities are fixed per deployment target.
  datatype Config = Config(
    baseDomain: string, defaultTTL: int, readinessTimeout: int, readinessPollInterval: int, maxConcurrent: int,
    installsCertificates: bool, removesCertificates: bool, issuesPem: bool,
    refOf: (string, string, string) -> string, addrOf: string -> string, tagOf: (string, string) -> string)

  /** WithReadiness keeps both durations positive. */
  predicate ValidConfig(c: Config) {
    c.readinessTimeout > 0 && c.readinessPollInterval > 0
  }

  datatype Kind = StoreCall | ProviderCall

  // ok: the call reports success. applied: a call that reports failure took effect all the same.
  // healthy: the answer of a successful health check. lag: time the call took.
  datatype Reply = Reply(ok: bool, applied: bool, healthy: bool, lag: nat) {
    predicate Acts() { ok || applied }
  }

  type Oracle = (Kind, nat) -> Reply

  datatype Error = CallFailed | RowNotFound | RowConflict | IllegalTransition | NotHealthy | OwnerMismatch
    | InvalidAction | TeardownIncomplete | ApplyFailed

  // The state after an operation, with what the operation returns.
  datatype Ran<+T> = Ran(w: World, out: T)

  function Tick(o: Oracle, w: World, k: Kind): World {
    w.(calls := w.calls + 1, now := w.now + o(k, w.calls).lag)
  }

  function Sleep(w: World, d: int): World {
    w.(now := w.now + d)
  }

  function Fqdn(c: Config, subdomain: string): string {
    subdomain + "." + c.baseDomain
  }

  // ---------- store ----------

  function GetEnvironment(o: Oracle, w: World, id: EnvId): Ran<Result<Environment, Error>> {
    var w1 := Tick(o, w, StoreCall);
    if !o(StoreCall, w.calls).ok then Ran(w1, Err(CallFailed))
    else if id !in w.environments then Ran(w1, Err(RowNotFound))
    else Ran(w1, Ok(w.Current(id)))
  }

  function CreateEnvironment(o: Oracle, w: World, env: Environment): Ran<Result<Environment, Error>> {
    var r := o(StoreCall, w.calls);
    var w1 := Tick(o, w, StoreCall);
    if !r.Acts() then Ran(w1, Err(CallFailed))
    else if env.id in w.environments then Ran(w1, Err(RowConflict))
    else
      var row := env.(createdAt := w1.now, updatedAt := w1.now);
      Ran(w1.(environments := w1.environments[env.id := Versions([], row)]),
          if r.ok then Ok(row) else Err(CallFailed))
  }

  /** One transaction checks the transition and writes the whole row; a second statement reads it back. */
  function UpdateEnvironment(o: Oracle, w: World, env: Environment): Ran<Result<Environment, Error>> {
    var r := o(StoreCall, w.calls);
    var w1 := Tick(o, w, StoreCall);
    if !r.Acts() then Ran(w1, Err(CallFailed))
    else if env.id !in w.environments then Ran(w1, Err(RowNotFound))
    else if !CanTransition(w.Current(env.id).status, env.status) then
      Ran(w1.(rejections := w1.rejections + 1), Err(IllegalTransition))
    else
      var v := w.environments[env.id];
      var row := env.(createdAt := v.current.createdAt, updatedAt := w1.now);
      var w2 := w1.(environments := w1.environments[env.id := Versions(v.All(), row)]);
      if !r.ok then Ran(w2, Err(CallFailed)) else GetEnvironment(o, w2, env.id)
  }

  function LiveIds(w: World): set<EnvId> {
    set id | id in w.environments && w.Current(id).status != Destroyed
  }

  function CountLiveEnvironments(o: Oracle, w: World): Ran<Result<nat, Error>> {
    Ran(Tick(o, w, StoreCall), if o(StoreCall, w.calls).ok then Ok(|LiveIds(w)|) else Err(CallFailed))
  }

  function RowsOf(rows: seq<DnsRow>, id: EnvId): seq<DnsRow> {
    if rows == [] then []
    else
      var rest := RowsOf(rows[..|rows| - 1], id);
      if rows[|rows| - 1].envId == id then rest + [rows[|rows| - 1]] else rest
  }

  function WithoutRow(rows: seq<DnsRow>, rowId: nat): seq<DnsRow> {
    if rows == [] then []
    else
      var rest := WithoutRow(rows[..|rows| - 1], rowId);
      if rows[|rows| - 1].rowId == rowId then rest else rest + [rows[|rows| - 1]]
  }

  function ListDnsRecords(o: Oracle, w: World, id: EnvId): Ran<Result<seq<DnsRow>, Error>> {
    Ran(Tick(o, w, StoreCall),
        if o(StoreCall, w.calls).ok then Ok(RowsOf(w.dnsRows, id)) else Err(CallFailed))
  }

  /** The foreign key on environment_id refuses a record for a row that does not exist. */
  function CreateDnsRecord(o: Oracle, w: World, id: EnvId, name: string, value: string, tag: string): Ran<Option<Error>> {
    var r := o(StoreCall, w.calls);
    var w1 := Tick(o, w, StoreCall);
    if !r.Acts() || id !in w.environments then Ran(w1, Some(CallFailed))
    else
      Ran(w1.(dnsRows := w1.dnsRows + [DnsRow(w1.nextRow, id, name, value, tag)], nextRow := w1.nextRow + 1),
          if r.ok then None else Some(CallFailed))
  }

  function DeleteDnsRecord(o: Oracle, w: World, rowId: nat): Ran<Option<Error>> {
    var r := o(StoreCall, w.calls);
    var w1 := Tick(o, w, StoreCall);
    Ran(w1.(dnsRows := if r.Acts() then WithoutRow(w1.dnsRows, rowId) else w1.dnsRows,
            steps := w1.steps + [RowRemoval(rowId, r.Acts(), r.ok)]),
        if r.ok then None else Some(CallFailed))
  }

  // ---------- providers ----------

  function Answer(r: Reply): Option<Error> {
    if r.ok then None else Some(CallFailed)
  }

  function DeployApply(o: Oracle, w: World, ref: string, artifact: string): Ran<Option<Error>> {
    var r := o(ProviderCall, w.calls);
    var w1 := Tick(o, w, ProviderCall);
    Ran(w1.(deployments := if r.Acts() then w1.deployments[ref := Deployment(artifact, true, false)] else w1.deployments,
            deployCalls := w1.deployCalls + 1),
        Answer(r))
  }

  function DeploySetRunning(o: Oracle, w: World, ref: string, running: bool): Ran<Option<Error>> {
    var r := o(ProviderCall, w.calls);
    var w1 := Tick(o, w, ProviderCall);
    Ran(w1.(deployments := if r.Acts() && ref in w1.deployments
                           then w1.deployments[ref := w1.deployments[ref].(running := running)] else w1.deployments),
        Answer(r))
  }

  function DeployDestroy(o: Oracle, w: World, ref: string): Ran<Option<Error>> {
    var r := o(ProviderCall, w.calls);
    var w1 := Tick(o, w, ProviderCall);
    Ran(w1.(deployments := if r.Acts() then w1.deployments - {ref} else w1.deployments,
            steps := w1.steps + [DeploymentRemoval(ref, r.ok)]),
        Answer(r))
  }

  datatype Probe = ProbeFailed | Unhealthy | Healthy

  function HealthCheck(o: Oracle, w: World, ref: string): Ran<Probe> {
    var r := o(ProviderCall, w.calls);
    var w1 := Tick(o, w, ProviderCall);
    if !r.ok then Ran(w1, ProbeFailed)
    else if !r.healthy then Ran(w1, Unhealthy)
    else
      Ran(w1.(deployments := if ref in w1.deployments
                             then w1.deployments[ref := w1.deployments[ref].(healthy := true)] else w1.deployments),
          Healthy)
  }

  function EnsureRecord(o: Oracle, w: World, name: string, value: string, tag: string): Ran<Option<Error>> {
    var r := o(ProviderCall, w.calls);
    var w1 := Tick(o, w, ProviderCall);
    Ran(w1.(zone := if r.Acts() then w1.zone[name := Published(value, tag)] else w1.zone), Answer(r))
  }

  /**
   Deletes a record whose tag matches and refuses one whose tag does not. The reconciler treats
   ErrRecordAlreadyAbsent as success, so an absent record answers like a deleted one.
   */
  function DeleteRecord(o: Oracle, w: World, rec: DnsRow): Ran<Option<Error>> {
    var r := o(ProviderCall, w.calls);
    var w1 := Tick(o, w, ProviderCall);
    var mine := rec.name in w1.zone ==> w1.zone[rec.name].tag == rec.ownershipTag;
    Ran(w1.(zone := if r.Acts() && mine then w1.zone - {rec.name} else w1.zone,
            steps := w1.steps + [RecordDeletion(rec.rowId, r.ok && mine)]),
        if r.ok && !mine then Some(OwnerMismatch) else Answer(r))
  }

  function EnsureCertificate(o: Oracle, w: World, name: string): Ran<Option<Error>> {
    var r := o(ProviderCall, w.calls);
    var w1 := Tick(o, w, ProviderCall);
    Ran(w1.(certificates := if r.Acts() then w1.certificates + {name} else w1.certificates), Answer(r))
  }

  function InstallCertificate(o: Oracle, w: World, name: string): Ran<Option<Error>> {
    var r := o(ProviderCall, w.calls);
    var w1 := Tick(o, w, ProviderCall);
    Ran(w1.(installed := if r.Acts() then w1.installed + {name} else w1.installed), Answer(r))
  }

  function RevokeCertificate(o: Oracle, w: World, name: string): Ran<Option<Error>> {
    var r := o(ProviderCall, w.calls);
    var w1 := Tick(o, w, ProviderCall);
    Ran(w1.(certificates := if r.Acts() then w1.certificates - {name} else w1.certificates,
            steps := w1.steps + [Revocation(name, r.ok)]),
        Answer(r))
  }

  function RemoveCertificate(o: Oracle, w: World, name: string): Ran<Option<Error>> {
    var r := o(ProviderCall, w.calls);
    var w1 := Tick(o, w, ProviderCall);
    Ran(w1.(installed := if r.Acts() then w1.installed - {name} else w1.installed,
            steps := w1.steps + [CertificateRemoval(name, r.ok)]),
        Answer(r))
  }

  function Notify(o: Oracle, w: World, kind: string): World {
    Tick(o, w, ProviderCall).(notices := w.notices + [kind])
  }
}
