/**
 Crash recovery of one delivery. A crash after any prefix of the calls is an oracle that falls silent; whatever a
 crashed pass did, the final state that a later successful replay reaches is the one an uninterrupted run reaches.
 The argument: the goal of a delivery is a function of the visible state, every pass preserves it, and a successful pass attains it.
 */
module CrashRecovery {
  import opened Wrappers
  import opened Transitions
  import opened Calls
  import opened Lifecycle
  import opened ApplyOutcome

  // Everything durable, with the time stamps and the TTL left out; a table is a set of rows.
  datatype Visible = Visible(
    rows: map<EnvId, Environment>, dnsRows: set<DnsRow>, nextRow: nat,
    deployments: map<string, Deployment>, zone: map<string, Published>,
    certificates: set<string>, installed: set<string>)

  function Untimed(e: Environment): Environment {
    e.(ttlExpiresAt := None, createdAt := 0, updatedAt := 0)
  }

  function CurrentRows(t: map<EnvId, Versions>): map<EnvId, Environment> {
    map id | id in t :: Untimed(t[id].current)
  }

  function RowSet(rows: seq<DnsRow>): set<DnsRow> {
    set r | r in rows
  }

  function See(w: World): Visible {
    Visible(CurrentRows(w.environments), RowSet(w.dnsRows), w.nextRow, w.deployments, w.zone, w.certificates, w.installed)
  }

  ghost predicate AllOk(o: Oracle) {
    forall k, n: nat :: o(k, n).ok && o(k, n).healthy
  }

  /** The process dies before call n: until then the store works and providers do anything; from then on nothing happens. */
  ghost predicate CrashesAt(o: Oracle, n: nat) {
    && (forall m: nat :: m < n ==> o(StoreCall, m).ok)
    && (forall k, m: nat :: m >= n ==> !o(k, m).Acts())
  }

  /** Deploying onto the ref a provider chose earlier keeps that ref. */
  ghost predicate RefsStable(c: Config) {
    forall p, b, x :: c.refOf(p, b, c.refOf(p, b, x)) == c.refOf(p, b, x)
  }

  // ---------- the goal of a push ----------

  function IdOf(req: ApplyRequest): EnvId {
    EnvId(req.project, req.branch)
  }

  function RefFor(c: Config, req: ApplyRequest, prev: string): string {
    c.refOf(req.project, req.branch, prev)
  }

  function GoalRow(c: Config, req: ApplyRequest, row: Environment): Environment {
    var ref := RefFor(c, req, row.deployRef);
    Untimed(row).(prNumber := req.prNumber, subdomain := req.subdomain, artifactRef := req.artifactRef, deployRef := ref,
                  status := Ready, lastGoodArtifactRef := req.artifactRef, lastGoodDeployRef := ref)
  }

  function BaseRow(req: ApplyRequest, rows: map<EnvId, Environment>): Environment {
    if IdOf(req) in rows then rows[IdOf(req)] else NewRow(req)
  }

  predicate Recorded(rows: set<DnsRow>, id: EnvId, name: string) {
    exists r :: r in rows && r.envId == id && r.name == name
  }

  function GoalRecord(c: Config, req: ApplyRequest, ref: string, rowId: nat): DnsRow {
    DnsRow(rowId, IdOf(req), Fqdn(c, req.subdomain), c.addrOf(ref), c.tagOf(req.project, req.branch))
  }

  /** The state in which req is deployed, published and recorded. */
  function Deployed(c: Config, req: ApplyRequest, v: Visible): Visible {
    var row := BaseRow(req, v.rows);
    var ref := RefFor(c, req, row.deployRef);
    var name := Fqdn(c, req.subdomain);
    var known := Recorded(v.dnsRows, IdOf(req), name);
    Visible(
      v.rows[IdOf(req) := GoalRow(c, req, row)],
      if known then v.dnsRows else v.dnsRows + {GoalRecord(c, req, ref, v.nextRow)},
      if known then v.nextRow else v.nextRow + 1,
      v.deployments[ref := Deployment(req.artifactRef, true, true)],
      v.zone[name := Published(c.addrOf(ref), c.tagOf(req.project, req.branch))],
      v.certificates + {name},
      if c.installsCertificates && c.issuesPem then v.installed + {name} else v.installed)
  }

  function LiveRows(rows: map<EnvId, Environment>): set<EnvId> {
    set id | id in rows && rows[id].status != Destroyed
  }

  predicate Wanted(c: Config, allowed: bool, req: ApplyRequest, v: Visible) {
    allowed && (c.maxConcurrent <= 0 || IdOf(req) in v.rows || |LiveRows(v.rows)| < c.maxConcurrent)
  }

  function PushGoal(c: Config, allowed: bool, req: ApplyRequest, v: Visible): Visible {
    if Wanted(c, allowed, req, v) then Deployed(c, req, v) else v
  }

  // ---------- every pass preserves the goal ----------

  /** w and w' have the same deployed state for req, and agree on what does not depend on it. */
  ghost predicate SameGoal(c: Config, req: ApplyRequest, w: World, w': World) {
    Deployed(c, req, See(w')) == Deployed(c, req, See(w))
  }

  /** A row write moves no goal if it keeps the ref the next deployment will use. */
  lemma RowKeepsGoal(c: Config, req: ApplyRequest, v: Visible, row: Environment)
    requires IdOf(req) in v.rows && row == Untimed(row) && v.rows[IdOf(req)] == Untimed(v.rows[IdOf(req)])
    requires row.id == v.rows[IdOf(req)].id && row.pinned == v.rows[IdOf(req)].pinned
    requires RefFor(c, req, row.deployRef) == RefFor(c, req, v.rows[IdOf(req)].deployRef)
    ensures Deployed(c, req, v.(rows := v.rows[IdOf(req) := row])) == Deployed(c, req, v)
  {
    var id, was := IdOf(req), v.rows[IdOf(req)];
    assert GoalRow(c, req, row) == GoalRow(c, req, was);
    assert v.rows[id := row][id := GoalRow(c, req, was)] == v.rows[id := GoalRow(c, req, was)];
  }

  predicate SameOutside(w: World, w': World) {
    && w'.dnsRows == w.dnsRows && w'.nextRow == w.nextRow && w'.deployments == w.deployments
    && w'.zone == w.zone && w'.certificates == w.certificates && w'.installed == w.installed
  }

  lemma WriteFrame(o: Oracle, w: World, env: Environment)
    requires env.id in w.environments
    ensures var w' := UpdateEnvironment(o, w, env).w;
      && SameOutside(w, w') && w'.calls > w.calls
      && (w'.environments == w.environments
          || exists v: Versions :: w'.environments == w.environments[env.id := v] && Untimed(v.current) == Untimed(env))
  {
    var w' := UpdateEnvironment(o, w, env).w;
    if w'.environments != w.environments {
      assert w'.environments == w.environments[env.id := w'.environments[env.id]];
    }
  }

  /** A write either leaves the visible state alone or replaces the one row. */
  lemma SeeWrite(o: Oracle, w: World, env: Environment)
    requires env.id in w.environments
    ensures var u := UpdateEnvironment(o, w, env);
      See(u.w) == See(w) || See(u.w) == See(w).(rows := See(w).rows[env.id := Untimed(env)])
  {
    WriteFrame(o, w, env);
    hide UpdateEnvironment;
    var w' := UpdateEnvironment(o, w, env).w;
    if w'.environments != w.environments {
      var v: Versions :| w'.environments == w.environments[env.id := v] && Untimed(v.current) == Untimed(env);
      assert CurrentRows(w.environments[env.id := v]) == CurrentRows(w.environments)[env.id := Untimed(v.current)];
    }
  }

  lemma WriteKeepsGoal(c: Config, o: Oracle, w: World, env: Environment, was: Environment, req: ApplyRequest)
    requires Fresh(w, was) && was.id == env.id == IdOf(req) && env.pinned == was.pinned
    requires RefFor(c, req, env.deployRef) == RefFor(c, req, was.deployRef)
    ensures SameGoal(c, req, w, UpdateEnvironment(o, w, env).w)
  {
    SeeWrite(o, w, env);
    assert See(w).rows[IdOf(req)] == Untimed(was);
    hide UpdateEnvironment, Deployed;
    RowKeepsGoal(c, req, See(w), Untimed(env));
  }

  /** While the process lives the store works: a legal write of an existing row is read back, or the process has died. */
  lemma WriteLands(o: Oracle, n: nat, w: World, env: Environment)
    requires CrashesAt(o, n)
    requires env.id in w.environments && CanTransition(w.Current(env.id).status, env.status)
    ensures var u := UpdateEnvironment(o, w, env);
      && u.w.calls > w.calls
      && (u.out.Err? ==> u.w.calls >= n)
      && (u.out.Ok? ==> Fresh(u.w, u.out.value) && Untimed(u.out.value) == Untimed(env))
  {
  }

  lemma {:induction false} WaitKeepsGoal(c: Config, o: Oracle, w: World, ref: string, deadline: int, d: Deployment)
    requires ValidConfig(c)
    ensures var h := WaitUntilHealthy(c, o, w, ref, deadline);
      See(h.w) == See(w).(deployments := h.w.deployments) && h.w.environments == w.environments && h.w.calls >= w.calls
      && h.w.deployments[ref := d] == w.deployments[ref := d]
    decreases if w.now < deadline then deadline - w.now else 0
  {
    if o(ProviderCall, w.calls).ok {
      var h := HealthCheck(o, Tick(o, w, ProviderCall), ref);
      assert h.w.deployments[ref := d] == w.deployments[ref := d];
      if h.out == Unhealthy && h.w.now < deadline {
        WaitKeepsGoal(c, o, Sleep(h.w, c.readinessPollInterval), ref, deadline, d);
      }
    }
  }

  // ---------- publishing ----------

  /** What publishing for ref may have done to the visible state when it returned; done says that all of it happened. */
  predicate PublishShape(c: Config, req: ApplyRequest, ref: string, v: Visible, v': Visible, done: bool) {
    var name := Fqdn(c, req.subdomain);
    var full := v.zone[name := Published(c.addrOf(ref), c.tagOf(req.project, req.branch))];
    var installs := c.installsCertificates && c.issuesPem;
    && v'.rows == v.rows && v'.deployments == v.deployments
    && (v'.zone == full || (!done && v'.zone == v.zone))
    && (v'.certificates == v.certificates + {name} || (!done && v'.certificates == v.certificates))
    && ((installs && v'.installed == v.installed + {name}) || ((installs ==> !done) && v'.installed == v.installed))
    && RecordShape(c, req, ref, v, v', done)
  }

  predicate RecordShape(c: Config, req: ApplyRequest, ref: string, v: Visible, v': Visible, done: bool) {
    var known := Recorded(v.dnsRows, IdOf(req), Fqdn(c, req.subdomain));
    || ((done ==> known) && v'.dnsRows == v.dnsRows && v'.nextRow == v.nextRow)
    || (!known && v'.dnsRows == v.dnsRows + {GoalRecord(c, req, ref, v.nextRow)} && v'.nextRow == v.nextRow + 1)
  }

  lemma RecordedRows(rows: seq<DnsRow>, id: EnvId, name: string)
    ensures HasRow(RowsOf(rows, id), id, name) <==> Recorded(RowSet(rows), id, name)
  {
    HasRowOf(rows, id, name);
    if HasRow(rows, id, name) {
      var i :| 0 <= i < |rows| && rows[i].envId == id && rows[i].name == name;
      assert rows[i] in RowSet(rows);
    }
  }

  lemma RecordEffect(c: Config, o: Oracle, w: World, req: ApplyRequest, ref: string)
    ensures var r := RecordDnsRow(o, w, IdOf(req), Fqdn(c, req.subdomain), c.addrOf(ref), c.tagOf(req.project, req.branch));
      && r.w.environments == w.environments && r.w.calls >= w.calls
      && See(r.w) == See(w).(dnsRows := RowSet(r.w.dnsRows), nextRow := r.w.nextRow)
      && RecordShape(c, req, ref, See(w), See(r.w), r.out.None?)
      && (AllOk(o) && IdOf(req) in w.environments ==> r.out.None?)
  {
    var name := Fqdn(c, req.subdomain);
    RecordedRows(w.dnsRows, IdOf(req), name);
    var row := GoalRecord(c, req, ref, w.nextRow);
    assert RowSet(w.dnsRows + [row]) == RowSet(w.dnsRows) + {row};
  }

  /** sent is the request an attempt carries: req itself, or req with the revision rolled back to. */
  lemma PublishEffect(c: Config, o: Oracle, w: World, req: ApplyRequest, sent: ApplyRequest, ref: string)
    requires sent.(artifactRef := req.artifactRef) == req
    ensures var p := PublishRecords(c, o, w, IdOf(req), sent, ref);
      && p.w.environments == w.environments && p.w.calls >= w.calls
      && PublishShape(c, req, ref, See(w), See(p.w), p.out.None?)
      && (AllOk(o) && IdOf(req) in w.environments ==> p.out.None?)
  {
    hide RecordDnsRow, RecordShape, RowSet;
    var name, tag := Fqdn(c, req.subdomain), c.tagOf(req.project, req.branch);
    var d := EnsureRecord(o, w, name, c.addrOf(ref), tag);
    var t := EnsureCertificate(o, d.w, name);
    var i := if c.installsCertificates && c.issuesPem then InstallCertificate(o, t.w, name) else t;
    RecordEffect(c, o, i.w, req, ref);
    ShapeReflexive(c, req, ref, See(w));
    ShapeSame(c, req, ref, See(i.w), See(RecordDnsRow(o, i.w, IdOf(req), name, c.addrOf(ref), tag).w), See(w));
  }

  lemma ShapeReflexive(c: Config, req: ApplyRequest, ref: string, v: Visible)
    ensures forall v': Visible :: v'.dnsRows == v.dnsRows && v'.nextRow == v.nextRow ==> RecordShape(c, req, ref, v, v', false)
  {
  }

  lemma ShapeSame(c: Config, req: ApplyRequest, ref: string, v: Visible, v': Visible, u: Visible)
    requires u.dnsRows == v.dnsRows && u.nextRow == v.nextRow
    ensures forall done :: RecordShape(c, req, ref, v, v', done) ==> RecordShape(c, req, ref, u, v', done)
  {
  }

  lemma PublishKeepsGoal(c: Config, req: ApplyRequest, v: Visible, v': Visible, done: bool)
    requires PublishShape(c, req, RefFor(c, req, BaseRow(req, v.rows).deployRef), v, v', done)
    ensures Deployed(c, req, v') == Deployed(c, req, v)
  {
    var name := Fqdn(c, req.subdomain);
    var ref := RefFor(c, req, BaseRow(req, v.rows).deployRef);
    var p := Published(c.addrOf(ref), c.tagOf(req.project, req.branch));
    assert v.zone[name := p][name := p] == v.zone[name := p];
    assert v.certificates + {name} + {name} == v.certificates + {name};
    assert v.installed + {name} + {name} == v.installed + {name};
    var rec := GoalRecord(c, req, ref, v.nextRow);
    assert rec.envId == IdOf(req) && rec.name == name;
  }

  // ---------- applying ----------

  /** The row, if there is one, is neither being torn down nor in an unknown status. */
  predicate Applicable(t: map<EnvId, Versions>, id: EnvId) {
    id in t ==> t[id].current.id == id && t[id].current.status != Destroying && !t[id].current.status.Unknown?
  }

  /** The process is dead, or env is the deploying row of req that the table holds. */
  predicate InStep(n: nat, w: World, env: Environment, req: ApplyRequest) {
    w.calls >= n || (Fresh(w, env) && env.id == IdOf(req) && env.status == Deploying)
  }

  /** What a step of a push does: calls pass, the goal stays, the row stays applicable. */
  ghost predicate Towards(c: Config, req: ApplyRequest, w: World, w': World) {
    && w'.calls >= w.calls && SameGoal(c, req, w, w')
    && (Applicable(w.environments, IdOf(req)) ==> Applicable(w'.environments, IdOf(req)))
    && (IdOf(req) in w.environments ==> IdOf(req) in w'.environments)
  }

  lemma InertAttempt(c: Config, o: Oracle, n: nat, w: World, env: Environment, sent: ApplyRequest)
    requires ValidConfig(c) && CrashesAt(o, n) && w.calls >= n
    ensures var a := AttemptApply(c, o, w, env, sent);
      a.out.err.Some? && See(a.w) == See(w) && a.w.environments == w.environments && a.w.calls >= w.calls
  {
  }

  lemma DeployKeepsGoal(c: Config, o: Oracle, w: World, env: Environment, req: ApplyRequest, sent: ApplyRequest)
    requires ValidConfig(c) && sent.(artifactRef := req.artifactRef) == req
    requires Fresh(w, env) && env.id == IdOf(req)
    ensures var ref := RefFor(c, req, env.deployRef);
      var d := DeployApply(o, w, ref, sent.artifactRef);
      var h := WaitUntilHealthy(c, o, d.w, ref, d.w.now + c.readinessTimeout);
      && d.w.environments == w.environments && SameGoal(c, req, w, d.w) && d.w.calls >= w.calls
      && h.w.environments == w.environments && SameGoal(c, req, w, h.w) && h.w.calls >= w.calls
  {
    var ref := RefFor(c, req, env.deployRef);
    var d := DeployApply(o, w, ref, sent.artifactRef);
    var final := Deployment(req.artifactRef, true, true);
    assert d.w.deployments[ref := final] == w.deployments[ref := final];
    WaitKeepsGoal(c, o, d.w, ref, d.w.now + c.readinessTimeout, final);
    hide WaitUntilHealthy;
    assert See(w).rows[IdOf(req)] == Untimed(env);
    assert See(d.w) == See(w).(deployments := d.w.deployments);
  }

  /** Everything before the final write of an attempt. */
  lemma PublishKeepsStep(c: Config, o: Oracle, w: World, env: Environment, req: ApplyRequest, sent: ApplyRequest)
    requires ValidConfig(c) && sent.(artifactRef := req.artifactRef) == req
    requires Fresh(w, env) && env.id == IdOf(req)
    ensures var ref := RefFor(c, req, env.deployRef);
      var d := DeployApply(o, w, ref, sent.artifactRef);
      var h := WaitUntilHealthy(c, o, d.w, ref, d.w.now + c.readinessTimeout);
      var p := PublishRecords(c, o, h.w, env.id, sent, ref);
      p.w.environments == w.environments && SameGoal(c, req, w, p.w) && p.w.calls >= w.calls
  {
    var ref := RefFor(c, req, env.deployRef);
    DeployKeepsGoal(c, o, w, env, req, sent);
    var d := DeployApply(o, w, ref, sent.artifactRef);
    var h := WaitUntilHealthy(c, o, d.w, ref, d.w.now + c.readinessTimeout);
    PublishEffect(c, o, h.w, req, sent, ref);
    var p := PublishRecords(c, o, h.w, env.id, sent, ref);
    hide WaitUntilHealthy, PublishRecords, Deployed, PublishShape, DeployApply;
    assert See(h.w).rows[IdOf(req)] == Untimed(env);
    PublishKeepsGoal(c, req, See(h.w), See(p.w), p.out.None?);
  }

  lemma ReadyWrite(c: Config, o: Oracle, n: nat, w: World, env: Environment, req: ApplyRequest, artifact: string)
    requires ValidConfig(c) && RefsStable(c) && CrashesAt(o, n)
    requires Fresh(w, env) && env.id == IdOf(req) && env.status == Deploying
    ensures var u := UpdateEnvironment(o, w, ReadyRow(c, env, RefFor(c, req, env.deployRef), artifact, w.now));
      && Towards(c, req, w, u.w)
      && (u.out.Err? ==> u.w.calls >= n)
      && (u.out.Ok? ==> Fresh(u.w, u.out.value) && u.out.value.id == IdOf(req) && u.out.value.status == Ready)
  {
    var row := ReadyRow(c, env, RefFor(c, req, env.deployRef), artifact, w.now);
    WriteKeepsGoal(c, o, w, row, env, req);
    WriteLands(o, n, w, row);
    WriteStatus(o, w, row);
  }

  lemma GoalTransitive(c: Config, req: ApplyRequest, w: World, w': World, w'': World)
    requires SameGoal(c, req, w, w') && SameGoal(c, req, w', w'')
    ensures SameGoal(c, req, w, w'')
  {
  }

  /** An attempt stops at its first failing part; each part picks up where the one before it left off. */
  lemma AttemptParts(c: Config, o: Oracle, w: World, env: Environment, req: ApplyRequest, sent: ApplyRequest)
    requires ValidConfig(c) && sent.(artifactRef := req.artifactRef) == req
    ensures var ref := RefFor(c, req, env.deployRef);
      var a := AttemptApply(c, o, w, env, sent);
      var d := DeployApply(o, w, ref, sent.artifactRef);
      var h := WaitUntilHealthy(c, o, d.w, ref, d.w.now + c.readinessTimeout);
      var p := PublishRecords(c, o, h.w, env.id, sent, ref);
      var u := UpdateEnvironment(o, p.w, ReadyRow(c, env, ref, sent.artifactRef, p.w.now));
      || (a.out.err.Some? && a.out.env == env && (a.w == d.w || a.w == h.w || a.w == p.w))
      || (a.w == u.w && a.out == if u.out.Ok? then Attempt(u.out.value, None) else Attempt(ZeroEnvironment, Some(u.out.error)))
  {
    hide DeployApply, WaitUntilHealthy, PublishRecords, UpdateEnvironment, ReadyRow;
  }

  lemma AttemptKeepsGoal(c: Config, o: Oracle, n: nat, w: World, env: Environment, req: ApplyRequest, sent: ApplyRequest)
    requires ValidConfig(c) && RefsStable(c) && CrashesAt(o, n) && sent.(artifactRef := req.artifactRef) == req
    requires InStep(n, w, env, req)
    ensures var a := AttemptApply(c, o, w, env, sent);
      && Towards(c, req, w, a.w)
      && (a.out.err.Some? ==> a.w.calls >= n || (a.out.env == env && InStep(n, a.w, env, req)))
      && (a.out.err.None? ==>
            && Fresh(a.w, a.out.env) && a.out.env.id == IdOf(req) && a.out.env.status == Ready)
  {
    hide WaitUntilHealthy, PublishRecords, UpdateEnvironment, DeployApply, Deployed, See, RefsStable, CrashesAt, ReadyRow,
      AttemptApply, RefFor;
    if w.calls >= n {
      InertAttempt(c, o, n, w, env, sent);
    } else {
      AttemptParts(c, o, w, env, req, sent);
      var ref := RefFor(c, req, env.deployRef);
      DeployKeepsGoal(c, o, w, env, req, sent);
      PublishKeepsStep(c, o, w, env, req, sent);
      var d := DeployApply(o, w, ref, sent.artifactRef);
      var h := WaitUntilHealthy(c, o, d.w, ref, d.w.now + c.readinessTimeout);
      var p := PublishRecords(c, o, h.w, env.id, sent, ref);
      ReadyWrite(c, o, n, p.w, env, req, sent.artifactRef);
      var u := UpdateEnvironment(o, p.w, ReadyRow(c, env, ref, sent.artifactRef, p.w.now));
      GoalTransitive(c, req, w, p.w, u.w);
    }
  }

  /** A refused or lost write leaves the old status, any other the new one. */
  lemma WriteStatus(o: Oracle, w: World, env: Environment)
    requires env.id in w.environments && env.status != Destroying && !env.status.Unknown?
    ensures var w' := UpdateEnvironment(o, w, env).w;
      env.id in w'.environments && (Applicable(w.environments, env.id) ==> Applicable(w'.environments, env.id))
  {
  }

  lemma TowardsTransitive(c: Config, req: ApplyRequest, w: World, w': World, w'': World)
    requires Towards(c, req, w, w') && Towards(c, req, w', w'')
    ensures Towards(c, req, w, w'')
  {
    hide SameGoal, Applicable;
    GoalTransitive(c, req, w, w', w'');
  }

  /** Only the clock, counters or notices moved. */
  lemma TowardsSame(c: Config, req: ApplyRequest, w: World, w': World)
    requires See(w') == See(w) && w'.environments == w.environments && w'.calls >= w.calls
    ensures Towards(c, req, w, w')
  {
    hide See, Deployed;
  }

  lemma {:induction false} LoopKeepsGoal(c: Config, o: Oracle, n: nat, w: World, env: Environment, req: ApplyRequest, attempt: nat)
    requires ValidConfig(c) && RefsStable(c) && CrashesAt(o, n)
    requires InStep(n, w, env, req) && 1 <= attempt <= MaxApplyAttempts
    ensures var a := ApplyLoop(c, o, w, env, req, attempt);
      Towards(c, req, w, a.w) && (a.out.err.Some? ==> InStep(n, a.w, a.out.env, req))
    decreases MaxApplyAttempts - attempt
  {
    hide AttemptApply, Towards;
    var w1 := if attempt > 1 then Sleep(w, ApplyBackoff(attempt)) else w;
    TowardsSame(c, req, w, w1);
    AttemptKeepsGoal(c, o, n, w1, env, req, req);
    var a := AttemptApply(c, o, w1, env, req);
    TowardsTransitive(c, req, w, w1, a.w);
    if a.out.err.Some? && attempt < MaxApplyAttempts {
      LoopKeepsGoal(c, o, n, a.w, a.out.env, req, attempt + 1);
      TowardsTransitive(c, req, w, a.w, ApplyLoop(c, o, a.w, a.out.env, req, attempt + 1).w);
    }
  }

  /** Writing row, which differs from the held row in fields the goal overwrites, and then notifying. */
  lemma ClosingWrite(c: Config, o: Oracle, w: World, was: Environment, row: Environment, req: ApplyRequest, kind: string)
    requires Fresh(w, was) && was.id == row.id == IdOf(req) && row.pinned == was.pinned && row.deployRef == was.deployRef
    requires row.status != Destroying && !row.status.Unknown?
    ensures Towards(c, req, w, Notify(o, UpdateEnvironment(o, w, row).w, kind))
  {
    WriteKeepsGoal(c, o, w, row, was, req);
    WriteStatus(o, w, row);
    WriteFrame(o, w, row);
    hide UpdateEnvironment;
    var u := UpdateEnvironment(o, w, row);
    assert See(Notify(o, u.w, kind)) == See(u.w);
  }

  lemma InertWrite(c: Config, o: Oracle, n: nat, w: World, row: Environment, req: ApplyRequest, kind: string)
    requires CrashesAt(o, n) && w.calls >= n
    ensures Towards(c, req, w, Notify(o, UpdateEnvironment(o, w, row).w, kind))
    ensures UpdateEnvironment(o, w, row).out.Err?
  {
    TowardsSame(c, req, w, Notify(o, UpdateEnvironment(o, w, row).w, kind));
  }

  lemma FailingKeepsGoal(c: Config, o: Oracle, n: nat, w: World, env: Environment, req: ApplyRequest)
    requires CrashesAt(o, n) && InStep(n, w, env, req)
    ensures Towards(c, req, w, MarkFailed(o, w, env))
  {
    hide UpdateEnvironment, Towards;
    var row := env.(status := Failed);
    if w.calls >= n { InertWrite(c, o, n, w, row, req, "failed"); }
    else { ClosingWrite(c, o, w, env, row, req, "failed"); }
  }

  lemma GivingUpKeepsGoal(c: Config, o: Oracle, n: nat, w: World, env: Environment, req: ApplyRequest)
    requires ValidConfig(c) && RefsStable(c) && CrashesAt(o, n) && InStep(n, w, env, req)
    ensures Towards(c, req, w, GiveUp(c, o, w, env, req))
  {
    hide AttemptApply, UpdateEnvironment, Towards, MarkFailed, Notify, CrashesAt;
    FailingKeepsGoal(c, o, n, w, env, req);
    if env.lastGoodArtifactRef != "" && env.lastGoodArtifactRef != req.artifactRef {
      var back := req.(artifactRef := env.lastGoodArtifactRef);
      AttemptKeepsGoal(c, o, n, w, env, req, back);
      var b := AttemptApply(c, o, w, env, back);
      if b.out.err.None? {
        var row := b.out.env.(status := Degraded, artifactRef := req.artifactRef);
        ClosingWrite(c, o, b.w, b.out.env, row, req, "degraded");
        TowardsTransitive(c, req, w, b.w, Notify(o, UpdateEnvironment(o, b.w, row).w, "degraded"));
      } else {
        FailingKeepsGoal(c, o, n, b.w, env, req);
        TowardsTransitive(c, req, w, b.w, MarkFailed(o, b.w, env));
      }
    }
  }

  lemma DeployingWrite(c: Config, o: Oracle, n: nat, w: World, env: Environment, req: ApplyRequest)
    requires CrashesAt(o, n)
    requires Fresh(w, env) && env.id == IdOf(req) && Applicable(w.environments, env.id)
    ensures var u := UpdateEnvironment(o, w, DeployingRow(env, req));
      Towards(c, req, w, u.w) && (u.out.Ok? ==> InStep(n, u.w, u.out.value, req))
  {
    var row := DeployingRow(env, req);
    EntryPoints(env.status);
    WriteKeepsGoal(c, o, w, row, env, req);
    WriteLands(o, n, w, row);
    WriteStatus(o, w, row);
  }

  lemma TowardsNotified(c: Config, o: Oracle, req: ApplyRequest, w: World, kind: string)
    ensures Towards(c, req, w, Notify(o, w, kind))
  {
    TowardsSame(c, req, w, Notify(o, w, kind));
  }

  lemma ApplyKeepsGoal(c: Config, o: Oracle, n: nat, w: World, env: Environment, req: ApplyRequest)
    requires ValidConfig(c) && RefsStable(c) && CrashesAt(o, n)
    requires Fresh(w, env) && env.id == IdOf(req) && Applicable(w.environments, env.id)
    ensures Towards(c, req, w, DoApply(c, o, w, env, req).w)
  {
    hide ApplyLoop, GiveUp, UpdateEnvironment, Towards, CrashesAt, Applicable, Notify, RefsStable, DeployingRow, InStep;
    DeployingWrite(c, o, n, w, env, req);
    var u := UpdateEnvironment(o, w, DeployingRow(env, req));
    if u.out.Ok? {
      LoopKeepsGoal(c, o, n, u.w, u.out.value, req, 1);
      var a := ApplyLoop(c, o, u.w, u.out.value, req, 1);
      TowardsTransitive(c, req, w, u.w, a.w);
      if a.out.err.None? {
        var kind := if IsUpdate(env) then "updated" else "ready";
        TowardsNotified(c, o, req, a.w, kind);
        TowardsTransitive(c, req, w, a.w, Notify(o, a.w, kind));
      } else {
        GivingUpKeepsGoal(c, o, n, a.w, a.out.env, req);
        TowardsTransitive(c, req, w, a.w, GiveUp(c, o, a.w, a.out.env, req));
      }
    }
  }

  /** Finding or creating the row either changes nothing visible or adds the pending row of the request. */
  lemma UpsertSees(o: Oracle, w: World, req: ApplyRequest)
    requires Applicable(w.environments, IdOf(req))
    ensures var u := UpsertPendingEnvironment(o, w, req);
      && u.w.calls >= w.calls && Applicable(u.w.environments, IdOf(req))
      && (IdOf(req) in w.environments || u.out.Ok? ==> IdOf(req) in u.w.environments)
      && (u.out.Ok? ==> Fresh(u.w, u.out.value) && u.out.value.id == IdOf(req))
      && (AllOk(o) ==> u.out.Ok?)
      && (See(u.w) == See(w)
          || (IdOf(req) !in See(w).rows && See(u.w) == See(w).(rows := See(w).rows[IdOf(req) := NewRow(req)])))
  {
    var u := UpsertPendingEnvironment(o, w, req);
    if u.w.environments != w.environments {
      var row := u.w.Current(IdOf(req));
      assert u.w.environments == w.environments[IdOf(req) := Versions([], row)];
      hide UpsertPendingEnvironment;
      assert CurrentRows(u.w.environments) == CurrentRows(w.environments)[IdOf(req) := Untimed(row)];
      assert Untimed(row) == NewRow(req);
    }
  }

  /** The row counts as wanted and as present already, so creating it on demand moves no goal. */
  lemma UpsertKeepsGoal(c: Config, o: Oracle, w: World, req: ApplyRequest)
    requires Applicable(w.environments, IdOf(req))
    ensures Towards(c, req, w, UpsertPendingEnvironment(o, w, req).w)
  {
    UpsertSees(o, w, req);
    hide UpsertPendingEnvironment, Deployed;
    if IdOf(req) !in See(w).rows { NewRowKeepsGoal(c, req, See(w)); }
  }

  lemma NewRowKeepsGoal(c: Config, req: ApplyRequest, v: Visible)
    requires IdOf(req) !in v.rows
    ensures Deployed(c, req, v.(rows := v.rows[IdOf(req) := NewRow(req)])) == Deployed(c, req, v)
  {
    var g := GoalRow(c, req, NewRow(req));
    assert v.rows[IdOf(req) := NewRow(req)][IdOf(req) := g] == v.rows[IdOf(req) := g];
  }

  // ---------- push deliveries ----------

  lemma LiveSeen(w: World)
    ensures LiveRows(See(w).rows) == LiveIds(w)
  {
  }

  /** A delivery is skipped exactly when it is not wanted, and reserving a slot does not unwant it. */
  lemma AdmitKeepsGoal(c: Config, o: Oracle, w: World, allowed: bool, req: ApplyRequest)
    requires Applicable(w.environments, IdOf(req))
    ensures var a := Admit(c, o, w, allowed, req);
      && Towards(c, req, w, a.w)
      && (a.out == Skipped ==> !Wanted(c, allowed, req, See(w)))
      && (a.out == Admitted ==> Wanted(c, allowed, req, See(w)) && (c.maxConcurrent <= 0 || IdOf(req) in See(a.w).rows))
      && (See(a.w) == See(w) || (Wanted(c, allowed, req, See(w)) && IdOf(req) in See(a.w).rows))
      && (AllOk(o) ==> !a.out.AdmissionFailed?)
  {
    hide UpsertPendingEnvironment, Towards, LiveRows, LiveIds, Applicable, Deployed, CurrentRows;
    InTable(w);
    LiveSeen(w);
    TowardsSame(c, req, w, w);
    var g := GetEnvironment(o, w, IdOf(req));
    TowardsSame(c, req, w, g.w);
    var n := CountLiveEnvironments(o, g.w);
    LiveSeen(g.w);
    TowardsSame(c, req, w, n.w);
    UpsertKeepsGoal(c, o, n.w, req);
    UpsertSees(o, n.w, req);
    var u := UpsertPendingEnvironment(o, n.w, req);
    InTable(u.w);
    TowardsTransitive(c, req, w, n.w, u.w);
  }

  lemma InTable(w: World)
    ensures forall id :: id in See(w).rows <==> id in w.environments
  {
  }

  lemma DeliveryKeepsGoal(c: Config, o: Oracle, n: nat, w: World, req: ApplyRequest)
    requires ValidConfig(c) && RefsStable(c) && CrashesAt(o, n)
    requires Applicable(w.environments, IdOf(req))
    ensures Towards(c, req, w, ApplyDelivery(c, o, w, req).w)
  {
    hide DoApply, UpsertPendingEnvironment, Towards, RefsStable, CrashesAt, Applicable, See;
    UpsertSees(o, w, req);
    UpsertKeepsGoal(c, o, w, req);
    var u := UpsertPendingEnvironment(o, w, req);
    if u.out.Ok? {
      ApplyKeepsGoal(c, o, n, u.w, u.out.value, req);
      TowardsTransitive(c, req, w, u.w, DoApply(c, o, u.w, u.out.value, req).w);
    }
  }

  /** However far a push gets before the process dies, and whatever the providers answered, its goal is unmoved. */
  lemma PushKeepsGoal(c: Config, o: Oracle, n: nat, w: World, allowed: bool, req: ApplyRequest)
    requires ValidConfig(c) && RefsStable(c) && CrashesAt(o, n)
    requires Applicable(w.environments, IdOf(req))
    ensures var w' := PushDelivery(c, o, w, allowed, req).w;
      && PushGoal(c, allowed, req, See(w')) == PushGoal(c, allowed, req, See(w))
      && Applicable(w'.environments, IdOf(req))
  {
    hide Admit, ApplyDelivery, RefsStable, CrashesAt, Applicable, Deployed, See;
    AdmitKeepsGoal(c, o, w, allowed, req);
    var a := Admit(c, o, w, allowed, req);
    if a.out == Admitted {
      DeliveryKeepsGoal(c, o, n, a.w, req);
      InTable(a.w);
      InTable(ApplyDelivery(c, o, a.w, req).w);
    }
  }

  // ---------- a successful pass attains the goal ----------

  lemma AttemptAttains(c: Config, o: Oracle, w: World, env: Environment, req: ApplyRequest)
    requires ValidConfig(c) && AllOk(o)
    requires Fresh(w, env) && env.id == IdOf(req) && env.status == Deploying
    requires env.artifactRef == req.artifactRef && env.prNumber == req.prNumber && env.subdomain == req.subdomain
    ensures var a := AttemptApply(c, o, w, env, req);
      a.out.err.None? && See(a.w) == Deployed(c, req, See(w))
  {
    var ref := RefFor(c, req, env.deployRef);
    var d := DeployApply(o, w, ref, req.artifactRef);
    var h := WaitUntilHealthy(c, o, d.w, ref, d.w.now + c.readinessTimeout);
    assert h.out.None? && See(h.w) == See(w).(deployments := w.deployments[ref := Deployment(req.artifactRef, true, true)]);
    PublishEffect(c, o, h.w, req, req, ref);
    hide WaitUntilHealthy, PublishRecords, UpdateEnvironment;
    var p := PublishRecords(c, o, h.w, env.id, req, ref);
    var row := ReadyRow(c, env, ref, req.artifactRef, p.w.now);
    UpdateAttains(o, p.w, row);
    assert Untimed(row) == GoalRow(c, req, See(w).rows[IdOf(req)]);
  }

  lemma UpdateAttains(o: Oracle, w: World, env: Environment)
    requires AllOk(o) && env.id in w.environments && CanTransition(w.Current(env.id).status, env.status)
    ensures var u := UpdateEnvironment(o, w, env);
      && u.out.Ok? && Fresh(u.w, u.out.value) && Untimed(u.out.value) == Untimed(env)
      && See(u.w) == See(w).(rows := See(w).rows[env.id := Untimed(env)])
  {
    var u := UpdateEnvironment(o, w, env);
    var v := u.w.environments[env.id];
    assert u.w.environments == w.environments[env.id := v];
    hide UpdateEnvironment;
    assert CurrentRows(w.environments[env.id := v]) == CurrentRows(w.environments)[env.id := Untimed(v.current)];
  }

  lemma ApplyAttains(c: Config, o: Oracle, w: World, env: Environment, req: ApplyRequest)
    requires ValidConfig(c) && AllOk(o)
    requires Fresh(w, env) && env.id == IdOf(req) && Applicable(w.environments, env.id)
    ensures var r := DoApply(c, o, w, env, req);
      r.out.Ok? && See(r.w) == Deployed(c, req, See(w))
  {
    hide AttemptApply, UpdateEnvironment, Deployed, CurrentRows, RowSet, GiveUp;
    EntryPoints(env.status);
    var row := DeployingRow(env, req);
    UpdateAttains(o, w, row);
    var u := UpdateEnvironment(o, w, row);
    RowKeepsGoal(c, req, See(w), Untimed(row)) by { InTable(w); SeenRow(w, env); }
    AttemptAttains(c, o, u.w, u.out.value, req);
  }

  lemma SeenRow(w: World, env: Environment)
    requires Fresh(w, env)
    ensures env.id in See(w).rows && See(w).rows[env.id] == Untimed(env)
  {
  }

  lemma PushAttains(c: Config, o: Oracle, w: World, allowed: bool, req: ApplyRequest)
    requires ValidConfig(c) && AllOk(o)
    requires Applicable(w.environments, IdOf(req))
    ensures var r := PushDelivery(c, o, w, allowed, req);
      r.out.None? && See(r.w) == PushGoal(c, allowed, req, See(w))
  {
    hide Admit, DoApply, UpsertPendingEnvironment, Applicable, Deployed, CurrentRows, RowSet, AllOk;
    AdmitKeepsGoal(c, o, w, allowed, req);
    var a := Admit(c, o, w, allowed, req);
    if a.out == Admitted {
      UpsertKeepsGoal(c, o, a.w, req);
      UpsertSees(o, a.w, req);
      var u := UpsertPendingEnvironment(o, a.w, req);
      ApplyAttains(c, o, u.w, u.out.value, req);
    }
  }

  // ---------- repeated crashes ----------

  /** The state after one crashed pass per oracle. */
  function CrashedPushes(c: Config, w: World, allowed: bool, req: ApplyRequest, crashes: seq<Oracle>): World
    requires ValidConfig(c)
  {
    if crashes == [] then w
    else PushDelivery(c, crashes[|crashes| - 1], CrashedPushes(c, w, allowed, req, crashes[..|crashes| - 1]), allowed, req).w
  }

  ghost predicate Crashes(o: Oracle) {
    exists n: nat :: CrashesAt(o, n)
  }

  ghost predicate EachCrashes(crashes: seq<Oracle>) {
    forall i :: 0 <= i < |crashes| ==> Crashes(crashes[i])
  }

  lemma {:induction false} CrashesKeepPushGoal(c: Config, w: World, allowed: bool, req: ApplyRequest, crashes: seq<Oracle>)
    requires ValidConfig(c) && RefsStable(c) && EachCrashes(crashes)
    requires Applicable(w.environments, IdOf(req))
    ensures var w' := CrashedPushes(c, w, allowed, req, crashes);
      && PushGoal(c, allowed, req, See(w')) == PushGoal(c, allowed, req, See(w))
      && Applicable(w'.environments, IdOf(req))
  {
    hide PushDelivery, PushGoal, See, Applicable, RefsStable, CrashesAt;
    if crashes != [] {
      var before, last := crashes[..|crashes| - 1], crashes[|crashes| - 1];
      assert Crashes(last);
      CrashesKeepPushGoal(c, w, allowed, req, before);
      var n: nat :| CrashesAt(last, n);
      PushKeepsGoal(c, last, n, CrashedPushes(c, w, allowed, req, before), allowed, req);
    }
  }

  /**
   Main result for a push: crashing any number of times anywhere, with providers failing as they like until then, and
   replaying once with every call succeeding, ends where one undisturbed run ends.
   */
  lemma PushSurvivesCrashes(c: Config, w: World, allowed: bool, req: ApplyRequest, crashes: seq<Oracle>, replay: Oracle, clean: Oracle)
    requires ValidConfig(c) && RefsStable(c) && EachCrashes(crashes) && AllOk(replay) && AllOk(clean)
    requires Applicable(w.environments, IdOf(req))
    ensures var undisturbed := PushDelivery(c, clean, w, allowed, req);
      var recovered := PushDelivery(c, replay, CrashedPushes(c, w, allowed, req, crashes), allowed, req);
      undisturbed.out.None? && recovered.out.None? && See(recovered.w) == See(undisturbed.w)
  {
    hide PushDelivery, PushGoal, See, Applicable, RefsStable, AllOk, CrashedPushes;
    CrashesKeepPushGoal(c, w, allowed, req, crashes);
    PushAttains(c, replay, CrashedPushes(c, w, allowed, req, crashes), allowed, req);
    PushAttains(c, clean, w, allowed, req);
  }
}
