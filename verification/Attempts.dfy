/**
 The attempts of an apply, one after the other: how long each waits for the deployment, in which order it publishes, and
 how the next one follows (internal/core/reconciler.go).
 */
module Attempts {
  import opened Wrappers
  import opened Calls
  import opened Lifecycle
  import opened ApplyOutcome

  // ---------- readiness ----------

  /** When the i-th poll, which asks the context and then probes, has been answered; an interval lies between polls. */
  function PollEnd(c: Config, o: Oracle, w: World, i: nat): int {
    (if i == 0 then w.now else PollEnd(c, o, w, i - 1) + c.readinessPollInterval)
    + o(ProviderCall, w.calls + 2 * i).lag + o(ProviderCall, w.calls + 2 * i + 1).lag
  }

  /** The i-th poll found the deployment up and not healthy. */
  predicate Unwell(o: Oracle, w: World, i: nat) {
    && o(ProviderCall, w.calls + 2 * i).ok
    && o(ProviderCall, w.calls + 2 * i + 1).ok && !o(ProviderCall, w.calls + 2 * i + 1).healthy
  }

  predicate PollsOn(c: Config, o: Oracle, w: World, deadline: int, k: nat) {
    forall i :: 0 <= i < k ==> Unwell(o, w, i) && PollEnd(c, o, w, i) < deadline
  }

  lemma {:induction false} PollsShift(c: Config, o: Oracle, w: World, w': World, i: nat)
    requires w'.calls == w.calls + 2 && w'.now == PollEnd(c, o, w, 0) + c.readinessPollInterval
    ensures PollEnd(c, o, w, i + 1) == PollEnd(c, o, w', i)
    ensures Unwell(o, w, i + 1) <==> Unwell(o, w', i)
  {
    if i > 0 { PollsShift(c, o, w, w', i - 1); }
  }

  /** How the k-th poll decides, if the polls before it have not. */
  predicate DecidedAt(c: Config, o: Oracle, w: World, deadline: int, h: Ran<Option<Error>>, k: nat) {
    var asked, probe := o(ProviderCall, w.calls + 2 * k), o(ProviderCall, w.calls + 2 * k + 1);
    && h.out == (if !asked.ok || !probe.ok then Some(CallFailed) else if probe.healthy then None else Some(NotHealthy))
    && (h.out == Some(NotHealthy) ==> PollEnd(c, o, w, k) >= deadline)
    && (asked.ok ==> h.w.now == PollEnd(c, o, w, k) && h.w.calls == w.calls + 2 * k + 2)
  }

  lemma OnePoll(c: Config, o: Oracle, w: World, ref: string, deadline: int) returns (w': World)
    requires ValidConfig(c)
    ensures if Unwell(o, w, 0) && PollEnd(c, o, w, 0) < deadline
            then WaitUntilHealthy(c, o, w, ref, deadline) == WaitUntilHealthy(c, o, w', ref, deadline)
                 && w'.calls == w.calls + 2 && w'.now == PollEnd(c, o, w, 0) + c.readinessPollInterval
            else DecidedAt(c, o, w, deadline, WaitUntilHealthy(c, o, w, ref, deadline), 0)
  {
    var h := HealthCheck(o, Tick(o, w, ProviderCall), ref);
    w' := Sleep(h.w, c.readinessPollInterval);
    assert h.w.now == PollEnd(c, o, w, 0) && h.w.calls == w.calls + 2;
  }

  lemma DecidedLater(c: Config, o: Oracle, w: World, w': World, deadline: int, h: Ran<Option<Error>>, k: nat)
    requires w'.calls == w.calls + 2 && w'.now == PollEnd(c, o, w, 0) + c.readinessPollInterval
    requires Unwell(o, w, 0) && PollEnd(c, o, w, 0) < deadline
    requires PollsOn(c, o, w', deadline, k) && DecidedAt(c, o, w', deadline, h, k)
    ensures PollsOn(c, o, w, deadline, k + 1) && DecidedAt(c, o, w, deadline, h, k + 1)
  {
    hide Unwell, PollEnd;
    PollsShift(c, o, w, w', k);
    forall i | 0 <= i < k + 1 ensures Unwell(o, w, i) && PollEnd(c, o, w, i) < deadline {
      if i > 0 { PollsShift(c, o, w, w', i - 1); }
    }
  }

  /** Some poll decided, and none before it. */
  ghost predicate Waited(c: Config, o: Oracle, w: World, deadline: int, h: Ran<Option<Error>>) {
    exists k: nat :: DecidedAt(c, o, w, deadline, h, k) && PollsOn(c, o, w, deadline, k)
  }

  /**
   Main result: waiting for readiness goes on exactly as long as polls find the deployment unwell before the deadline.
   The poll it ends with decides: a failed call fails it, a healthy probe ends it well, and an unhealthy one is a failure
   only at the deadline or later.
   */
  lemma {:induction false} ReadinessPolls(c: Config, o: Oracle, w: World, ref: string, deadline: int)
    requires ValidConfig(c)
    ensures Waited(c, o, w, deadline, WaitUntilHealthy(c, o, w, ref, deadline))
    decreases if w.now < deadline then deadline - w.now else 0
  {
    hide WaitUntilHealthy, Unwell, DecidedAt, PollEnd;
    var h := WaitUntilHealthy(c, o, w, ref, deadline);
    var w' := OnePoll(c, o, w, ref, deadline);
    if Unwell(o, w, 0) && PollEnd(c, o, w, 0) < deadline {
      PollTakesTime(c, o, w);
      ReadinessPolls(c, o, w', ref, deadline);
      var k: nat :| DecidedAt(c, o, w', deadline, h, k) && PollsOn(c, o, w', deadline, k);
      DecidedLater(c, o, w, w', deadline, h, k);
    } else {
      assert DecidedAt(c, o, w, deadline, h, 0) && PollsOn(c, o, w, deadline, 0);
    }
  }

  lemma PollTakesTime(c: Config, o: Oracle, w: World)
    ensures w.now <= PollEnd(c, o, w, 0)
  {
  }

  // ---------- the order of publishing ----------

  /** What has changed since w was preceded by everything that comes before it. */
  predicate PublishedInOrder(c: Config, w: World, w': World, id: EnvId, req: ApplyRequest, ref: string) {
    var name := req.subdomain + "." + c.baseDomain;
    var announced := name in w'.zone && w'.zone[name] == Published(c.addrOf(ref), c.tagOf(req.project, req.branch));
    var certified := announced && name in w'.certificates;
    && (w'.certificates != w.certificates ==> announced)
    && (w'.installed != w.installed ==> certified)
    && (w'.dnsRows != w.dnsRows ==> certified && (c.installsCertificates && c.issuesPem ==> name in w'.installed))
  }

  /** All of it has been done. */
  predicate AllPublished(c: Config, w: World, id: EnvId, req: ApplyRequest, ref: string) {
    var name := req.subdomain + "." + c.baseDomain;
    && name in w.zone && w.zone[name] == Published(c.addrOf(ref), c.tagOf(req.project, req.branch))
    && name in w.certificates && (c.installsCertificates && c.issuesPem ==> name in w.installed)
    && HasRow(w.dnsRows, id, name)
  }

  lemma RecordKeepsRest(o: Oracle, w: World, id: EnvId, name: string, value: string, tag: string)
    ensures var r := RecordDnsRow(o, w, id, name, value, tag);
      && r.w.zone == w.zone && r.w.certificates == w.certificates && r.w.installed == w.installed
      && r.w.deployments == w.deployments && r.w.environments == w.environments
      && (r.out.None? ==> HasRow(r.w.dnsRows, id, name))
  {
    HasRowOf(w.dnsRows, id, name);
    var r := RecordDnsRow(o, w, id, name, value, tag);
    if r.out.None? && r.w.dnsRows != w.dnsRows {
      var last := r.w.dnsRows[|r.w.dnsRows| - 1];
      assert last.envId == id && last.name == name;
    }
  }

  lemma PublishesInOrder(c: Config, o: Oracle, w: World, id: EnvId, req: ApplyRequest, ref: string)
    ensures var p := PublishRecords(c, o, w, id, req, ref);
      && PublishedInOrder(c, w, p.w, id, req, ref) && (p.out.None? ==> AllPublished(c, p.w, id, req, ref))
      && p.w.deployments == w.deployments && p.w.environments == w.environments
  {
    hide RecordDnsRow, HasRow;
    var name, tag := Fqdn(c, req.subdomain), c.tagOf(req.project, req.branch);
    var d := EnsureRecord(o, w, name, c.addrOf(ref), tag);
    var t := EnsureCertificate(o, d.w, name);
    var i := if c.installsCertificates && c.issuesPem then InstallCertificate(o, t.w, name) else t;
    RecordKeepsRest(o, i.w, id, name, c.addrOf(ref), tag);
  }

  /** The requested revision runs under ref, and a probe has found it healthy since it was deployed. */
  predicate Healthy(w: World, ref: string, artifact: string) {
    ref in w.deployments && w.deployments[ref] == Deployment(artifact, true, true)
  }

  lemma WaitingPublishesNothing(c: Config, o: Oracle, w: World, ref: string, deadline: int)
    requires ValidConfig(c)
    ensures var h := WaitUntilHealthy(c, o, w, ref, deadline);
      h.w == w.(deployments := h.w.deployments, calls := h.w.calls, now := h.w.now) && w.now <= h.w.now
    decreases if w.now < deadline then deadline - w.now else 0
  {
    if o(ProviderCall, w.calls).ok {
      var h := HealthCheck(o, Tick(o, w, ProviderCall), ref);
      if h.out == Unhealthy && h.w.now < deadline {
        WaitingPublishesNothing(c, o, Sleep(h.w, c.readinessPollInterval), ref, deadline);
      }
    }
  }

  /** Nothing has been published since w. */
  predicate Unpublished(w: World, w': World) {
    w'.zone == w.zone && w'.certificates == w.certificates && w'.installed == w.installed && w'.dnsRows == w.dnsRows
  }

  /** What an attempt on env that returned err has done, and in which order. */
  predicate InOrder(c: Config, w: World, env: Environment, req: ApplyRequest, w': World, err: Option<Error>) {
    var ref := RefOf(c, req, env);
    && (Unpublished(w, w') || Healthy(w', ref, req.artifactRef))
    && PublishedInOrder(c, w, w', env.id, req, ref)
    && (err.None? || w'.environments != w.environments ==>
          Healthy(w', ref, req.artifactRef) && AllPublished(c, w', env.id, req, ref))
  }

  /**
   Main result: however far an attempt gets, it publishes nothing before the deployment has been found healthy, no
   certificate before the record, no row of the record before all of these, and writes the environment's row last.
   */
  lemma AttemptInOrder(c: Config, o: Oracle, w: World, env: Environment, req: ApplyRequest)
    requires ValidConfig(c)
    ensures var a := AttemptApply(c, o, w, env, req);
      InOrder(c, w, env, req, a.w, a.out.err)
  {
    hide WaitUntilHealthy, PublishRecords, UpdateEnvironment, HasRow;
    var ref := RefOf(c, req, env);
    var d := DeployApply(o, w, ref, req.artifactRef);
    if d.out.None? {
      WaitOutcome(c, o, d.w, ref, d.w.now + c.readinessTimeout);
      WaitingPublishesNothing(c, o, d.w, ref, d.w.now + c.readinessTimeout);
      var h := WaitUntilHealthy(c, o, d.w, ref, d.w.now + c.readinessTimeout);
      if h.out.None? {
        PublishesInOrder(c, o, h.w, env.id, req, ref);
        var p := PublishRecords(c, o, h.w, env.id, req, ref);
        WritesRowOnly(o, p.w, ReadyRow(c, env, ref, req.artifactRef, p.w.now));
      }
    }
  }

  function RefOf(c: Config, req: ApplyRequest, env: Environment): string {
    c.refOf(req.project, req.branch, env.deployRef)
  }

  lemma WritesRowOnly(o: Oracle, w: World, env: Environment)
    ensures var u := UpdateEnvironment(o, w, env);
      Unpublished(w, u.w) && u.w.deployments == w.deployments && (u.out.Ok? ==> env.id in w.environments)
  {
  }

  // ---------- one attempt after the other ----------

  /** The pauses before the second to the fifth attempt, in seconds. */
  const Pauses: seq<int> := [1, 2, 4, 8]

  /** Attempts with their states and rows as they start: each but the last fails and hands its row to the next, after a pause. */
  ghost predicate InTurn(c: Config, o: Oracle, req: ApplyRequest, starts: seq<World>, rows: seq<Environment>, first: nat)
    requires ValidConfig(c)
  {
    && 1 <= |starts| == |rows| <= 5 - first
    && forall i :: 0 < i < |starts| ==> Follows(c, o, req, starts[i - 1], rows[i - 1], starts[i], rows[i], first + i - 1)
  }

  /** The attempt that starts in w fails, and the next one starts after the given pause from what it hands on. */
  predicate Follows(c: Config, o: Oracle, req: ApplyRequest, w: World, env: Environment, w': World, env': Environment,
                    pause: nat)
    requires ValidConfig(c)
  {
    var a := AttemptApply(c, o, w, env, req);
    pause < 4 && a.out.err.Some? && env' == a.out.env && w' == Sleep(a.w, Pauses[pause] * Second)
  }

  lemma PausesAreBackoffs(attempt: nat)
    requires 2 <= attempt <= 5
    ensures ApplyBackoff(attempt) == Pauses[attempt - 2] * Second
  {
    assert Pow2(0) == 1 && Pow2(1) == 2 && Pow2(2) == 4 && Pow2(3) == 8;
  }

  /**
   Main result: the loop is at most five attempts in turn, with pauses of one, two, four and eight seconds between them;
   it ends with the first that succeeds, and only with the fifth if none does.
   */
  lemma AttemptsInTurn(c: Config, o: Oracle, w: World, env: Environment, req: ApplyRequest)
    returns (starts: seq<World>, rows: seq<Environment>)
    requires ValidConfig(c)
    ensures InTurn(c, o, req, starts, rows, 0) && starts[0] == w && rows[0] == env
    ensures var a := ApplyLoop(c, o, w, env, req, 1);
      && a == AttemptApply(c, o, starts[|starts| - 1], rows[|rows| - 1], req)
      && (a.out.err.None? || |starts| == 5)
  {
    hide AttemptApply, InTurn;
    starts, rows := AttemptsFrom(c, o, w, env, req, 1);
  }

  lemma {:induction false} AttemptsFrom(c: Config, o: Oracle, w: World, env: Environment, req: ApplyRequest, attempt: nat)
    returns (starts: seq<World>, rows: seq<Environment>)
    requires ValidConfig(c) && 1 <= attempt <= MaxApplyAttempts
    ensures InTurn(c, o, req, starts, rows, attempt - 1)
    ensures |starts| == |rows| >= 1 && rows[0] == env
    ensures starts[0] == if attempt > 1 then Sleep(w, Pauses[attempt - 2] * Second) else w
    ensures var a := ApplyLoop(c, o, w, env, req, attempt);
      && a == AttemptApply(c, o, starts[|starts| - 1], rows[|rows| - 1], req)
      && (a.out.err.None? || |starts| == 6 - attempt)
    decreases MaxApplyAttempts - attempt
  {
    hide AttemptApply, ApplyBackoff;
    if attempt > 1 { PausesAreBackoffs(attempt); }
    var w1 := if attempt > 1 then Sleep(w, ApplyBackoff(attempt)) else w;
    var a := AttemptApply(c, o, w1, env, req);
    if a.out.err.None? || attempt == MaxApplyAttempts {
      starts, rows := [w1], [env];
    } else {
      var later, theirs := AttemptsFrom(c, o, a.w, a.out.env, req, attempt + 1);
      starts, rows := [w1] + later, [env] + theirs;
      Preceded(c, o, req, w1, env, later, theirs, attempt - 1);
    }
  }

  lemma Preceded(c: Config, o: Oracle, req: ApplyRequest, w: World, env: Environment, later: seq<World>,
                 theirs: seq<Environment>, first: nat)
    requires ValidConfig(c) && first < 4 && InTurn(c, o, req, later, theirs, first + 1)
    requires Follows(c, o, req, w, env, later[0], theirs[0], first)
    ensures InTurn(c, o, req, [w] + later, [env] + theirs, first)
  {
    hide Follows;
    var starts, rows := [w] + later, [env] + theirs;
    forall i | 0 < i < |starts|
      ensures Follows(c, o, req, starts[i - 1], rows[i - 1], starts[i], rows[i], first + i - 1)
    {
      if i > 1 {
        var j := i - 1;
        assert Follows(c, o, req, later[j - 1], theirs[j - 1], later[j], theirs[j], first + 1 + j - 1);
      }
    }
  }
}
