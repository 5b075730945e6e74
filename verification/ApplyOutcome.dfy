/** What one apply pass leaves behind when the store is reliable, whatever the providers do. */
module ApplyOutcome {
  import opened Wrappers
  import opened Transitions
  import opened Calls
  import opened Lifecycle

  ghost predicate Reliable(o: Oracle) {
    forall n :: o(StoreCall, n).ok
  }

  /** env is the row the table now holds. */
  predicate Fresh(w: World, env: Environment) {
    env.id in w.environments && w.Current(env.id) == env
  }

  /** Only the clock, the call counters, the providers and the DNS rows moved: no environment write, none refused, nobody notified. */
  predicate SameTable(w: World, w': World) {
    w'.environments == w.environments && w'.rejections == w.rejections && w'.notices == w.notices
  }

  lemma {:induction false} WaitOutcome(c: Config, o: Oracle, w: World, ref: string, deadline: int)
    requires ValidConfig(c)
    requires ref in w.deployments
    ensures var h := WaitUntilHealthy(c, o, w, ref, deadline);
      && SameTable(w, h.w) && h.w.deployCalls == w.deployCalls && h.w.dnsRows == w.dnsRows
      && ref in h.w.deployments && w.now <= h.w.now
      && (h.out.None? ==> h.w.deployments[ref] == w.deployments[ref].(healthy := true))
    decreases if w.now < deadline then deadline - w.now else 0
  {
    if o(ProviderCall, w.calls).ok {
      var h := HealthCheck(o, Tick(o, w, ProviderCall), ref);
      if h.out == Unhealthy && h.w.now < deadline {
        WaitOutcome(c, o, Sleep(h.w, c.readinessPollInterval), ref, deadline);
      }
    }
  }

  lemma HasRowOf(rows: seq<DnsRow>, id: EnvId, name: string)
    ensures HasRow(RowsOf(rows, id), id, name) <==> HasRow(rows, id, name)
  {
    RowsOfContents(rows, id);
    if HasRow(rows, id, name) {
      var i :| 0 <= i < |rows| && rows[i].envId == id && rows[i].name == name;
      assert rows[i] in RowsOf(rows, id);
    }
  }

  lemma {:induction false} RowsOfContents(rows: seq<DnsRow>, id: EnvId)
    ensures forall r :: r in RowsOf(rows, id) <==> r in rows && r.envId == id
  {
    if rows != [] {
      var front := rows[..|rows| - 1];
      RowsOfContents(front, id);
      assert rows == front + [rows[|rows| - 1]];
    }
  }

  /** The rows listed for an environment are its rows in the order they were stored. */
  lemma {:induction false} RowsOfInOrder(before: seq<DnsRow>, after: seq<DnsRow>, id: EnvId)
    ensures RowsOf(before + after, id) == RowsOf(before, id) + RowsOf(after, id)
    ensures |after| == 1 ==> RowsOf(after, id) == if after[0].envId == id then after else []
  {
    var rows := before + after;
    if after == [] {
      assert rows == before;
    } else {
      var n := |after| - 1;
      RowsOfInOrder(before, after[..n], id);
      assert rows[..|rows| - 1] == before + after[..n] && rows[|rows| - 1] == after[n];
    }
  }

  lemma RecordRowOutcome(o: Oracle, w: World, id: EnvId, name: string, value: string, tag: string)
    requires Reliable(o)
    ensures var p := RecordDnsRow(o, w, id, name, value, tag);
      && SameTable(w, p.w) && p.w.deployCalls == w.deployCalls && p.w.deployments == w.deployments && w.now <= p.w.now
      && (p.out.None? ==> HasRow(p.w.dnsRows, id, name))
  {
    HasRowOf(w.dnsRows, id, name);
    var p := RecordDnsRow(o, w, id, name, value, tag);
    if p.out.None? && p.w.dnsRows != w.dnsRows {
      var last := p.w.dnsRows[|p.w.dnsRows| - 1];
      assert last.envId == id && last.name == name;
    }
  }

  lemma PublishOutcome(c: Config, o: Oracle, w: World, id: EnvId, req: ApplyRequest, ref: string)
    requires Reliable(o)
    ensures var p := PublishRecords(c, o, w, id, req, ref);
      && SameTable(w, p.w) && p.w.deployCalls == w.deployCalls && p.w.deployments == w.deployments && w.now <= p.w.now
      && (p.out.None? ==> HasRow(p.w.dnsRows, id, Fqdn(c, req.subdomain)))
  {
    hide RecordDnsRow, HasRow;
    var name, tag := Fqdn(c, req.subdomain), c.tagOf(req.project, req.branch);
    var d := EnsureRecord(o, w, name, c.addrOf(ref), tag);
    var t := EnsureCertificate(o, d.w, name);
    var i := if c.installsCertificates && c.issuesPem then InstallCertificate(o, t.w, name) else t;
    RecordRowOutcome(o, i.w, id, name, c.addrOf(ref), tag);
  }

  /** A write of an existing row through a legal move succeeds and is read back, created when it was and stamped now. */
  lemma UpdateOutcome(o: Oracle, w: World, env: Environment)
    requires Reliable(o)
    requires env.id in w.environments && CanTransition(w.Current(env.id).status, env.status)
    ensures var u := UpdateEnvironment(o, w, env);
      && u.out.Ok? && Fresh(u.w, u.out.value)
      && u.out.value == env.(createdAt := w.Current(env.id).createdAt, updatedAt := w.now + o(StoreCall, w.calls).lag)
      && u.w.rejections == w.rejections && u.w.deployCalls == w.deployCalls && u.w.notices == w.notices
      && u.w.dnsRows == w.dnsRows && u.w.deployments == w.deployments && u.out.value.updatedAt <= u.w.now
  {
  }

  /** The row is ready on the revision art, which was seen healthy after its deployment, and its name is recorded. */
  predicate Serves(c: Config, w: World, row: Environment, ref: string, art: string, name: string) {
    && row.status == Ready
    && row.deployRef == ref == row.lastGoodDeployRef
    && row.lastGoodArtifactRef == art
    && ref in w.deployments && w.deployments[ref] == Deployment(art, true, true)
    && HasRow(w.dnsRows, row.id, name)
  }

  /** The row, was before, expires the default time after a moment between since and its stamp, or as before if there is none. */
  predicate Expires(c: Config, since: int, was: Environment, row: Environment) {
    if c.defaultTTL > 0
    then row.ttlExpiresAt.Some? && since + c.defaultTTL <= row.ttlExpiresAt.value <= row.updatedAt + c.defaultTTL
    else row.ttlExpiresAt == was.ttlExpiresAt
  }

  /** The row an attempt that succeeds makes of env. */
  predicate MadeReady(c: Config, since: int, env: Environment, row: Environment, ref: string, art: string) {
    && row == env.(deployRef := ref, status := Ready, lastGoodArtifactRef := art, lastGoodDeployRef := ref,
                   ttlExpiresAt := row.ttlExpiresAt, updatedAt := row.updatedAt)
    && Expires(c, since, env, row)
  }

  /** The final write of an attempt. */
  lemma ReadyOutcome(c: Config, o: Oracle, w: World, env: Environment, ref: string, art: string)
    requires Reliable(o) && Fresh(w, env) && env.status == Deploying
    ensures var u := UpdateEnvironment(o, w, ReadyRow(c, env, ref, art, w.now));
      && u.out.Ok? && Fresh(u.w, u.out.value) && MadeReady(c, w.now, env, u.out.value, ref, art)
      && u.out.value.updatedAt <= u.w.now
      && u.w.rejections == w.rejections && u.w.deployCalls == w.deployCalls && u.w.notices == w.notices
      && u.w.dnsRows == w.dnsRows && u.w.deployments == w.deployments
  {
    UpdateOutcome(o, w, ReadyRow(c, env, ref, art, w.now));
    hide UpdateEnvironment;
  }

  /** An attempt makes one deploy call; it either leaves the table alone and hands back its input, or serves. */
  lemma AttemptOutcome(c: Config, o: Oracle, w: World, env: Environment, req: ApplyRequest)
    requires ValidConfig(c) && Reliable(o)
    requires Fresh(w, env) && env.status == Deploying
    ensures var a := AttemptApply(c, o, w, env, req);
      var ref := c.refOf(req.project, req.branch, env.deployRef);
      && a.w.deployCalls == w.deployCalls + 1 && a.w.rejections == w.rejections && a.w.notices == w.notices
      && w.now <= a.w.now
      && (a.out.err.Some? ==> a.out.env == env && a.w.environments == w.environments)
      && (a.out.err.None? ==>
            && Fresh(a.w, a.out.env) && MadeReady(c, w.now, env, a.out.env, ref, req.artifactRef)
            && a.out.env.updatedAt <= a.w.now
            && Serves(c, a.w, a.out.env, ref, req.artifactRef, Fqdn(c, req.subdomain)))
  {
    hide PublishRecords, WaitUntilHealthy, UpdateEnvironment, HasRow, ReadyRow, CanTransition, Reliable;
    var ref := c.refOf(req.project, req.branch, env.deployRef);
    var d := DeployApply(o, w, ref, req.artifactRef);
    if d.out.None? {
      WaitOutcome(c, o, d.w, ref, d.w.now + c.readinessTimeout);
      var h := WaitUntilHealthy(c, o, d.w, ref, d.w.now + c.readinessTimeout);
      if h.out.None? {
        PublishOutcome(c, o, h.w, env.id, req, ref);
        var p := PublishRecords(c, o, h.w, env.id, req, ref);
        if p.out.None? {
          ReadyOutcome(c, o, p.w, env, ref, req.artifactRef);
          WriteTakesTime(o, p.w, ReadyRow(c, env, ref, req.artifactRef, p.w.now));
        }
      }
    }
  }

  lemma WriteTakesTime(o: Oracle, w: World, env: Environment)
    ensures w.now <= UpdateEnvironment(o, w, env).w.now
  {
    hide CanTransition;
  }

  /** At most one deploy call per remaining attempt, and as many if they all fail. */
  lemma {:induction false} LoopOutcome(c: Config, o: Oracle, w: World, env: Environment, req: ApplyRequest, attempt: nat)
    requires ValidConfig(c) && Reliable(o)
    requires 1 <= attempt <= MaxApplyAttempts
    requires Fresh(w, env) && env.status == Deploying
    ensures var a := ApplyLoop(c, o, w, env, req, attempt);
      var ref := c.refOf(req.project, req.branch, env.deployRef);
      && w.deployCalls < a.w.deployCalls <= w.deployCalls + 6 - attempt
      && a.w.rejections == w.rejections && a.w.notices == w.notices && w.now <= a.w.now
      && (a.out.err.Some? ==> a.out.env == env && a.w.environments == w.environments
                              && a.w.deployCalls == w.deployCalls + 6 - attempt)
      && (a.out.err.None? ==>
            && Fresh(a.w, a.out.env) && MadeReady(c, w.now, env, a.out.env, ref, req.artifactRef)
            && Serves(c, a.w, a.out.env, ref, req.artifactRef, Fqdn(c, req.subdomain)))
    decreases MaxApplyAttempts - attempt
  {
    hide AttemptApply, Serves, Reliable;
    var w1 := if attempt > 1 then Sleep(w, ApplyBackoff(attempt)) else w;
    if attempt > 1 { BackoffTakesTime(attempt); }
    AttemptOutcome(c, o, w1, env, req);
    var a := AttemptApply(c, o, w1, env, req);
    if a.out.err.Some? && attempt < MaxApplyAttempts {
      LoopOutcome(c, o, a.w, env, req, attempt + 1);
    }
  }

  lemma BackoffTakesTime(attempt: nat)
    requires 2 <= attempt
    ensures ApplyBackoff(attempt) >= 0
  {
  }

  /** The three ways an apply pass can end; they exclude each other by status. */
  datatype Outcome = Up | RolledBack | GaveUp

  /** The row as the pass was asked to make it, on whatever revision. */
  function Asked(was: Environment, req: ApplyRequest): Environment {
    was.(prNumber := req.prNumber, subdomain := req.subdomain, artifactRef := req.artifactRef)
  }

  /** The row that was when the pass began, at the given time, is now row. */
  predicate Ends(c: Config, how: Outcome, since: int, was: Environment, row: Environment, w: World, req: ApplyRequest) {
    var ref := c.refOf(req.project, req.branch, was.deployRef);
    var name := Fqdn(c, req.subdomain);
    match how
    case Up =>
      MadeReady(c, since, Asked(was, req), row, ref, req.artifactRef) && Serves(c, w, row, ref, req.artifactRef, name)
    case RolledBack =>
      && row.status == Degraded && CanRollBack(was, req)
      && MadeReady(c, since, Asked(was, req), row.(status := Ready), ref, was.lastGoodArtifactRef)
      && Serves(c, w, row.(status := Ready), ref, was.lastGoodArtifactRef, name)
    case GaveUp => row == Asked(was, req).(status := Failed, updatedAt := row.updatedAt)
  }

  /** There is a good revision other than the requested one. */
  predicate CanRollBack(env: Environment, req: ApplyRequest) {
    env.lastGoodArtifactRef != "" && env.lastGoodArtifactRef != req.artifactRef
  }

  /** From the n-th call on every call succeeds, and every probe finds a healthy deployment. */
  ghost predicate AnswersFrom(o: Oracle, n: nat) {
    forall k, m: nat :: m >= n ==> o(k, m).ok && o(k, m).healthy
  }

  lemma PublishSucceeds(c: Config, o: Oracle, w: World, id: EnvId, req: ApplyRequest, ref: string)
    requires AnswersFrom(o, w.calls) && id in w.environments
    ensures PublishRecords(c, o, w, id, req, ref).out.None?
  {
    hide HasRow, RowsOf;
  }

  /** An attempt whose calls all succeed succeeds. */
  lemma AttemptSucceeds(c: Config, o: Oracle, w: World, env: Environment, req: ApplyRequest)
    requires ValidConfig(c) && AnswersFrom(o, w.calls) && Fresh(w, env) && env.status == Deploying
    ensures AttemptApply(c, o, w, env, req).out.err.None?
  {
    hide PublishRecords, HasRow, UpdateEnvironment;
    var ref := c.refOf(req.project, req.branch, env.deployRef);
    var d := DeployApply(o, w, ref, req.artifactRef);
    var h := WaitUntilHealthy(c, o, d.w, ref, d.w.now + c.readinessTimeout);
    assert h.out.None? && h.w.environments == w.environments && h.w.calls >= w.calls;
    PublishSucceeds(c, o, h.w, env.id, req, ref);
    PublishedTable(c, o, h.w, env.id, req, ref);
    var p := PublishRecords(c, o, h.w, env.id, req, ref);
    WriteSucceeds(o, p.w, ReadyRow(c, env, ref, req.artifactRef, p.w.now));
  }

  lemma PublishedTable(c: Config, o: Oracle, w: World, id: EnvId, req: ApplyRequest, ref: string)
    ensures var p := PublishRecords(c, o, w, id, req, ref); p.w.environments == w.environments && p.w.calls >= w.calls
  {
    hide RecordDnsRow;
    var name, tag := Fqdn(c, req.subdomain), c.tagOf(req.project, req.branch);
    var d := EnsureRecord(o, w, name, c.addrOf(ref), tag);
    var t := EnsureCertificate(o, d.w, name);
    var i := if c.installsCertificates && c.issuesPem then InstallCertificate(o, t.w, name) else t;
    RecordedTable(o, i.w, id, name, c.addrOf(ref), tag);
  }

  lemma RecordedTable(o: Oracle, w: World, id: EnvId, name: string, value: string, tag: string)
    ensures var r := RecordDnsRow(o, w, id, name, value, tag); r.w.environments == w.environments && r.w.calls >= w.calls
  {
    hide HasRow, RowsOf;
  }

  lemma WriteSucceeds(o: Oracle, w: World, env: Environment)
    requires AnswersFrom(o, w.calls) && env.id in w.environments && CanTransition(w.Current(env.id).status, env.status)
    ensures UpdateEnvironment(o, w, env).out.Ok?
  {
  }

  /** The compensation for an apply whose attempts had all failed by w: how it has ended in w'. */
  ghost predicate Compensated(c: Config, o: Oracle, since: int, was: Environment, w: World, row: Environment,
                              req: ApplyRequest, w': World)
    requires ValidConfig(c)
  {
    var back := AttemptApply(c, o, w, row, req.(artifactRef := was.lastGoodArtifactRef));
    && was.id in w'.environments
    && w'.deployCalls == w.deployCalls + (if CanRollBack(was, req) then 1 else 0)
    && (if CanRollBack(was, req) && back.out.err.None?
        then Ends(c, RolledBack, since, was, w'.Current(was.id), w', req) && w'.notices == w.notices + ["degraded"]
        else Ends(c, GaveUp, since, was, w'.Current(was.id), w', req) && w'.notices == w.notices + ["failed"])
    && (CanRollBack(was, req) && AnswersFrom(o, w.calls) ==> w'.Current(was.id).status == Degraded)
  }

  lemma FailedOutcome(c: Config, o: Oracle, w: World, env: Environment, since: int, was: Environment, req: ApplyRequest)
    requires Reliable(o) && Fresh(w, env) && env == Asked(was, req).(status := Deploying, updatedAt := env.updatedAt)
    ensures var w' := MarkFailed(o, w, env);
      && was.id in w'.environments && Ends(c, GaveUp, since, was, w'.Current(was.id), w', req)
      && w'.notices == w.notices + ["failed"] && w'.deployCalls == w.deployCalls && w'.rejections == w.rejections
  {
    UpdateOutcome(o, w, env.(status := Failed));
    hide UpdateEnvironment;
  }

  lemma DegradedOutcome(c: Config, o: Oracle, w: World, row: Environment, env: Environment, since: int, was: Environment,
                        req: ApplyRequest)
    requires Reliable(o) && CanRollBack(was, req) && Fresh(w, row) && row.updatedAt <= w.now
    requires env == Asked(was, req).(status := Deploying, updatedAt := env.updatedAt)
    requires var ref := c.refOf(req.project, req.branch, was.deployRef);
      && MadeReady(c, since, env, row, ref, was.lastGoodArtifactRef)
      && Serves(c, w, row, ref, was.lastGoodArtifactRef, Fqdn(c, req.subdomain))
    ensures var u := UpdateEnvironment(o, w, row.(status := Degraded, artifactRef := req.artifactRef));
      var w' := Notify(o, u.w, "degraded");
      && was.id in w'.environments && Ends(c, RolledBack, since, was, w'.Current(was.id), w', req)
      && w'.Current(was.id).status == Degraded
      && w'.notices == w.notices + ["degraded"] && w'.deployCalls == w.deployCalls && w'.rejections == w.rejections
  {
    hide HasRow, UpdateEnvironment, Reliable;
    UpdateOutcome(o, w, row.(status := Degraded, artifactRef := req.artifactRef));
  }

  lemma GiveUpOutcome(c: Config, o: Oracle, w: World, env: Environment, since: int, was: Environment, req: ApplyRequest)
    requires ValidConfig(c) && Reliable(o) && since <= w.now
    requires Fresh(w, env) && env == Asked(was, req).(status := Deploying, updatedAt := env.updatedAt)
    ensures var w' := GiveUp(c, o, w, env, req);
      w'.rejections == w.rejections && Compensated(c, o, since, was, w, env, req, w')
  {
    hide AttemptApply, MarkFailed, UpdateEnvironment, Notify, Ends, Serves, Reliable, AnswersFrom;
    if CanRollBack(was, req) {
      var back := req.(artifactRef := was.lastGoodArtifactRef);
      AttemptOutcome(c, o, w, env, back);
      if AnswersFrom(o, w.calls) { AttemptSucceeds(c, o, w, env, back); }
      var b := AttemptApply(c, o, w, env, back);
      if b.out.err.None? {
        DegradedOutcome(c, o, b.w, b.out.env, env, since, was, req);
      } else {
        FailedOutcome(c, o, b.w, env, since, was, req);
      }
    } else {
      FailedOutcome(c, o, w, env, since, was, req);
    }
  }

  lemma UpOutcome(c: Config, o: Oracle, w: World, env: Environment, row: Environment, later: int, since: int,
                  was: Environment, req: ApplyRequest, kind: string)
    requires Fresh(w, row) && env == Asked(was, req).(status := Deploying, updatedAt := env.updatedAt) && since <= later
    requires var ref := c.refOf(req.project, req.branch, was.deployRef);
      && MadeReady(c, later, env, row, ref, req.artifactRef)
      && Serves(c, w, row, ref, req.artifactRef, Fqdn(c, req.subdomain))
    ensures var w' := Notify(o, w, kind);
      && was.id in w'.environments && row == w'.Current(was.id) && Ends(c, Up, since, was, row, w', req)
      && w'.notices == w.notices + [kind] && w'.deployCalls == w.deployCalls && w'.rejections == w.rejections
  {
    hide HasRow;
  }

  /** All five attempts had failed by the time of the state failed; then came the compensation. */
  ghost predicate GivenUp(c: Config, o: Oracle, w: World, env: Environment, req: ApplyRequest, w': World, failed: World)
    requires ValidConfig(c)
  {
    && failed.deployCalls == w.deployCalls + 5 && failed.notices == w.notices
    && env.id in failed.environments
    && var row := failed.Current(env.id);
       && row == Asked(env, req).(status := Deploying, updatedAt := row.updatedAt)
       && Compensated(c, o, w.now, env, failed, row, req, w')
  }

  /** How an apply has ended: out is what it returned, w' the world it left. */
  ghost predicate Ended(c: Config, o: Oracle, w: World, env: Environment, req: ApplyRequest, w': World,
                        out: Result<Environment, Error>)
    requires ValidConfig(c)
  {
    && w'.rejections == w.rejections
    && if out.Ok? then
         && w.deployCalls < w'.deployCalls <= w.deployCalls + 5
         && env.id in w'.environments && out.value == w'.Current(env.id)
         && Ends(c, Up, w.now, env, out.value, w', req)
         && w'.notices == w.notices + [if env.status in {Ready, Degraded} || env.deployRef != "" then "updated" else "ready"]
       else
         out == Err(ApplyFailed) && exists failed: World :: GivenUp(c, o, w, env, req, w', failed)
  }

  /**
   Main result. With a reliable store and a fresh row that is not being destroyed, no write is refused. The pass reports
   success exactly when the requested revision is up, after at most five deploy calls. Otherwise five have failed, and
   the last good revision, if there is another, gets a sixth: the row is degraded on it exactly if that attempt succeeds,
   as it does when all its calls do, and else is failed with everything it knew kept. One notice says which.
   */
  lemma ApplyEnds(c: Config, o: Oracle, w: World, env: Environment, req: ApplyRequest)
    requires ValidConfig(c) && Reliable(o)
    requires Fresh(w, env) && !env.status.Unknown? && env.status != Destroying
    ensures var r := DoApply(c, o, w, env, req); Ended(c, o, w, env, req, r.w, r.out)
  {
    hide ApplyLoop, GiveUp, UpdateEnvironment, Compensated, Serves, Reliable, HasRow, Notify, Ends;
    EntryPoints(env.status);
    UpdateOutcome(o, w, DeployingRow(env, req));
    var u := UpdateEnvironment(o, w, DeployingRow(env, req));
    WriteTakesTime(o, w, DeployingRow(env, req));
    LoopOutcome(c, o, u.w, u.out.value, req, 1);
    var a := ApplyLoop(c, o, u.w, u.out.value, req, 1);
    if a.out.err.None? {
      UpOutcome(c, o, a.w, u.out.value, a.out.env, u.w.now, w.now, env, req, if IsUpdate(env) then "updated" else "ready");
    } else {
      GiveUpOutcome(c, o, a.w, a.out.env, w.now, env, req);
      assert GivenUp(c, o, w, env, req, DoApply(c, o, w, env, req).w, a.w);
    }
  }
}
