/** What becomes of an apply whose last store write fails: the attempt hands back an empty row, and the pass goes on from it. */
module LostWrites {
  import opened Wrappers
  import opened Transitions
  import opened Calls
  import opened Lifecycle
  import ApplyOutcome
  import RowHistory

  /** The attempt got as far as its final write. */
  predicate Published(c: Config, o: Oracle, w: World, env: Environment, req: ApplyRequest)
    requires ValidConfig(c)
  {
    var ref := c.refOf(req.project, req.branch, env.deployRef);
    var d := DeployApply(o, w, ref, req.artifactRef);
    var h := WaitUntilHealthy(c, o, d.w, ref, d.w.now + c.readinessTimeout);
    d.out.None? && h.out.None? && PublishRecords(c, o, h.w, env.id, req, ref).out.None?
  }

  /**
   Main result: a failing attempt hands back the row it was given if and only if it failed before its final write;
   otherwise it hands back the empty row.
   */
  lemma FailingAttemptKeepsItsRow(c: Config, o: Oracle, w: World, env: Environment, req: ApplyRequest)
    requires ValidConfig(c) && env != ZeroEnvironment
    ensures var a := AttemptApply(c, o, w, env, req);
      a.out.err.Some? ==>
        && (a.out.env == env <==> !Published(c, o, w, env, req))
        && (a.out.env == ZeroEnvironment <==> Published(c, o, w, env, req))
  {
    hide DeployApply, WaitUntilHealthy, PublishRecords, UpdateEnvironment;
  }

  // ---------- what it costs ----------

  /** No attempt on the empty row succeeds or touches the table, which holds no row under the empty id. */
  lemma EmptyRowAttempt(c: Config, o: Oracle, w: World, req: ApplyRequest)
    requires ValidConfig(c) && NoId !in w.environments
    ensures var a := AttemptApply(c, o, w, ZeroEnvironment, req);
      a.out.err.Some? && a.out.env == ZeroEnvironment && a.w.environments == w.environments
  {
    hide WaitUntilHealthy, PublishRecords, UpdateEnvironment;
    var ref := c.refOf(req.project, req.branch, "");
    var d := DeployApply(o, w, ref, req.artifactRef);
    RowHistory.WaitKeepsTable(c, o, d.w, ref, d.w.now + c.readinessTimeout);
    var h := WaitUntilHealthy(c, o, d.w, ref, d.w.now + c.readinessTimeout);
    RowHistory.PublishKeepsTable(c, o, h.w, NoId, req, ref);
    var p := PublishRecords(c, o, h.w, NoId, req, ref);
    NoRowToWrite(o, p.w, ReadyRow(c, ZeroEnvironment, ref, req.artifactRef, p.w.now));
  }

  lemma NoRowToWrite(o: Oracle, w: World, env: Environment)
    requires env.id !in w.environments
    ensures var u := UpdateEnvironment(o, w, env); u.out.Err? && u.w.environments == w.environments
  {
  }

  lemma {:induction false} EmptyRowLoop(c: Config, o: Oracle, w: World, req: ApplyRequest, attempt: nat)
    requires ValidConfig(c) && NoId !in w.environments && 1 <= attempt <= MaxApplyAttempts
    ensures var a := ApplyLoop(c, o, w, ZeroEnvironment, req, attempt);
      a.out.err.Some? && a.out.env == ZeroEnvironment && a.w.environments == w.environments
    decreases MaxApplyAttempts - attempt
  {
    hide AttemptApply;
    var w1 := if attempt > 1 then Sleep(w, ApplyBackoff(attempt)) else w;
    EmptyRowAttempt(c, o, w1, req);
    var a := AttemptApply(c, o, w1, ZeroEnvironment, req);
    if attempt < MaxApplyAttempts { EmptyRowLoop(c, o, a.w, req, attempt + 1); }
  }

  /**
   Main result: once an attempt has handed back the empty row, the attempts left all fail and giving up rolls back to
   nothing and marks nothing: the table keeps the row as the lost write left it, deploying or ready, never failed.
   */
  lemma LostWriteEndsThePass(c: Config, o: Oracle, w: World, env: Environment, req: ApplyRequest, attempt: nat)
    requires ValidConfig(c) && 1 <= attempt <= MaxApplyAttempts
    requires var w1 := if attempt > 1 then Sleep(w, ApplyBackoff(attempt)) else w;
             var a := AttemptApply(c, o, w1, env, req);
             a.out.err.Some? && a.out.env == ZeroEnvironment && NoId !in a.w.environments
    ensures var w1 := if attempt > 1 then Sleep(w, ApplyBackoff(attempt)) else w;
            var lost := AttemptApply(c, o, w1, env, req).w;
            var a := ApplyLoop(c, o, w, env, req, attempt);
            && a.out.err.Some? && a.out.env == ZeroEnvironment && a.w.environments == lost.environments
            && GiveUp(c, o, a.w, a.out.env, req).environments == lost.environments
  {
    hide AttemptApply;
    var w1 := if attempt > 1 then Sleep(w, ApplyBackoff(attempt)) else w;
    var lost := AttemptApply(c, o, w1, env, req);
    if attempt < MaxApplyAttempts { EmptyRowLoop(c, o, lost.w, req, attempt + 1); }
  }

  /**
   A rollback that fails is another matter: although a lost write makes it too hand back the empty row, it is the row given
   up on that is marked failed, as soon as that write is answered and the table allows it.
   */
  lemma LostRollbackIsMarked(c: Config, o: Oracle, w: World, env: Environment, req: ApplyRequest)
    requires ValidConfig(c) && ApplyOutcome.CanRollBack(env, req)
    requires var b := AttemptApply(c, o, w, env, req.(artifactRef := env.lastGoodArtifactRef));
      && b.out.err.Some? && ApplyOutcome.AnswersFrom(o, b.w.calls)
      && env.id in b.w.environments && CanTransition(b.w.Current(env.id).status, Failed)
    ensures var w' := GiveUp(c, o, w, env, req);
      && env.id in w'.environments
      && var row := w'.Current(env.id);
         row == env.(status := Failed, createdAt := row.createdAt, updatedAt := row.updatedAt)
  {
    hide AttemptApply;
    var b := AttemptApply(c, o, w, env, req.(artifactRef := env.lastGoodArtifactRef));
    AnsweredWrite(o, b.w, env.(status := Failed));
  }

  lemma AnsweredWrite(o: Oracle, w: World, env: Environment)
    requires ApplyOutcome.AnswersFrom(o, w.calls) && env.id in w.environments
    requires CanTransition(w.Current(env.id).status, env.status)
    ensures var u := UpdateEnvironment(o, w, env);
      && env.id in u.w.environments
      && var row := u.w.Current(env.id); row == env.(createdAt := row.createdAt, updatedAt := row.updatedAt)
  {
  }

  // ---------- a push on which it happens ----------

  const Target: Config := Config("example.org", 0, 1, 1, 0, false, false, false,
                                 (p, b, x) => "ref", r => "192.0.2.1", (p, b) => "tag")

  const Asked: ApplyRequest := ApplyRequest("p", "b", 1, "b", "image")

  /** A branch that was admitted and not yet deployed. */
  function Reserved(): World {
    World(map[EnvId("p", "b") := Versions([], NewRow(Asked))], [], 0, map[], map[], {}, {}, 0, 0, 0, 0, [], [])
  }

  /** Every call succeeds but the eleventh: the write that is to mark the row ready. */
  function OneRefused(k: Kind, n: nat): Reply {
    Reply(n != 10, false, true, 0)
  }

  lemma DeployingRowIsRead()
    ensures var u := UpdateEnvironment(OneRefused, Tick(OneRefused, Reserved(), StoreCall), DeployingRow(NewRow(Asked), Asked));
      && u.out == Ok(DeployingRow(NewRow(Asked), Asked)) && u.w.calls == 3 && u.w.now == 0 && u.w.dnsRows == []
      && EnvId("p", "b") in u.w.environments && NoId !in u.w.environments
      && u.w.Current(EnvId("p", "b")) == DeployingRow(NewRow(Asked), Asked)
  {
    assert CanTransition(Pending, Deploying);
  }

  /** The attempt gets through to its final write, and that is refused. */
  lemma AttemptLosesItsWrite(w: World)
    requires w.calls == 3 && w.now == 0 && w.dnsRows == [] && EnvId("p", "b") in w.environments
    ensures var a := AttemptApply(Target, OneRefused, w, DeployingRow(NewRow(Asked), Asked), Asked);
      a.out == Attempt(ZeroEnvironment, Some(CallFailed)) && a.w.environments == w.environments
  {
    var d := DeployApply(OneRefused, w, "ref", "image");
    var h := WaitUntilHealthy(Target, OneRefused, d.w, "ref", d.w.now + 1);
    assert h.out.None? && h.w.calls == 6 && h.w.environments == w.environments && h.w.dnsRows == [];
    var p := PublishRecords(Target, OneRefused, h.w, EnvId("p", "b"), Asked, "ref");
    assert RowsOf(h.w.dnsRows, EnvId("p", "b")) == [];
    assert p.out.None? && p.w.calls == 10 && p.w.environments == w.environments;
  }

  /**
   A push on which the first attempt hands back another row than it was given: everything is up and recorded, the last
   write is refused, and although nothing fails from then on the push fails and leaves its row deploying.
   */
  lemma LostReadyWrite()
    ensures var w := Reserved();
      var row := DeployingRow(NewRow(Asked), Asked);
      var u := UpdateEnvironment(OneRefused, Tick(OneRefused, w, StoreCall), row);
      && u.out == Ok(row)
      && AttemptApply(Target, OneRefused, u.w, row, Asked).out == Attempt(ZeroEnvironment, Some(CallFailed))
      && PushDelivery(Target, OneRefused, w, true, Asked).out == Some(ApplyFailed)
      && PushDelivery(Target, OneRefused, w, true, Asked).w.environments == u.w.environments
      && EnvId("p", "b") in u.w.environments && u.w.Current(EnvId("p", "b")).status == Deploying
  {
    hide AttemptApply, ApplyLoop, GiveUp, UpdateEnvironment, Notify;
    var w := Reserved();
    var row := DeployingRow(NewRow(Asked), Asked);
    DeployingRowIsRead();
    var u := UpdateEnvironment(OneRefused, Tick(OneRefused, w, StoreCall), row);
    AttemptLosesItsWrite(u.w);
    LostWriteEndsThePass(Target, OneRefused, u.w, row, Asked, 1);
    assert UpsertPendingEnvironment(OneRefused, w, Asked) == Ran(Tick(OneRefused, w, StoreCall), Ok(NewRow(Asked)));
  }
}
