/** What putting an environment to sleep and waking it does to its deployment and its row (internal/core/reconciler.go). */
module SleepWake {
  import opened Wrappers
  import opened Transitions
  import opened Calls
  import opened Lifecycle
  import ApplyOutcome
  import CrashRecovery

  /** The deployments with the one under ref stopped or started, if there is one; its artifact and health stay. */
  function Switched(deployments: map<string, Deployment>, ref: string, running: bool): map<string, Deployment> {
    map r | r in deployments :: if r == ref then Deployment(deployments[r].artifact, running, deployments[r].healthy)
                                else deployments[r]
  }

  /** Nothing differs but the deployments, the row of id, the clock and the call counters. */
  predicate OnlyDeploymentAndRow(w: World, w': World, id: EnvId) {
    && w'.environments - {id} == w.environments - {id}
    && w'.dnsRows == w.dnsRows && w'.nextRow == w.nextRow && w'.zone == w.zone
    && w'.certificates == w.certificates && w'.installed == w.installed
    && w'.deployCalls == w.deployCalls && w'.steps == w.steps && w'.notices == w.notices
  }

  /** The row now stored is env with the new status, created when it was and stamped since. */
  predicate Marked(w: World, w': World, env: Environment, to: Status) {
    && env.id in w.environments && env.id in w'.environments
    && w'.Current(env.id) == env.(status := to, createdAt := w.Current(env.id).createdAt,
                                  updatedAt := w'.Current(env.id).updatedAt)
    && w.now <= w'.Current(env.id).updatedAt <= w'.now
  }

  /** What switching the deployment of env on or off and marking its row has come to, whatever was answered. */
  predicate SwitchDone(w: World, env: Environment, running: bool, from: Status, to: Status, w': World,
                       out: Result<Environment, Error>) {
    if env.status != from || env.deployRef == "" then w' == w && out == Err(InvalidAction)
    else
      && OnlyDeploymentAndRow(w, w', env.id)
      && (w'.deployments == Switched(w.deployments, env.deployRef, running) || w'.deployments == w.deployments)
      && (out.Ok? || w'.environments != w.environments ==>
            w'.deployments == Switched(w.deployments, env.deployRef, running) && Marked(w, w', env, to))
      && (out.Ok? ==> out.value == w'.Current(env.id))
      && out != Err(InvalidAction)
  }

  lemma SwitchEffect(o: Oracle, w: World, ref: string, running: bool)
    ensures var s := DeploySetRunning(o, w, ref, running);
      && s.w == w.(deployments := s.w.deployments, calls := s.w.calls, now := s.w.now) && w.now <= s.w.now
      && (s.w.deployments == Switched(w.deployments, ref, running) || (s.out.Some? && s.w.deployments == w.deployments))
      && (s.out.Some? ==> s.out == Some(CallFailed))
  {
    var s := DeploySetRunning(o, w, ref, running);
    if s.w.deployments != w.deployments || s.out.None? {
      assert s.w.deployments == Switched(w.deployments, ref, running);
    }
  }

  lemma MarkFrame(o: Oracle, w: World, env: Environment)
    ensures var u := UpdateEnvironment(o, w, env);
      OnlyDeploymentAndRow(w, u.w, env.id) && u.w.deployments == w.deployments && u.out != Err(InvalidAction)
  {
    hide CanTransition;
  }

  lemma MarkEffect(o: Oracle, w: World, env: Environment, to: Status)
    ensures var u := UpdateEnvironment(o, w, env.(status := to));
      && (u.out.Ok? || u.w.environments != w.environments ==> Marked(w, u.w, env, to))
      && (u.out.Ok? ==> u.out.value == u.w.Current(env.id))
  {
    hide CanTransition;
  }

  lemma SwitchAndMark(o: Oracle, w: World, env: Environment, running: bool, from: Status, to: Status)
    requires env.status == from && env.deployRef != ""
    ensures var s := DeploySetRunning(o, w, env.deployRef, running);
      var u := UpdateEnvironment(o, s.w, env.(status := to));
      SwitchDone(w, env, running, from, to, if s.out.Some? then s.w else u.w,
                 if s.out.Some? then Err(s.out.value) else u.out)
  {
    hide DeploySetRunning, UpdateEnvironment, Switched;
    SwitchEffect(o, w, env.deployRef, running);
    MarkFrame(o, DeploySetRunning(o, w, env.deployRef, running).w, env.(status := to));
    MarkEffect(o, DeploySetRunning(o, w, env.deployRef, running).w, env, to);
  }

  /**
   Main result: sleep is for ready environments with a deployment alone and else calls nothing. It stops the deployment
   and then marks the row, which therefore says sleeping only after the deployment has been stopped; nothing else moves.
   */
  lemma SleepStops(o: Oracle, w: World, env: Environment)
    ensures var r := DoSleep(o, w, env); SwitchDone(w, env, false, Ready, Sleeping, r.w, r.out)
  {
    hide SwitchDone;
    if env.status == Ready && env.deployRef != "" {
      SwitchAndMark(o, w, env, false, Ready, Sleeping);
    } else {
      Refused(w, env, false, Ready, Sleeping);
    }
  }

  /** Main result: and wake, of sleeping environments alone, starts it again. */
  lemma WakeStarts(o: Oracle, w: World, env: Environment)
    ensures var r := DoWake(o, w, env); SwitchDone(w, env, true, Sleeping, Ready, r.w, r.out)
  {
    hide SwitchDone;
    if env.status == Sleeping && env.deployRef != "" {
      SwitchAndMark(o, w, env, true, Sleeping, Ready);
    } else {
      Refused(w, env, true, Sleeping, Ready);
    }
  }

  lemma Refused(w: World, env: Environment, running: bool, from: Status, to: Status)
    requires env.status != from || env.deployRef == ""
    ensures SwitchDone(w, env, running, from, to, w, Err(InvalidAction))
  {
  }

  /** With every call answered both succeed on the row as it stands. */
  lemma SwitchSucceeds(o: Oracle, w: World, env: Environment)
    requires CrashRecovery.AllOk(o) && ApplyOutcome.Fresh(w, env) && env.deployRef != ""
    ensures env.status == Ready ==> DoSleep(o, w, env).out.Ok?
    ensures env.status == Sleeping ==> DoWake(o, w, env).out.Ok?
  {
  }

  lemma SwitchedBack(deployments: map<string, Deployment>, ref: string)
    requires ref in deployments ==> deployments[ref].running
    ensures Switched(Switched(deployments, ref, false), ref, true) == deployments
  {
  }

  /** Main result: an answered sleep followed by an answered wake gives back the deployments and, but for its stamp, the row. */
  lemma WakeUndoesSleep(o: Oracle, w: World, env: Environment)
    requires CrashRecovery.AllOk(o) && ApplyOutcome.Fresh(w, env) && env.status == Ready && env.deployRef != ""
    requires env.deployRef in w.deployments ==> w.deployments[env.deployRef].running
    ensures var slept := DoSleep(o, w, env);
      slept.out.Ok? &&
      var woken := DoWake(o, slept.w, slept.out.value);
      woken.out.Ok? && woken.out.value == env.(updatedAt := woken.out.value.updatedAt)
      && ApplyOutcome.Fresh(woken.w, woken.out.value) && woken.w.deployments == w.deployments
      && OnlyDeploymentAndRow(w, woken.w, env.id)
  {
    hide DoSleep, DoWake, Switched, CrashRecovery.AllOk;
    SwitchSucceeds(o, w, env);
    SleepStops(o, w, env);
    var slept := DoSleep(o, w, env);
    SwitchSucceeds(o, slept.w, slept.out.value);
    WakeStarts(o, slept.w, slept.out.value);
    SwitchedBack(w.deployments, env.deployRef);
  }
}
