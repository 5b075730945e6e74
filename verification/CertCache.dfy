/**
 The certificate cache (providers/cert/acme/acme.go): the provider object, and the protocol that any number of callers
 follow on it, one atomic step at a time, with the clock moving and the process restarting in between.
 */
module CertCache {
  import opened Wrappers

  // Times are in seconds.
  const RenewBefore := 30 * 24 * 3600

  datatype Cert = Cert(domain: string, pem: string, notAfter: int)

  type Certs = map<string, Cert>

  /** A cached certificate with more than 30 days left. */
  predicate Fresh(cache: Certs, domain: string, now: int) {
    domain in cache && cache[domain].notAfter - now > RenewBefore
  }

  datatype Error = NotObtained | NotPersisted | NotRevoked | NotRemoved

  /** What the CA and the disk answer: the certificate issued, if any, and whether files can be written and removed. */
  datatype Answers = Answers(issued: Option<(string, int)>, persisted: bool, revoked: bool, removed: bool)

  // ---------- the object ----------

  datatype Outcome = Outcome(cache: Certs, disk: Certs, obtains: nat, result: Result<Cert, Error>)

  /** A call that nothing interrupts. */
  function Ensure(cache: Certs, disk: Certs, domain: string, now: int, a: Answers): Outcome {
    if Fresh(cache, domain, now) then Outcome(cache, disk, 0, Ok(cache[domain]))
    else if a.issued.None? then Outcome(cache, disk, 1, Err(NotObtained))
    else
      var cert := Cert(domain, a.issued.value.0, a.issued.value.1);
      if !a.persisted then Outcome(cache, disk, 1, Err(NotPersisted))
      else Outcome(cache[domain := cert], disk[domain := cert], 1, Ok(cert))
  }

  function Revoke(cache: Certs, disk: Certs, domain: string, a: Answers): (Certs, Certs, Option<Error>) {
    if domain !in cache then (cache, disk, None)
    else if !a.revoked then (cache, disk, Some(NotRevoked))
    else if !a.removed then (cache - {domain}, disk, Some(NotRemoved))
    else (cache - {domain}, disk - {domain}, None)
  }

  class Provider {
    var cache: Certs
    var disk: Certs
    var obtains: nat

    constructor (disk: Certs)
      ensures cache == disk && this.disk == disk && obtains == 0
    {
      this.cache, this.disk, this.obtains := disk, disk, 0;
    }

    method EnsureCertificate(domain: string, now: int, a: Answers) returns (result: Result<Cert, Error>)
      modifies this
      ensures var o := Ensure(old(cache), old(disk), domain, now, a);
              cache == o.cache && disk == o.disk && obtains == old(obtains) + o.obtains && result == o.result
      ensures var kept := domain in old(cache) && old(cache)[domain].notAfter - now > 30 * 24 * 3600;
              && obtains == old(obtains) + (if kept then 0 else 1)
              && (kept ==> result == Ok(old(cache)[domain]) && cache == old(cache) && disk == old(disk))
              && (!kept ==> (result.Ok? <==> a.issued.Some? && a.persisted))
              && (!kept && result.Ok? ==>
                    var cert := Cert(domain, a.issued.value.0, a.issued.value.1);
                    result.value == cert && cache == old(cache)[domain := cert] && disk == old(disk)[domain := cert])
              && (result.Err? ==> cache == old(cache) && disk == old(disk))
              && (result.Err? ==> result.error == if a.issued.None? then NotObtained else NotPersisted)
    {
      if domain in cache && cache[domain].notAfter - now > RenewBefore { return Ok(cache[domain]); }
      obtains := obtains + 1;
      if a.issued.None? { return Err(NotObtained); }
      var cert := Cert(domain, a.issued.value.0, a.issued.value.1);
      if !a.persisted { return Err(NotPersisted); }
      disk := disk[domain := cert];
      cache := cache[domain := cert];
      return Ok(cert);
    }

    method RevokeCertificate(domain: string, a: Answers) returns (err: Option<Error>)
      modifies this
      ensures obtains == old(obtains)
      ensures (cache, disk, err) == Revoke(old(cache), old(disk), domain, a)
      ensures cache == if a.revoked then old(cache) - {domain} else old(cache)
      ensures disk == if domain in old(cache) && a.revoked && a.removed then old(disk) - {domain} else old(disk)
      ensures err == if domain !in old(cache) then None else if !a.revoked then Some(NotRevoked)
                     else if !a.removed then Some(NotRemoved) else None
    {
      if domain !in cache { return None; }
      if !a.revoked { return Some(NotRevoked); }
      cache := cache - {domain};
      if !a.removed { return Some(NotRemoved); }
      disk := disk - {domain};
      return None;
    }
  }

  // ---------- the protocol ----------

  datatype Phase =
    | Start
    | Waiting                // the first look found nothing fresh
    | Locked                 // holds issueMu
    | Obtaining              // the second look found nothing fresh either
    | Obtained(cert: Cert)
    | Persisted(cert: Cert)
    | Returned(cert: Cert)
    | Failed(error: Error)

  datatype Caller = Caller(domain: string, phase: Phase)

  datatype State = State(cache: Certs, disk: Certs, now: int, issuer: Option<nat>, callers: map<nat, Caller>)

  datatype Step =
    | Call(t: nat, domain: string)
    | FirstLook(t: nat)
    | LockIssue(t: nat)
    | SecondLook(t: nat)
    | Obtain(t: nat, issued: Option<(string, int)>)
    | Persist(t: nat, ok: bool)
    | Fill(t: nat)
    | RevokeAll(revoking: string, answers: Answers)
    | Tick(seconds: nat)
    | Restart

  predicate Critical(p: Phase) {
    p.Locked? || p.Obtaining? || p.Obtained? || p.Persisted?
  }

  predicate Finished(p: Phase) {
    p.Returned? || p.Failed?
  }

  /** Revoke does not take issueMu: it is only considered while no caller is busy with the domain. */
  predicate Enabled(s: State, step: Step) {
    match step
    case Call(t, _) => t !in s.callers
    case FirstLook(t) => t in s.callers && s.callers[t].phase.Start?
    case LockIssue(t) => t in s.callers && s.callers[t].phase.Waiting? && s.issuer.None?
    case SecondLook(t) => t in s.callers && s.callers[t].phase.Locked?
    case Obtain(t, _) => t in s.callers && s.callers[t].phase.Obtaining?
    case Persist(t, _) => t in s.callers && s.callers[t].phase.Obtained?
    case Fill(t) => t in s.callers && s.callers[t].phase.Persisted?
    case RevokeAll(domain, _) => forall t :: t in s.callers && s.callers[t].domain == domain ==> Finished(s.callers[t].phase)
    case Tick(_) => true
    case Restart => true
  }

  function Move(s: State, t: nat, phase: Phase): State
    requires t in s.callers
  {
    s.(callers := s.callers[t := s.callers[t].(phase := phase)])
  }

  /** The caller returns, releasing issueMu. */
  function Leave(s: State, t: nat, phase: Phase): State
    requires t in s.callers
  {
    Move(s, t, phase).(issuer := None)
  }

  function Next(s: State, step: Step): State
    requires Enabled(s, step)
  {
    match step
    case Call(t, domain) => s.(callers := s.callers[t := Caller(domain, Start)])
    case FirstLook(t) =>
      var d := s.callers[t].domain;
      Move(s, t, if Fresh(s.cache, d, s.now) then Returned(s.cache[d]) else Waiting)
    case LockIssue(t) => Move(s, t, Locked).(issuer := Some(t))
    case SecondLook(t) =>
      var d := s.callers[t].domain;
      if Fresh(s.cache, d, s.now) then Leave(s, t, Returned(s.cache[d])) else Move(s, t, Obtaining)
    case Obtain(t, issued) =>
      if issued.None? then Leave(s, t, Failed(NotObtained))
      else Move(s, t, Obtained(Cert(s.callers[t].domain, issued.value.0, issued.value.1)))
    case Persist(t, ok) =>
      var cert := s.callers[t].phase.cert;
      if ok then Move(s, t, Persisted(cert)).(disk := s.disk[s.callers[t].domain := cert])
      else Leave(s, t, Failed(NotPersisted))
    case Fill(t) =>
      var cert := s.callers[t].phase.cert;
      Leave(s, t, Returned(cert)).(cache := s.cache[s.callers[t].domain := cert])
    case RevokeAll(domain, answers) =>
      var (cache, disk, _) := Revoke(s.cache, s.disk, domain, answers);
      s.(cache := cache, disk := disk)
    case Tick(seconds) => s.(now := s.now + seconds)
    case Restart => s.(cache := s.disk, issuer := None, callers := map[])
  }

  /** Steps of one caller, taken without interruption, come to what the call computes. */
  lemma AloneIsEnsure(s: State, t: nat, domain: string, a: Answers)
    requires t !in s.callers && s.issuer.None?
    ensures var called := Next(Next(s, Call(t, domain)), FirstLook(t));
            var o := Ensure(s.cache, s.disk, domain, s.now, a);
            if Fresh(s.cache, domain, s.now) then
              called.callers[t].phase == Returned(o.result.value) && called.cache == o.cache && called.disk == o.disk
            else
              var tried := Next(Next(Next(called, LockIssue(t)), SecondLook(t)), Obtain(t, a.issued));
              if a.issued.None? then
                tried.callers[t].phase == Failed(o.result.error) && tried.cache == o.cache && tried.disk == o.disk
              else
                var stored := Next(tried, Persist(t, a.persisted));
                if !a.persisted then
                  stored.callers[t].phase == Failed(o.result.error) && stored.cache == o.cache && stored.disk == o.disk
                else
                  var w := Next(stored, Fill(t));
                  w.callers[t].phase == Returned(o.result.value) && w.cache == o.cache && w.disk == o.disk
  {
  }

  // ---------- what every step keeps ----------

  predicate PastSecondLook(p: Phase) {
    p.Obtaining? || p.Obtained? || p.Persisted?
  }

  /** issueMu is held by the one caller inside. */
  ghost predicate Held(issuer: Option<nat>, callers: map<nat, Caller>) {
    && (forall t :: t in callers ==> (Critical(callers[t].phase) <==> issuer == Some(t)))
    && (issuer.Some? ==> issuer.value in callers)
  }

  /** Past the second look, the domain has no fresh certificate in the cache. */
  ghost predicate Due(s: State) {
    forall t :: t in s.callers && PastSecondLook(s.callers[t].phase) ==> !Fresh(s.cache, s.callers[t].domain, s.now)
  }

  /** What a caller has persisted is what the disk holds. */
  ghost predicate Written(disk: Certs, callers: map<nat, Caller>) {
    forall t :: t in callers && callers[t].phase.Persisted? ==>
      callers[t].domain in disk && disk[callers[t].domain] == callers[t].phase.cert
  }

  /** What is cached is on disk, unless its successor is. */
  ghost predicate Backed(s: State) {
    forall d :: d in s.cache ==> d in s.disk && (s.disk[d] == s.cache[d] || BeingReplaced(s, d))
  }

  ghost predicate Inv(s: State) {
    Held(s.issuer, s.callers) && Due(s) && Written(s.disk, s.callers) && Backed(s)
  }

  /** The issuing caller has persisted the domain's next certificate, and not yet cached it. */
  predicate BeingReplaced(s: State, domain: string) {
    && s.issuer.Some? && s.issuer.value in s.callers
    && var c := s.callers[s.issuer.value];
       c.domain == domain && c.phase.Persisted?
  }

  lemma StepKeepsHeld(s: State, step: Step)
    requires Held(s.issuer, s.callers) && Enabled(s, step)
    ensures Held(Next(s, step).issuer, Next(s, step).callers)
  {
    hide Fresh, Revoke;
  }

  lemma StepKeepsDue(s: State, step: Step)
    requires Held(s.issuer, s.callers) && Due(s) && Enabled(s, step)
    ensures Due(Next(s, step))
  {
    hide RenewBefore;
  }

  lemma StepKeepsWritten(s: State, step: Step)
    requires Held(s.issuer, s.callers) && Written(s.disk, s.callers) && Enabled(s, step)
    ensures Written(Next(s, step).disk, Next(s, step).callers)
  {
    hide Fresh;
  }

  lemma StepKeepsBacked(s: State, step: Step)
    requires Inv(s) && Enabled(s, step)
    ensures Backed(Next(s, step))
  {
    hide Fresh, Due;
    var w := Next(s, step);
    forall d | d in w.cache ensures d in w.disk && (w.disk[d] == w.cache[d] || BeingReplaced(w, d)) {
      assert d in s.cache ==> d in s.disk && (s.disk[d] == s.cache[d] || BeingReplaced(s, d));
    }
  }

  lemma StepKeepsInv(s: State, step: Step)
    requires Inv(s) && Enabled(s, step)
    ensures Inv(Next(s, step))
  {
    hide Next, Enabled, Held, Due, Written, Backed;
    StepKeepsHeld(s, step);
    StepKeepsDue(s, step);
    StepKeepsWritten(s, step);
    StepKeepsBacked(s, step);
  }

  predicate Run(states: seq<State>, steps: seq<Step>) {
    && |states| == |steps| + 1
    && forall i :: 0 <= i < |steps| ==> Enabled(states[i], steps[i]) && states[i + 1] == Next(states[i], steps[i])
  }

  /** A process starts with what is on disk, and nobody calling. */
  predicate Init(s: State) {
    s.cache == s.disk && s.issuer.None? && s.callers == map[]
  }

  lemma {:induction false} RunKeepsInv(states: seq<State>, steps: seq<Step>, n: nat)
    requires Run(states, steps) && Init(states[0]) && n <= |steps|
    ensures Inv(states[n])
  {
    hide Enabled, Next;
    if n > 0 {
      RunKeepsInv(states, steps, n - 1);
      assert Enabled(states[n - 1], steps[n - 1]) && states[n - 1 + 1] == Next(states[n - 1], steps[n - 1]);
      StepKeepsInv(states[n - 1], steps[n - 1]);
    }
  }

  predicate Issuing(s: State, t: nat) {
    t in s.callers && Critical(s.callers[t].phase)
  }

  /** Main result: in every interleaving one caller at most is issuing, and only where no cached certificate is fresh. */
  lemma OneIssuerAndOnlyWhenDue(states: seq<State>, steps: seq<Step>, n: nat)
    requires Run(states, steps) && Init(states[0]) && n <= |steps|
    ensures var s := states[n];
            && (forall t, u :: Issuing(s, t) && Issuing(s, u) ==> t == u)
            && (n < |steps| && steps[n].Obtain? ==>
                  && s.issuer == Some(steps[n].t)
                  && var domain := s.callers[steps[n].t].domain;
                     domain in s.cache ==> s.cache[domain].notAfter - s.now <= 30 * 24 * 3600)
  {
    RunKeepsInv(states, steps, n);
    if n < |steps| { assert Enabled(states[n], steps[n]); }
  }

  /** The certificate is in force for the domain, or it is due for renewal. */
  ghost predicate InForce(s: State, domain: string, cert: Cert) {
    || cert.notAfter - s.now <= RenewBefore
    || (&& domain in s.cache && s.cache[domain] == cert
        && domain in s.disk && s.disk[domain] == cert
        && forall t :: t in s.callers && s.callers[t].domain == domain ==> !PastSecondLook(s.callers[t].phase))
  }

  lemma StepKeepsInForce(s: State, step: Step, domain: string, cert: Cert)
    requires Inv(s) && Enabled(s, step) && InForce(s, domain, cert)
    requires !(step.RevokeAll? && step.revoking == domain)
    ensures InForce(Next(s, step), domain, cert)
  {
    hide RenewBefore;
  }

  lemma FillPutsInForce(s: State, step: Step)
    requires Inv(s) && step.Fill? && Enabled(s, step)
    ensures InForce(Next(s, step), s.callers[step.t].domain, s.callers[step.t].phase.cert)
  {
  }

  lemma {:induction false} StaysInForce(states: seq<State>, steps: seq<Step>, domain: string, cert: Cert,
                                        from: nat, to: nat)
    requires Run(states, steps) && Init(states[0]) && from <= to <= |steps|
    requires InForce(states[from], domain, cert)
    requires forall i :: from <= i < to ==> !(steps[i].RevokeAll? && steps[i].revoking == domain)
    ensures InForce(states[to], domain, cert)
  {
    hide Enabled, Next, InForce;
    if from < to {
      StaysInForce(states, steps, domain, cert, from, to - 1);
      RunKeepsInv(states, steps, to - 1);
      assert Enabled(states[to - 1], steps[to - 1]) && states[to - 1 + 1] == Next(states[to - 1], steps[to - 1]);
      StepKeepsInForce(states[to - 1], steps[to - 1], domain, cert);
    }
  }

  /** The step caches this certificate for the domain. */
  predicate Caches(s: State, step: Step, domain: string, cert: Cert) {
    step.Fill? && Enabled(s, step) && s.callers[step.t] == Caller(domain, Persisted(cert))
  }

  /** The step asks the CA for a certificate for the domain. */
  predicate Asks(s: State, step: Step, domain: string) {
    step.Obtain? && Enabled(s, step) && s.callers[step.t].domain == domain
  }

  /**
   Main result: once a certificate is cached, nobody asks the CA for that domain again until 30 days before it expires,
   across restarts and whoever calls, unless the domain is revoked.
   */
  lemma NoNeedlessObtain(states: seq<State>, steps: seq<Step>, i: nat, j: nat, domain: string, cert: Cert)
    requires Run(states, steps) && Init(states[0]) && i < j < |steps|
    requires Caches(states[i], steps[i], domain, cert) && Asks(states[j], steps[j], domain)
    requires forall k :: i < k < j ==> !(steps[k].RevokeAll? && steps[k].revoking == domain)
    ensures cert.notAfter - states[j].now <= 30 * 24 * 3600
  {
    hide Next;
    RunKeepsInv(states, steps, i);
    FillPutsInForce(states[i], steps[i]);
    assert states[i + 1] == Next(states[i], steps[i]);
    StaysInForce(states, steps, domain, cert, i + 1, j);
  }

  /** Every cached certificate survives a restart, or the one that was about to replace it does. */
  lemma RestartKeepsCertificates(states: seq<State>, steps: seq<Step>, n: nat, domain: string)
    requires Run(states, steps) && Init(states[0]) && n < |steps| && steps[n].Restart?
    requires domain in states[n].cache
    ensures domain in states[n + 1].cache
    ensures states[n + 1].cache[domain] == states[n].cache[domain] || BeingReplaced(states[n], domain)
  {
    RunKeepsInv(states, steps, n);
    assert states[n + 1] == Next(states[n], steps[n]);
  }

  /** A revocation whose file could not be removed is undone by the next restart. */
  lemma RevokedReturnsOnRestart(s: State, domain: string, answers: Answers)
    requires Inv(s) && Enabled(s, RevokeAll(domain, answers)) && domain in s.cache
    ensures var w := Next(Next(s, RevokeAll(domain, answers)), Restart);
            domain in w.cache <==> !(answers.revoked && answers.removed)
  {
  }
}
