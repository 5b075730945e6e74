/** One teardown pass, for every pattern of failures: all steps are tried, and a row is forgotten only once its record is gone. */
module Teardown {
  import opened Wrappers
  import opened Transitions
  import opened Calls
  import opened Lifecycle
  import opened ApplyOutcome

  /** Primary keys of dns_records. */
  ghost predicate DistinctIds(rows: seq<DnsRow>) {
    forall i, j :: 0 <= i < j < |rows| ==> rows[i].rowId != rows[j].rowId
  }

  predicate StepOk(s: TeardownStep) {
    s.ok
  }

  predicate SomeStepFailed(pass: seq<TeardownStep>) {
    exists s :: s in pass && !StepOk(s)
  }

  predicate RowGone(pass: seq<TeardownStep>, rowId: nat) {
    RowRemoval(rowId, true, true) in pass || RowRemoval(rowId, true, false) in pass
  }

  /** The provider refused or failed to delete the record, or the row's removal had no effect. */
  predicate RowStuck(pass: seq<TeardownStep>, rowId: nat) {
    RecordDeletion(rowId, false) in pass || RowRemoval(rowId, false, false) in pass
  }

  predicate Tried(pass: seq<TeardownStep>, rowId: nat) {
    RecordDeletion(rowId, true) in pass || RecordDeletion(rowId, false) in pass
  }

  ghost predicate MentionsOnly(pass: seq<TeardownStep>, records: seq<DnsRow>) {
    forall s :: s in pass ==> (s.RecordDeletion? || s.RowRemoval?) && exists r :: r in records && r.rowId == s.rowId
  }

  /** DNS records first, then the certificate, then its installation, then the deployment. */
  function Stage(s: TeardownStep): nat {
    match s
    case RecordDeletion(_, _) => 0
    case RowRemoval(_, _, _) => 0
    case Revocation(_, _) => 1
    case CertificateRemoval(_, _) => 2
    case DeploymentRemoval(_, _) => 3
  }

  /** No step comes after one of a later stage. */
  predicate InStages(pass: seq<TeardownStep>) {
    forall i, j :: 0 <= i < j < |pass| ==> Stage(pass[i]) <= Stage(pass[j])
  }

  predicate RecordSteps(pass: seq<TeardownStep>) {
    forall s :: s in pass ==> Stage(s) == 0
  }

  lemma JoinStages(p1: seq<TeardownStep>, p2: seq<TeardownStep>)
    requires RecordSteps(p1) && InStages(p2)
    ensures InStages(p1 + p2)
  {
    var pass := p1 + p2;
    forall i, j | 0 <= i < j < |pass| ensures Stage(pass[i]) <= Stage(pass[j]) {
      if i < |p1| { assert pass[i] in p1; } else { assert pass[i] == p2[i - |p1|] && pass[j] == p2[j - |p1|]; }
    }
  }

  lemma {:induction false} WithoutRowContents(rows: seq<DnsRow>, rowId: nat)
    ensures forall x :: x in WithoutRow(rows, rowId) <==> x in rows && x.rowId != rowId
  {
    if rows != [] {
      var front := rows[..|rows| - 1];
      WithoutRowContents(front, rowId);
      assert rows == front + [rows[|rows| - 1]];
    }
  }

  /** Everything but the zone, the rows and the step log is left alone by the record loop. */
  predicate SameElsewhere(w: World, w': World) {
    && w'.environments == w.environments && w'.deployments == w.deployments && w'.nextRow == w.nextRow
    && w'.certificates == w.certificates && w'.installed == w.installed && w'.notices == w.notices
  }

  /** What the loop over listed records achieves, record by record. */
  ghost predicate PassOver(w: World, d: Ran<nat>, records: seq<DnsRow>, pass: seq<TeardownStep>) {
    && d.w.steps == w.steps + pass
    && SameElsewhere(w, d.w)
    && (d.out > 0 <==> SomeStepFailed(pass))
    && MentionsOnly(pass, records)
    && (forall x :: x in d.w.dnsRows <==> x in w.dnsRows && !RowGone(pass, x.rowId))
    && (forall r :: r in records ==> Tried(pass, r.rowId) && (RowGone(pass, r.rowId) <==> !RowStuck(pass, r.rowId)))
    && (forall r :: r in records && RowGone(pass, r.rowId) ==> r.name !in d.w.zone)
    && (forall n :: n in d.w.zone ==> n in w.zone && d.w.zone[n] == w.zone[n])
    && (forall n :: n in w.zone && (forall r :: r in records ==> r.name != n) ==> n in d.w.zone)
  }

  /** The first record's own two steps. */
  ghost predicate HeadStep(w: World, w1: World, rec: DnsRow, head: seq<TeardownStep>, failed: nat) {
    && w1.steps == w.steps + head
    && SameElsewhere(w, w1)
    && (failed > 0 <==> SomeStepFailed(head))
    && MentionsOnly(head, [rec])
    && (forall x :: x in w1.dnsRows <==> x in w.dnsRows && !RowGone(head, x.rowId))
    && Tried(head, rec.rowId) && (RowGone(head, rec.rowId) <==> !RowStuck(head, rec.rowId))
    && (RowGone(head, rec.rowId) ==> rec.name !in w1.zone)
    && (forall n :: n in w1.zone ==> n in w.zone && w1.zone[n] == w.zone[n])
    && (forall n :: n in w.zone && n != rec.name ==> n in w1.zone)
  }

  lemma RefusedHead(o: Oracle, w: World, rec: DnsRow)
    requires DeleteRecord(o, w, rec).out.Some?
    ensures HeadStep(w, DeleteRecord(o, w, rec).w, rec, [RecordDeletion(rec.rowId, false)], 1)
  {
    var head := [RecordDeletion(rec.rowId, false)];
    assert !StepOk(head[0]);
    assert forall s :: s in head ==> s == head[0];
    assert rec in [rec];
  }

  lemma DeletedHead(o: Oracle, w: World, rec: DnsRow) returns (head: seq<TeardownStep>)
    requires DeleteRecord(o, w, rec).out.None?
    ensures var r := DeleteDnsRecord(o, DeleteRecord(o, w, rec).w, rec.rowId);
      HeadStep(w, r.w, rec, head, Failures(r.out))
  {
    var d := DeleteRecord(o, w, rec);
    var r := DeleteDnsRecord(o, d.w, rec.rowId);
    var reply := o(StoreCall, d.w.calls);
    var last := RowRemoval(rec.rowId, reply.Acts(), reply.ok);
    head := [RecordDeletion(rec.rowId, true), last];
    assert r.w.steps == w.steps + head;
    assert forall s :: s in head ==> s == head[0] || s == last;
    assert last in head && rec in [rec];
    WithoutRowContents(w.dnsRows, rec.rowId);
  }

  lemma StepsOfBoth(head: seq<TeardownStep>, tail: seq<TeardownStep>)
    ensures forall x :: RowGone(head + tail, x) <==> RowGone(head, x) || RowGone(tail, x)
    ensures forall x :: RowStuck(head + tail, x) <==> RowStuck(head, x) || RowStuck(tail, x)
    ensures forall x :: Tried(head + tail, x) <==> Tried(head, x) || Tried(tail, x)
    ensures SomeStepFailed(head + tail) <==> SomeStepFailed(head) || SomeStepFailed(tail)
  {
    assert forall s :: s in head + tail <==> s in head || s in tail;
    assert forall s :: s in head || s in tail ==> s in head + tail;
  }

  /** The steps on the first record and those on the others are about different rows. */
  lemma StepsApart(records: seq<DnsRow>, head: seq<TeardownStep>, tail: seq<TeardownStep>)
    requires records != [] && DistinctIds(records)
    requires MentionsOnly(head, [records[0]]) && MentionsOnly(tail, records[1..])
    ensures MentionsOnly(head + tail, records)
    ensures forall r :: r in records[1..] ==> !RowGone(head, r.rowId) && !RowStuck(head, r.rowId)
    ensures !RowGone(tail, records[0].rowId) && !RowStuck(tail, records[0].rowId)
  {
    assert forall r :: r in records[1..] ==> r in records && r.rowId != records[0].rowId;
    forall s | s in head + tail
      ensures (s.RecordDeletion? || s.RowRemoval?) && exists r :: r in records && r.rowId == s.rowId
    {
      if s in head { assert records[0] in records; } else { assert s in tail; }
    }
  }

  lemma JoinPasses(w: World, w1: World, rest: Ran<nat>, records: seq<DnsRow>, head: seq<TeardownStep>, tail: seq<TeardownStep>, failed: nat)
    requires records != [] && DistinctIds(records)
    requires HeadStep(w, w1, records[0], head, failed)
    requires PassOver(w1, rest, records[1..], tail)
    ensures PassOver(w, Ran(rest.w, rest.out + failed), records, head + tail)
  {
    hide RowGone, RowStuck, Tried, SomeStepFailed, MentionsOnly, DistinctIds;
    StepsOfBoth(head, tail);
    StepsApart(records, head, tail);
    var pass := head + tail;
    assert rest.w.steps == w.steps + pass;
    assert forall r :: r in records <==> r == records[0] || r in records[1..];
  }

  lemma EmptyPass(o: Oracle, w: World)
    ensures PassOver(w, DestroyRecords(o, w, []), [], [])
  {
    assert w.steps == w.steps + [];
  }

  lemma {:induction false} RecordsPass(o: Oracle, w: World, records: seq<DnsRow>) returns (pass: seq<TeardownStep>)
    requires DistinctIds(records)
    ensures PassOver(w, DestroyRecords(o, w, records), records, pass)
    decreases |records|
  {
    hide PassOver, HeadStep, DeleteRecord, DeleteDnsRecord;
    if records == [] {
      pass := [];
      EmptyPass(o, w);
    } else {
      var rec := records[0];
      var d := DeleteRecord(o, w, rec);
      var head, failed, w1;
      if d.out.Some? {
        RefusedHead(o, w, rec);
        head, failed, w1 := [RecordDeletion(rec.rowId, false)], 1, d.w;
      } else {
        head := DeletedHead(o, w, rec);
        var r := DeleteDnsRecord(o, d.w, rec.rowId);
        failed, w1 := Failures(r.out), r.w;
      }
      var tail := RecordsPass(o, w1, records[1..]);
      JoinPasses(w, w1, DestroyRecords(o, w1, records[1..]), records, head, tail, failed);
      pass := head + tail;
    }
  }

  lemma {:induction false} RowsOfDistinct(rows: seq<DnsRow>, id: EnvId)
    requires DistinctIds(rows)
    ensures DistinctIds(RowsOf(rows, id))
  {
    if rows != [] {
      var front, last := rows[..|rows| - 1], rows[|rows| - 1];
      RowsOfDistinct(front, id);
      RowsOfContents(front, id);
      assert forall r :: r in front ==> r.rowId != last.rowId;
    }
  }

  predicate Attempted(pass: seq<TeardownStep>, c: Config, env: Environment) {
    var name := env.subdomain + "." + c.baseDomain;
    && (Revocation(name, true) in pass || Revocation(name, false) in pass)
    && (c.removesCertificates ==> CertificateRemoval(name, true) in pass || CertificateRemoval(name, false) in pass)
    && (env.deployRef != "" ==> DeploymentRemoval(env.deployRef, true) in pass || DeploymentRemoval(env.deployRef, false) in pass)
  }

  /** Certificates and deployment recorded for env no longer exist at the providers. */
  predicate InfrastructureGone(c: Config, env: Environment, certificates: set<string>, installed: set<string>, deployments: map<string, Deployment>) {
    && Fqdn(c, env.subdomain) !in certificates
    && (c.removesCertificates ==> Fqdn(c, env.subdomain) !in installed)
    && (env.deployRef != "" ==> env.deployRef !in deployments)
  }

  /** Nothing else is touched: other names' certificates, other references' deployments. */
  predicate OthersKept(c: Config, env: Environment, w: World, w': World) {
    var name := Fqdn(c, env.subdomain);
    && w'.certificates - {name} == w.certificates - {name}
    && w'.installed - {name} == w.installed - {name}
    && w'.deployments - {env.deployRef} == w.deployments - {env.deployRef}
    && (env.deployRef == "" ==> w'.deployments == w.deployments)
  }

  /** The steps on the infrastructure of env, by what came of them. */
  function InfrastructureSteps(c: Config, env: Environment, revoked: bool, removed: bool, destroyed: bool): seq<TeardownStep> {
    [Revocation(Fqdn(c, env.subdomain), revoked)]
    + (if c.removesCertificates then [CertificateRemoval(Fqdn(c, env.subdomain), removed)] else [])
    + (if env.deployRef != "" then [DeploymentRemoval(env.deployRef, destroyed)] else [])
  }

  lemma InfrastructureLog(c: Config, o: Oracle, w: World, env: Environment)
    returns (revoked: bool, removed: bool, destroyed: bool)
    ensures var d := DestroyInfrastructure(c, o, w, env);
      && d.w.steps == w.steps + InfrastructureSteps(c, env, revoked, removed, destroyed)
      && (d.out > 0 <==> !revoked || (c.removesCertificates && !removed) || (env.deployRef != "" && !destroyed))
  {
    var name := Fqdn(c, env.subdomain);
    var v := RevokeCertificate(o, w, name);
    var m := if c.removesCertificates then RemoveCertificate(o, v.w, name) else Ran(v.w, None);
    var d := if env.deployRef != "" then DeployDestroy(o, m.w, env.deployRef) else Ran(m.w, None);
    revoked, removed, destroyed := v.out.None?, m.out.None?, d.out.None?;
    assert d.w.steps == w.steps + InfrastructureSteps(c, env, revoked, removed, destroyed);
  }

  lemma InfrastructureStepsAre(c: Config, env: Environment, revoked: bool, removed: bool, destroyed: bool)
    ensures var pass := InfrastructureSteps(c, env, revoked, removed, destroyed);
      && Attempted(pass, c, env) && InStages(pass)
      && (SomeStepFailed(pass) <==> !revoked || (c.removesCertificates && !removed) || (env.deployRef != "" && !destroyed))
      && (forall x :: !RowGone(pass, x) && !RowStuck(pass, x))
  {
    var pass := InfrastructureSteps(c, env, revoked, removed, destroyed);
    var s1 := Revocation(Fqdn(c, env.subdomain), revoked);
    var s2 := CertificateRemoval(Fqdn(c, env.subdomain), removed);
    var s3 := DeploymentRemoval(env.deployRef, destroyed);
    assert s1 == pass[0] && (c.removesCertificates ==> s2 == pass[1]) && (env.deployRef != "" ==> s3 == pass[|pass| - 1]);
    assert !StepOk(s1) || revoked;
    assert forall s :: s in pass ==> s == s1 || (c.removesCertificates && s == s2) || (env.deployRef != "" && s == s3);
  }

  lemma InfrastructurePass(c: Config, o: Oracle, w: World, env: Environment) returns (pass: seq<TeardownStep>)
    ensures var d := DestroyInfrastructure(c, o, w, env);
      && d.w.steps == w.steps + pass && Attempted(pass, c, env)
      && (d.out > 0 <==> SomeStepFailed(pass))
      && (forall x :: !RowGone(pass, x) && !RowStuck(pass, x))
      && InStages(pass)
  {
    hide DestroyInfrastructure, InfrastructureSteps, Attempted, InStages, SomeStepFailed, RowGone, RowStuck;
    var revoked, removed, destroyed := InfrastructureLog(c, o, w, env);
    InfrastructureStepsAre(c, env, revoked, removed, destroyed);
    pass := InfrastructureSteps(c, env, revoked, removed, destroyed);
  }

  lemma InfrastructureFrame(c: Config, o: Oracle, w: World, env: Environment)
    ensures var d := DestroyInfrastructure(c, o, w, env);
      && OthersKept(c, env, w, d.w) && d.w.notices == w.notices
      && d.w.environments == w.environments && d.w.dnsRows == w.dnsRows && d.w.zone == w.zone
      && (d.out == 0 ==> InfrastructureGone(c, env, d.w.certificates, d.w.installed, d.w.deployments))
  {
  }

  type Zone = map<string, Published>

  /** Which rows a pass leaves: exactly those it could not list, whose record it could not delete, or whose removal did nothing. */
  predicate RowsLeft(rows: seq<DnsRow>, rows': seq<DnsRow>, zone': Zone, id: EnvId, listed: bool, pass: seq<TeardownStep>) {
    && (forall x :: x in rows' ==> x in rows)
    && (forall x :: x in rows ==> (x in rows' <==> (x.envId == id ==> !listed || RowStuck(pass, x.rowId))))
    && (forall x :: x in rows && x !in rows' ==> x.name !in zone')
  }

  /** Only records listed for the environment can disappear from the zone. */
  predicate ZoneFramed(rows: seq<DnsRow>, zone: Zone, zone': Zone, id: EnvId) {
    && (forall n :: n in zone' ==> n in zone && zone'[n] == zone[n])
    && (forall n :: n in zone && n !in zone' ==> HasRow(rows, id, n))
  }

  predicate AllTried(rows: seq<DnsRow>, id: EnvId, pass: seq<TeardownStep>) {
    forall x :: x in rows && x.envId == id ==> Tried(pass, x.rowId)
  }

  ghost predicate Listing(rows: seq<DnsRow>, id: EnvId, listed: bool, records: seq<DnsRow>) {
    forall r :: r in records <==> listed && r in rows && r.envId == id
  }

  lemma Unmentioned(pass: seq<TeardownStep>, records: seq<DnsRow>, rowId: nat)
    requires MentionsOnly(pass, records)
    requires forall r :: r in records ==> r.rowId != rowId
    ensures !RowGone(pass, rowId)
  {
  }

  lemma PassLeaves(w1: World, d: Ran<nat>, id: EnvId, listed: bool, records: seq<DnsRow>, pass: seq<TeardownStep>)
    requires PassOver(w1, d, records, pass)
    requires DistinctIds(w1.dnsRows) && Listing(w1.dnsRows, id, listed, records)
    ensures RowsLeft(w1.dnsRows, d.w.dnsRows, d.w.zone, id, listed, pass)
  {
    forall x | x in w1.dnsRows && x !in records
      ensures !RowGone(pass, x.rowId)
    {
      assert forall r :: r in records ==> r.rowId != x.rowId;
      Unmentioned(pass, records, x.rowId);
    }
    hide RowGone, RowStuck, MentionsOnly, SomeStepFailed, Tried, DistinctIds;
  }

  lemma PassFrames(w1: World, d: Ran<nat>, id: EnvId, listed: bool, records: seq<DnsRow>, pass: seq<TeardownStep>)
    requires PassOver(w1, d, records, pass)
    requires Listing(w1.dnsRows, id, listed, records)
    ensures ZoneFramed(w1.dnsRows, w1.zone, d.w.zone, id)
  {
    hide RowGone, RowStuck, MentionsOnly, SomeStepFailed, Tried;
    forall n | n in w1.zone && n !in d.w.zone
      ensures HasRow(w1.dnsRows, id, n)
    {
      var r :| r in records && r.name == n;
      assert r in w1.dnsRows && r.envId == id;
    }
  }

  lemma MentionsRecords(pass: seq<TeardownStep>, records: seq<DnsRow>)
    requires MentionsOnly(pass, records)
    ensures RecordSteps(pass)
  {
  }

  lemma ListedPass(o: Oracle, w1: World, id: EnvId, listed: bool) returns (pass: seq<TeardownStep>)
    requires DistinctIds(w1.dnsRows)
    ensures var d := DestroyRecords(o, w1, if listed then RowsOf(w1.dnsRows, id) else []);
      && d.w.steps == w1.steps + pass && SameElsewhere(w1, d.w)
      && (d.out > 0 <==> SomeStepFailed(pass))
      && RowsLeft(w1.dnsRows, d.w.dnsRows, d.w.zone, id, listed, pass)
      && ZoneFramed(w1.dnsRows, w1.zone, d.w.zone, id)
      && (listed ==> AllTried(w1.dnsRows, id, pass))
      && RecordSteps(pass)
  {
    var records := if listed then RowsOf(w1.dnsRows, id) else [];
    RowsOfDistinct(w1.dnsRows, id);
    RowsOfContents(w1.dnsRows, id);
    pass := RecordsPass(o, w1, records);
    MentionsRecords(pass, records);
    hide DestroyRecords, RowsOf, RowGone, RowStuck, MentionsOnly, SomeStepFailed, Tried, DistinctIds, RowsLeft, ZoneFramed,
      RecordSteps;
    var d := DestroyRecords(o, w1, records);
    PassLeaves(w1, d, id, listed, records, pass);
    PassFrames(w1, d, id, listed, records, pass);
  }

  predicate Listed(o: Oracle, w: World) {
    o(StoreCall, w.calls).ok
  }

  /** The extra steps of a longer pass do not concern DNS rows. */
  lemma RowsLeftByBoth(rows: seq<DnsRow>, rows': seq<DnsRow>, zone': Zone, id: EnvId, listed: bool, p1: seq<TeardownStep>, p2: seq<TeardownStep>)
    requires RowsLeft(rows, rows', zone', id, listed, p1)
    requires forall x :: !RowStuck(p2, x)
    ensures RowsLeft(rows, rows', zone', id, listed, p1 + p2)
    ensures AllTried(rows, id, p1) ==> AllTried(rows, id, p1 + p2)
  {
    StepsOfBoth(p1, p2);
    hide RowStuck, Tried;
  }

  lemma AllRowsGone(rows: seq<DnsRow>, rows': seq<DnsRow>, zone': Zone, id: EnvId, pass: seq<TeardownStep>)
    requires RowsLeft(rows, rows', zone', id, true, pass) && !SomeStepFailed(pass)
    ensures forall x :: x in rows' ==> x.envId != id
    ensures forall x :: x in rows && x.envId == id ==> x.name !in zone'
  {
    NothingStuck(pass);
  }

  /** What the pass of a teardown that returned out has done. */
  predicate PassDone(c: Config, o: Oracle, w: World, env: Environment, w': World, out: Option<Error>,
                     pass: seq<TeardownStep>) {
    && w'.steps == w.steps + pass
    && InStages(pass) && Attempted(pass, c, env)
    && w'.notices == w.notices + (if out.None? then ["destroyed"] else [])
    && (Listed(o, w) ==> AllTried(w.dnsRows, env.id, pass))
    && RowsLeft(w.dnsRows, w'.dnsRows, w'.zone, env.id, Listed(o, w), pass)
    && ZoneFramed(w.dnsRows, w.zone, w'.zone, env.id)
    && OthersKept(c, env, w, w') && w'.environments - {env.id} == w.environments - {env.id}
    && (out == Some(TeardownIncomplete) <==> !Listed(o, w) || SomeStepFailed(pass))
    && (out == Some(TeardownIncomplete) ==> w'.environments == w.environments)
    && (out != Some(TeardownIncomplete) ==>
          && (forall x :: x in w'.dnsRows ==> x.envId != env.id)
          && (forall x :: x in w.dnsRows && x.envId == env.id ==> x.name !in w'.zone)
          && InfrastructureGone(c, env, w'.certificates, w'.installed, w'.deployments))
    && (out.None? ==> env.id in w'.environments && w'.Current(env.id).status == Destroyed)
  }

  /** Everything a pass does before its last write, with the number of steps that failed. */
  function TornDown(c: Config, o: Oracle, w: World, env: Environment): Ran<nat> {
    var l := ListDnsRecords(o, w, env.id);
    var r := DestroyRecords(o, l.w, if l.out.Ok? then l.out.value else []);
    var i := DestroyInfrastructure(c, o, r.w, env);
    Ran(i.w, r.out + i.out)
  }

  /** What all those steps have done. */
  predicate StepsDone(c: Config, w: World, env: Environment, listed: bool, d: Ran<nat>, pass: seq<TeardownStep>) {
    && d.w.steps == w.steps + pass && d.w.environments == w.environments
    && d.w.notices == w.notices
    && InStages(pass) && Attempted(pass, c, env)
    && (listed ==> AllTried(w.dnsRows, env.id, pass))
    && RowsLeft(w.dnsRows, d.w.dnsRows, d.w.zone, env.id, listed, pass)
    && ZoneFramed(w.dnsRows, w.zone, d.w.zone, env.id)
    && OthersKept(c, env, w, d.w)
    && (d.out > 0 <==> SomeStepFailed(pass))
    && (d.out == 0 ==> InfrastructureGone(c, env, d.w.certificates, d.w.installed, d.w.deployments))
  }

  lemma AllSteps(c: Config, o: Oracle, w: World, env: Environment) returns (pass: seq<TeardownStep>)
    requires DistinctIds(w.dnsRows)
    ensures StepsDone(c, w, env, Listed(o, w), TornDown(c, o, w, env), pass)
  {
    hide DestroyRecords, RowsOf, DestroyInfrastructure, RowsLeft, ZoneFramed, InfrastructureGone, Attempted, AllTried,
      RowGone, RowStuck, SomeStepFailed, DistinctIds, InStages, RecordSteps;
    var listed := Listed(o, w);
    var l := ListDnsRecords(o, w, env.id);
    var p1 := ListedPass(o, l.w, env.id, listed);
    var d := DestroyRecords(o, l.w, if listed then RowsOf(w.dnsRows, env.id) else []);
    var p2 := InfrastructurePass(c, o, d.w, env);
    InfrastructureFrame(c, o, d.w, env);
    var i := DestroyInfrastructure(c, o, d.w, env);
    pass := p1 + p2;
    JoinStages(p1, p2);
    StepsOfBoth(p1, p2);
    AttemptedInBoth(p1, p2, c, env);
    RowsLeftByBoth(w.dnsRows, i.w.dnsRows, i.w.zone, env.id, listed, p1, p2);
    assert i.w.steps == w.steps + pass;
  }

  /** A write touches nothing but its row. */
  lemma WriteTouchesRow(o: Oracle, w: World, env: Environment)
    ensures var u := UpdateEnvironment(o, w, env);
      && u.w.steps == w.steps && u.w.dnsRows == w.dnsRows && u.w.zone == w.zone && u.w.notices == w.notices
      && u.w.certificates == w.certificates && u.w.installed == w.installed && u.w.deployments == w.deployments
      && u.w.environments - {env.id} == w.environments - {env.id}
      && (u.out.Ok? ==> env.id in u.w.environments && u.w.Current(env.id).status == env.status)
      && u.out != Err(TeardownIncomplete)
  {
    hide CanTransition;
  }

  /** The pass ends with the last write if every step succeeded, and that write touches nothing but the row. */
  lemma LastWrite(c: Config, o: Oracle, w: World, env: Environment)
    requires Fresh(w, env) && env.status == Destroying && TornDown(c, o, w, env).w.environments == w.environments
    ensures var d, r := TornDown(c, o, w, env), DoDestroy(c, o, w, env);
      && (r.out == Some(TeardownIncomplete) <==> !Listed(o, w) || d.out > 0)
      && (r.out == Some(TeardownIncomplete) ==> r.w == d.w)
      && r.w.notices == d.w.notices + (if r.out.None? then ["destroyed"] else [])
      && r.w.steps == d.w.steps && r.w.dnsRows == d.w.dnsRows && r.w.zone == d.w.zone
      && r.w.certificates == d.w.certificates && r.w.installed == d.w.installed && r.w.deployments == d.w.deployments
      && r.w.environments - {env.id} == w.environments - {env.id}
      && (r.out.None? ==> env.id in r.w.environments && r.w.Current(env.id).status == Destroyed)
  {
    hide DestroyRecords, RowsOf, DestroyInfrastructure, UpdateEnvironment;
    WriteTouchesRow(o, TornDown(c, o, w, env).w, env.(status := Destroyed));
  }

  /**
   Main result. Every step is tried whatever fails; the rows left are exactly the stuck ones, a row goes only after its
   record; the pass succeeds in removing infrastructure exactly when nothing failed; a failed pass leaves the status alone.
   */
  lemma TeardownPass(c: Config, o: Oracle, w: World, env: Environment) returns (pass: seq<TeardownStep>)
    requires DistinctIds(w.dnsRows)
    requires Fresh(w, env) && env.status == Destroying
    ensures var r := DoDestroy(c, o, w, env); PassDone(c, o, w, env, r.w, r.out, pass)
  {
    hide DestroyRecords, RowsOf, DestroyInfrastructure, RowsLeft, ZoneFramed, InfrastructureGone, Attempted, AllTried,
      SomeStepFailed, DistinctIds, InStages, TornDown, UpdateEnvironment, DoDestroy;
    pass := AllSteps(c, o, w, env);
    var d := TornDown(c, o, w, env);
    LastWrite(c, o, w, env);
    if !SomeStepFailed(pass) && Listed(o, w) {
      AllRowsGone(w.dnsRows, d.w.dnsRows, d.w.zone, env.id, pass);
    }
  }

  /**
   What a completed teardown means for a neighbour: its row and DNS rows are untouched, and its deployment is left
   standing if and only if it goes by another reference.
   */
  lemma NeighbourStands(c: Config, o: Oracle, w: World, env: Environment, other: Environment)
    requires DistinctIds(w.dnsRows) && Fresh(w, env) && env.status == Destroying
    requires Fresh(w, other) && other.id != env.id && other.deployRef != "" && other.deployRef in w.deployments
    requires DoDestroy(c, o, w, env).out.None?
    ensures var w' := DoDestroy(c, o, w, env).w;
      && Fresh(w', other)
      && (forall x :: x in w.dnsRows && x.envId == other.id ==> x in w'.dnsRows)
      && (other.deployRef in w'.deployments <==> other.deployRef != env.deployRef)
      && (other.deployRef in w'.deployments ==> w'.deployments[other.deployRef] == w.deployments[other.deployRef])
  {
    hide DoDestroy, ZoneFramed, Attempted, AllTried, RowGone, RowStuck, SomeStepFailed, DistinctIds;
    var pass := TeardownPass(c, o, w, env);
    var w' := DoDestroy(c, o, w, env).w;
    assert other.id in w'.environments - {env.id} && (w'.environments - {env.id})[other.id] == w.environments[other.id];
    if other.deployRef != env.deployRef {
      assert other.deployRef in w.deployments - {env.deployRef};
      assert (w'.deployments - {env.deployRef})[other.deployRef] == w.deployments[other.deployRef];
    }
  }

  lemma AttemptedInBoth(p1: seq<TeardownStep>, p2: seq<TeardownStep>, c: Config, env: Environment)
    requires Attempted(p2, c, env)
    ensures Attempted(p1 + p2, c, env)
  {
    assert forall s :: s in p2 ==> s in p1 + p2;
  }

  lemma NothingStuck(pass: seq<TeardownStep>)
    requires !SomeStepFailed(pass)
    ensures forall x :: RecordDeletion(x, false) !in pass
    ensures forall x, g :: RowRemoval(x, g, false) !in pass
  {
    forall x ensures RecordDeletion(x, false) !in pass {
      assert !StepOk(RecordDeletion(x, false));
    }
    forall x, g ensures RowRemoval(x, g, false) !in pass {
      assert !StepOk(RowRemoval(x, g, false));
    }
  }
}
