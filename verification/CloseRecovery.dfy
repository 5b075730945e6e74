/**
 Crash recovery of a close delivery. Teardown is tried in full on every pass, so here any failure of any call is allowed
 in the passes before the successful one, the store's own failures included.
 */
module CloseRecovery {
  import opened Wrappers
  import opened Transitions
  import opened Calls
  import opened Lifecycle
  import opened ApplyOutcome
  import opened Teardown
  import opened CrashRecovery

  function RowsFor(rows: set<DnsRow>, id: EnvId): set<DnsRow> {
    set r | r in rows && r.envId == id
  }

  function NamesFor(rows: set<DnsRow>, id: EnvId): set<string> {
    set r | r in rows && r.envId == id :: r.name
  }

  /** The state in which nothing recorded for the row is left. */
  function Gone(c: Config, id: EnvId, v: Visible): Visible
    requires id in v.rows
  {
    var row := v.rows[id];
    var name := Fqdn(c, row.subdomain);
    v.(rows := v.rows[id := row.(status := Destroyed)],
       dnsRows := v.dnsRows - RowsFor(v.dnsRows, id),
       zone := v.zone - NamesFor(v.dnsRows, id),
       certificates := v.certificates - {name},
       installed := if c.removesCertificates then v.installed - {name} else v.installed,
       deployments := if row.deployRef != "" then v.deployments - {row.deployRef} else v.deployments)
  }

  function CloseGoal(c: Config, id: EnvId, v: Visible): Visible {
    if id in v.rows then Gone(c, id, v) else v
  }

  /** Records still in the zone carry the tag their row says. */
  predicate TagsMatch(v: Visible, id: EnvId) {
    forall r :: r in v.dnsRows && r.envId == id && r.name in v.zone ==> v.zone[r.name].tag == r.ownershipTag
  }

  /** The row, if any, is the one its key names and in a known status; DNS rows have distinct keys. */
  ghost predicate Closable(w: World, id: EnvId) {
    && (id in w.environments ==> w.Current(id).id == id && !w.Current(id).status.Unknown?)
    && DistinctIds(w.dnsRows)
    && TagsMatch(See(w), id)
  }

  // ---------- the infrastructure steps, exactly ----------

  predicate Reduced<T>(before: set<T>, after: set<T>, x: T, done: bool) {
    after == before - {x} || (!done && after == before)
  }

  predicate InfrastructureShape(c: Config, env: Environment, v: Visible, v': Visible, done: bool) {
    var name := Fqdn(c, env.subdomain);
    && v'.rows == v.rows && v'.dnsRows == v.dnsRows && v'.nextRow == v.nextRow && v'.zone == v.zone
    && Reduced(v.certificates, v'.certificates, name, done)
    && (if c.removesCertificates then Reduced(v.installed, v'.installed, name, done) else v'.installed == v.installed)
    && (if env.deployRef != ""
        then v'.deployments == v.deployments - {env.deployRef} || (!done && v'.deployments == v.deployments)
        else v'.deployments == v.deployments)
  }

  lemma InfrastructureEffect(c: Config, o: Oracle, w: World, env: Environment)
    ensures var i := DestroyInfrastructure(c, o, w, env);
      && InfrastructureShape(c, env, See(w), See(i.w), i.out == 0)
      && i.w.environments == w.environments && i.w.dnsRows == w.dnsRows
      && (AllOk(o) ==> i.out == 0)
  {
  }

  // ---------- the record loop ----------

  predicate RecordsShape(id: EnvId, v: Visible, v': Visible) {
    && v' == v.(dnsRows := v'.dnsRows, zone := v'.zone)
    && v'.dnsRows <= v.dnsRows
    && (forall r :: r in v.dnsRows && r !in v'.dnsRows ==> r.envId == id && r.name !in v'.zone)
    && (forall n :: n in v'.zone ==> n in v.zone && v'.zone[n] == v.zone[n])
    && (forall n :: n in v.zone && n !in v'.zone ==> n in NamesFor(v.dnsRows, id))
  }

  lemma LeftToShape(w: World, w': World, id: EnvId, listed: bool, pass: seq<TeardownStep>)
    requires SameElsewhere(w, w')
    requires RowsLeft(w.dnsRows, w'.dnsRows, w'.zone, id, listed, pass) && ZoneFramed(w.dnsRows, w.zone, w'.zone, id)
    ensures RecordsShape(id, See(w), See(w'))
  {
    hide RowStuck, CurrentRows;
    forall n | n in w.zone && n !in w'.zone ensures n in NamesFor(RowSet(w.dnsRows), id) {
      var i :| 0 <= i < |w.dnsRows| && w.dnsRows[i].envId == id && w.dnsRows[i].name == n;
      assert w.dnsRows[i] in RowSet(w.dnsRows);
    }
  }

  lemma RecordsEffect(o: Oracle, w: World, id: EnvId, listed: bool) returns (pass: seq<TeardownStep>)
    requires DistinctIds(w.dnsRows)
    ensures var d := DestroyRecords(o, w, if listed then RowsOf(w.dnsRows, id) else []);
      && RecordsShape(id, See(w), See(d.w)) && d.w.environments == w.environments
      && DistinctIds(d.w.dnsRows)
      && (listed && d.out == 0 ==> RowsFor(See(d.w).dnsRows, id) == {})
      && (listed && d.out == 0 ==> forall n :: n in NamesFor(See(w).dnsRows, id) ==> n !in d.w.zone)
  {
    hide DestroyRecords, RowsOf, SomeStepFailed, RowStuck, Tried, AllTried, DistinctIds, RecordsShape, CurrentRows;
    pass := ListedPass(o, w, id, listed);
    var d := DestroyRecords(o, w, if listed then RowsOf(w.dnsRows, id) else []);
    LoopKeepsDistinct(o, w, if listed then RowsOf(w.dnsRows, id) else []);
    LeftToShape(w, d.w, id, listed, pass);
    if listed && d.out == 0 {
      AllRowsGone(w.dnsRows, d.w.dnsRows, d.w.zone, id, pass);
    }
  }

  lemma {:induction false} WithoutRowDistinct(rows: seq<DnsRow>, rowId: nat)
    requires DistinctIds(rows)
    ensures DistinctIds(WithoutRow(rows, rowId))
  {
    if rows != [] {
      var front, last := rows[..|rows| - 1], rows[|rows| - 1];
      WithoutRowDistinct(front, rowId);
      WithoutRowContents(front, rowId);
      assert forall r :: r in front ==> r.rowId != last.rowId;
    }
  }

  lemma {:induction false} LoopKeepsDistinct(o: Oracle, w: World, records: seq<DnsRow>)
    requires DistinctIds(w.dnsRows)
    ensures DistinctIds(DestroyRecords(o, w, records).w.dnsRows)
    decreases |records|
  {
    if records != [] {
      var d := DeleteRecord(o, w, records[0]);
      WithoutRowDistinct(d.w.dnsRows, records[0].rowId);
      hide DistinctIds;
      LoopKeepsDistinct(o, d.w, records[1..]);
      LoopKeepsDistinct(o, DeleteDnsRecord(o, d.w, records[0].rowId).w, records[1..]);
    }
  }

  /** With every call answered and every tag right, no record step fails. */
  lemma {:induction false} LoopSucceeds(o: Oracle, w: World, records: seq<DnsRow>)
    requires AllOk(o)
    requires forall r :: r in records && r.name in w.zone ==> w.zone[r.name].tag == r.ownershipTag
    ensures DestroyRecords(o, w, records).out == 0
    decreases |records|
  {
    if records != [] {
      var d := DeleteRecord(o, w, records[0]);
      assert forall r :: r in records[1..] ==> r in records;
      LoopSucceeds(o, DeleteDnsRecord(o, d.w, records[0].rowId).w, records[1..]);
    }
  }

  // ---------- goals ----------

  lemma RecordsKeepGoal(c: Config, id: EnvId, v: Visible, v': Visible)
    requires id in v.rows && RecordsShape(id, v, v')
    ensures Gone(c, id, v') == Gone(c, id, v)
    ensures TagsMatch(v, id) ==> TagsMatch(v', id)
  {
    var z, z' := v.zone - NamesFor(v.dnsRows, id), v'.zone - NamesFor(v'.dnsRows, id);
    forall r | r in v.dnsRows && r.envId == id ensures r.name !in z' {
      if r in v'.dnsRows { assert r.name in NamesFor(v'.dnsRows, id); }
    }
    assert z == z';
    assert v'.dnsRows - RowsFor(v'.dnsRows, id) == v.dnsRows - RowsFor(v.dnsRows, id);
  }

  lemma InfrastructureKeepsGoal(c: Config, env: Environment, v: Visible, v': Visible, done: bool)
    requires env.id in v.rows && v.rows[env.id].subdomain == env.subdomain && v.rows[env.id].deployRef == env.deployRef
    requires InfrastructureShape(c, env, v, v', done)
    ensures Gone(c, env.id, v') == Gone(c, env.id, v)
  {
    var name := Fqdn(c, env.subdomain);
    assert v.certificates - {name} - {name} == v.certificates - {name};
    assert v.installed - {name} - {name} == v.installed - {name};
    assert v.deployments - {env.deployRef} - {env.deployRef} == v.deployments - {env.deployRef};
  }

  lemma StatusKeepsGoal(c: Config, id: EnvId, v: Visible, s: Status)
    requires id in v.rows
    ensures Gone(c, id, v.(rows := v.rows[id := v.rows[id].(status := s)])) == Gone(c, id, v)
  {
    var row := v.rows[id];
    assert v.rows[id := row.(status := s)][id := row.(status := Destroyed)] == v.rows[id := row.(status := Destroyed)];
  }

  /** After the records and the infrastructure are really gone, only the status separates the state from its goal. */
  lemma OnlyStatusMissing(c: Config, env: Environment, v: Visible, v1: Visible, v2: Visible)
    requires env.id in v.rows && v.rows[env.id] == Untimed(env)
    requires RecordsShape(env.id, v, v1) && InfrastructureShape(c, env, v1, v2, true)
    requires RowsFor(v1.dnsRows, env.id) == {} && (forall n :: n in NamesFor(v.dnsRows, env.id) ==> n !in v1.zone)
    ensures v2.(rows := v2.rows[env.id := Untimed(env).(status := Destroyed)]) == Gone(c, env.id, v)
  {
    assert v1.zone == v.zone - NamesFor(v.dnsRows, env.id);
    assert forall r :: r in RowsFor(v1.dnsRows, env.id) <==> r in v1.dnsRows && r.envId == env.id;
    assert v1.dnsRows == v.dnsRows - RowsFor(v.dnsRows, env.id);
  }

  // ---------- passes ----------

  /** What any part of a close does: the goal stays, and the state stays closable. */
  ghost predicate Closing(c: Config, id: EnvId, w: World, w': World) {
    && id in w.environments && id in w'.environments
    && Gone(c, id, See(w')) == Gone(c, id, See(w))
    && (Closable(w, id) ==> Closable(w', id))
  }

  lemma ClosingTransitive(c: Config, id: EnvId, w: World, w': World, w'': World)
    requires Closing(c, id, w, w') && Closing(c, id, w', w'')
    ensures Closing(c, id, w, w'')
  {
    hide Gone, Closable, See;
  }

  lemma ClosingSame(c: Config, id: EnvId, w: World, w': World)
    requires id in w.environments && w'.environments == w.environments && w'.dnsRows == w.dnsRows && See(w') == See(w)
    ensures Closing(c, id, w, w')
  {
    hide Gone, TagsMatch, DistinctIds, See;
    assert id in See(w).rows by { InTable(w); }
  }

  lemma StatusWrite(c: Config, o: Oracle, w: World, env: Environment, s: Status)
    requires Fresh(w, env) && !s.Unknown?
    ensures var u := UpdateEnvironment(o, w, env.(status := s));
      && Closing(c, env.id, w, u.w) && env.id in u.w.environments
      && (u.out.Ok? ==> Fresh(u.w, u.out.value) && Untimed(u.out.value) == Untimed(env).(status := s))
  {
    var row := env.(status := s);
    SeeWrite(o, w, row);
    SeenRow(w, env);
    StatusKeepsGoal(c, env.id, See(w), s);
    hide Gone, DistinctIds, CurrentRows, RowSet;
  }

  lemma TeardownParts(c: Config, o: Oracle, w: World, env: Environment)
    requires Closable(w, env.id) && Fresh(w, env)
    ensures var l := ListDnsRecords(o, w, env.id);
      var d := DestroyRecords(o, l.w, if l.out.Ok? then l.out.value else []);
      var i := DestroyInfrastructure(c, o, d.w, env);
      && Closing(c, env.id, w, i.w) && Fresh(i.w, env)
      && (AllOk(o) ==> d.out == 0 && i.out == 0)
      && (l.out.Ok? && d.out == 0 && i.out == 0 ==>
            See(i.w).(rows := See(i.w).rows[env.id := Untimed(env).(status := Destroyed)]) == Gone(c, env.id, See(w)))
  {
    hide DestroyRecords, RowsOf, DestroyInfrastructure, RecordsShape, InfrastructureShape, Gone, CurrentRows, RowSet, DistinctIds,
      NamesFor, RowsFor;
    var l := ListDnsRecords(o, w, env.id);
    var records := if l.out.Ok? then l.out.value else [];
    var d := DestroyRecords(o, l.w, records);
    var i := DestroyInfrastructure(c, o, d.w, env);
    assert See(l.w) == See(w);
    var _ := RecordsEffect(o, l.w, env.id, l.out.Ok?);
    InfrastructureEffect(c, o, d.w, env);
    SeenRow(w, env);
    RecordsKeepGoal(c, env.id, See(l.w), See(d.w));
    assert See(d.w).rows == See(w).rows;
    InfrastructureKeepsGoal(c, env, See(d.w), See(i.w), i.out == 0);
    ShapesKeepTags(c, env, See(l.w), See(d.w), See(i.w), i.out == 0);
    if AllOk(o) { ListedSucceed(o, l.w, env.id); }
    if l.out.Ok? && d.out == 0 && i.out == 0 {
      OnlyStatusMissing(c, env, See(l.w), See(d.w), See(i.w));
    }
  }

  lemma ShapesKeepTags(c: Config, env: Environment, v: Visible, v1: Visible, v2: Visible, done: bool)
    requires RecordsShape(env.id, v, v1) && InfrastructureShape(c, env, v1, v2, done)
    ensures v1.rows == v.rows && v2.rows == v.rows
    ensures TagsMatch(v, env.id) ==> TagsMatch(v2, env.id)
  {
  }

  lemma ListedSucceed(o: Oracle, w: World, id: EnvId)
    requires AllOk(o) && TagsMatch(See(w), id)
    ensures DestroyRecords(o, w, RowsOf(w.dnsRows, id)).out == 0
  {
    RowsOfContents(w.dnsRows, id);
    assert forall r :: r in RowsOf(w.dnsRows, id) ==> r in RowSet(w.dnsRows);
    LoopSucceeds(o, w, RowsOf(w.dnsRows, id));
  }

  lemma TeardownKeepsGoal(c: Config, o: Oracle, w: World, env: Environment)
    requires Closable(w, env.id) && Fresh(w, env) && env.status == Destroying
    ensures var r := DoDestroy(c, o, w, env);
      && Closing(c, env.id, w, r.w)
      && (AllOk(o) ==> r.out.None? && See(r.w) == Gone(c, env.id, See(w)))
  {
    hide DestroyRecords, RowsOf, DestroyInfrastructure, UpdateEnvironment, Gone, Closable, CurrentRows, RowSet, Closing;
    TeardownParts(c, o, w, env);
    var l := ListDnsRecords(o, w, env.id);
    var d := DestroyRecords(o, l.w, if l.out.Ok? then l.out.value else []);
    var i := DestroyInfrastructure(c, o, d.w, env);
    StatusWrite(c, o, i.w, env, Destroyed);
    var u := UpdateEnvironment(o, i.w, env.(status := Destroyed));
    ClosingTransitive(c, env.id, w, i.w, u.w);
    ClosingSame(c, env.id, u.w, Notify(o, u.w, "destroyed"));
    ClosingTransitive(c, env.id, w, u.w, Notify(o, u.w, "destroyed"));
    if AllOk(o) { UpdateAttains(o, i.w, env.(status := Destroyed)); }
  }

  /** The last write of a teardown lands exactly if the row was marked first; else everything is gone but the status. */
  lemma UnmarkedWrite(o: Oracle, w: World, env: Environment)
    requires AllOk(o) && Fresh(w, env)
    ensures var u := UpdateEnvironment(o, w, env.(status := Destroyed));
      if env.status in {Destroying, Destroyed} then u.out.Ok?
      else u.out == Err(IllegalTransition) && u.w.environments == w.environments
  {
  }

  /**
   Replaying a destroy that was requested but never marked: with every call succeeding the infrastructure is torn down,
   but the pass ends if and only if the row says destroying or destroyed; any other status is refused, at every replay.
   */
  lemma UnmarkedDestroyIsRefused(c: Config, o: Oracle, w: World, env: Environment)
    requires AllOk(o) && Closable(w, env.id) && Fresh(w, env)
    ensures var r := DoDestroy(c, o, w, env);
      && (r.out.None? <==> env.status in {Destroying, Destroyed})
      && (r.out.Some? ==> r.out == Some(IllegalTransition) && Fresh(r.w, env))
  {
    hide DestroyRecords, RowsOf, DestroyInfrastructure, UpdateEnvironment, Gone, Closable, CurrentRows, RowSet, Closing;
    TeardownParts(c, o, w, env);
    var l := ListDnsRecords(o, w, env.id);
    var d := DestroyRecords(o, l.w, if l.out.Ok? then l.out.value else []);
    var i := DestroyInfrastructure(c, o, d.w, env);
    UnmarkedWrite(o, i.w, env);
  }

  lemma CloseKeepsGoal(c: Config, o: Oracle, w: World, id: EnvId)
    requires Closable(w, id)
    ensures var r := CloseDelivery(c, o, w, id);
      && CloseGoal(c, id, See(r.w)) == CloseGoal(c, id, See(w))
      && Closable(r.w, id)
      && (AllOk(o) ==> r.out.None? && See(r.w) == CloseGoal(c, id, See(w)))
  {
    hide DoDestroy, UpdateEnvironment, Gone, CurrentRows, RowSet, TagsMatch, DistinctIds;
    var g := GetEnvironment(o, w, id);
    InTable(w);
    assert See(g.w) == See(w);
    if g.out.Ok? {
      ClosingSame(c, id, w, g.w);
      DestroyKeepsGoal(c, o, g.w, g.out.value);
      var r := DestroyWithoutEvent(c, o, g.w, g.out.value);
      InTable(r.w);
      hide DestroyWithoutEvent;
      ClosingTransitive(c, id, w, g.w, r.w);
    }
  }

  lemma DestroyKeepsGoal(c: Config, o: Oracle, w: World, env: Environment)
    requires Closable(w, env.id) && Fresh(w, env)
    ensures var r := DestroyWithoutEvent(c, o, w, env);
      && Closing(c, env.id, w, r.w)
      && (AllOk(o) ==> r.out.None? && See(r.w) == Gone(c, env.id, See(w)))
  {
    hide DoDestroy, UpdateEnvironment, Gone, CurrentRows, RowSet, TagsMatch, DistinctIds;
    if env.status == Destroying {
      TeardownKeepsGoal(c, o, w, env);
    } else {
      EntryPoints(env.status);
      StatusWrite(c, o, w, env, Destroying);
      var u := UpdateEnvironment(o, w, env.(status := Destroying));
      if AllOk(o) { UpdateAttains(o, w, env.(status := Destroying)); }
      if u.out.Ok? {
        TeardownKeepsGoal(c, o, u.w, u.out.value);
        ClosingTransitive(c, env.id, w, u.w, DoDestroy(c, o, u.w, u.out.value).w);
      }
    }
  }

  // ---------- repeated failures ----------

  /** The state after one pass per oracle. */
  function FailedCloses(c: Config, w: World, id: EnvId, passes: seq<Oracle>): World {
    if passes == [] then w
    else CloseDelivery(c, passes[|passes| - 1], FailedCloses(c, w, id, passes[..|passes| - 1]), id).w
  }

  lemma {:induction false} FailuresKeepCloseGoal(c: Config, w: World, id: EnvId, passes: seq<Oracle>)
    requires Closable(w, id)
    ensures var w' := FailedCloses(c, w, id, passes);
      CloseGoal(c, id, See(w')) == CloseGoal(c, id, See(w)) && Closable(w', id)
  {
    hide CloseDelivery, CloseGoal, See, Closable;
    if passes != [] {
      var before := passes[..|passes| - 1];
      FailuresKeepCloseGoal(c, w, id, before);
      CloseKeepsGoal(c, passes[|passes| - 1], FailedCloses(c, w, id, before), id);
    }
  }

  /**
   Main result for a close: after any number of passes that crash or fail anywhere, one pass with every call succeeding
   ends where one undisturbed pass ends.
   */
  lemma CloseSurvivesFailures(c: Config, w: World, id: EnvId, passes: seq<Oracle>, replay: Oracle, clean: Oracle)
    requires Closable(w, id) && AllOk(replay) && AllOk(clean)
    ensures var undisturbed := CloseDelivery(c, clean, w, id);
      var recovered := CloseDelivery(c, replay, FailedCloses(c, w, id, passes), id);
      undisturbed.out.None? && recovered.out.None? && See(recovered.w) == See(undisturbed.w)
  {
    hide CloseDelivery, CloseGoal, See, Closable, AllOk, FailedCloses;
    FailuresKeepCloseGoal(c, w, id, passes);
    CloseKeepsGoal(c, replay, FailedCloses(c, w, id, passes), id);
    CloseKeepsGoal(c, clean, w, id);
  }
}
