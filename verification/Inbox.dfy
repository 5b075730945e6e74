/**
 The inbox protocol: pollers and pool workers race for events through the claim, carrying snapshots of any age, over a
 clock that only advances; processes crash, statements fail, outcome writes get lost.
 */
module Inbox {
  import opened Wrappers
  import opened EventTable
  import opened Retry

  // A worker between a successful claim and its outcome write.
  datatype Held = Held(ev: Event, lease: int)

  datatype State = State(
    events: Table, now: int,
    holders: map<nat, Held>,       // workers not listed are idle
    ids: set<string>,              // every id ever stored; random ids do not repeat
    touched: map<string, int>)     // time of the last creation, claim or retry write

  datatype Step =
    | Tick(to: int)
    | Deliver(ev: Event, read: int)
    | Record(ev: Event)
    | Claim(worker: nat, snapshot: Event, claimAt: int, leaseFrom: int, heard: bool)
    | Report(worker: nat, outcome: Outcome, at: int, draw: nat, cause: string)
    | ReportLost(worker: nat)
    | ApplyDirectly(snapshot: Event, outcome: Outcome, at: int, draw: nat, cause: string)
    | Prune(before: int, victims: set<string>)
    | Crash

  /** A snapshot is a row the worker once read: the columns that never change still agree with the table. */
  predicate SnapshotOf(t: Table, ev: Event) {
    ev.id in t ==> t[ev.id].kind == ev.kind
  }

  predicate Enabled(s: State, step: Step) {
    match step
    case Tick(to) => s.now <= to
    case Deliver(ev, read) =>
      && read <= s.now && ev.id !in s.ids && ev.kind == WebhookReceived && ev.dedupeKey != ""
      && ev.nextAttemptAt == Some(read) && ev.attempts == 0 && ev.processedAt.None?
    case Record(ev) =>
      && ev.id !in s.ids && ev.kind != WebhookReceived && ev.dedupeKey == ""
      && ev.nextAttemptAt.None? && ev.attempts == 0 && ev.processedAt.None?
    case Claim(w, ev, claimAt, leaseFrom, _) =>
      w !in s.holders && SnapshotOf(s.events, ev) && claimAt <= leaseFrom <= s.now
    case Report(w, _, at, _, _) => w in s.holders && at <= s.now
    case ReportLost(w) => w in s.holders
    // API calls finish their own events, which are never webhook events, without claiming them.
    case ApplyDirectly(ev, _, at, _, _) => SnapshotOf(s.events, ev) && ev.kind != WebhookReceived && at <= s.now
    case Prune(before, victims) => victims <= Prunable(s.events, before)
    case Crash => true
  }

  function Insert(s: State, ev: Event): State {
    var r := CreateEvent(s.events, ev, s.now);
    if r.Err? then s
    else s.(events := r.value, ids := s.ids + {ev.id}, touched := s.touched[ev.id := s.now])
  }

  function Touch(s: State, t: Table, id: string): State {
    s.(events := t, touched := if id in s.touched then s.touched[id := s.now] else s.touched)
  }

  function Step1(s: State, step: Step): State
    requires Enabled(s, step)
  {
    match step
    case Tick(to) => s.(now := to)
    case Deliver(ev, _) => Insert(s, ev)
    case Record(ev) => Insert(s, ev)
    case Claim(w, ev, claimAt, leaseFrom, heard) =>
      var lease := leaseFrom + LeaseTime;
      var (t, claimed) := ClaimEvent(s.events, ev.id, claimAt, lease);
      if !claimed then s
      else
        // An error answer to a claim that took effect leaves the lease in place and the worker idle.
        var s1 := Touch(s, t, ev.id);
        if heard then s1.(holders := s.holders[w := Held(ev, lease)]) else s1
    case Report(w, outcome, at, draw, cause) =>
      var h := s.holders[w];
      Touch(s, Finish(s.events, h.ev, outcome, at, draw, cause), h.ev.id).(holders := s.holders - {w})
    case ReportLost(w) => s.(holders := s.holders - {w})
    case ApplyDirectly(ev, outcome, at, draw, cause) =>
      Touch(s, Finish(s.events, ev, outcome, at, draw, cause), ev.id)
    case Prune(_, victims) => s.(events := s.events - victims)
    case Crash => s.(holders := map[])
  }

  ghost predicate IsRun(states: seq<State>, steps: seq<Step>) {
    && |states| == |steps| + 1
    && forall i {:trigger steps[i]} :: 0 <= i < |steps| ==>
         Enabled(states[i], steps[i]) && states[i + 1] == Step1(states[i], steps[i])
  }

  const Empty: State := State(map[], 0, map[], {}, map[])

  // ---------- what a write does to one row ----------

  /** Every statement but creation and pruning rewrites at most one row, keeping its identity, and never un-retires it. */
  predicate RowStep(t: Table, t': Table, id: string) {
    && t'.Keys == t.Keys
    && (forall other :: other in t && other != id ==> t'[other] == t[other])
    && (id in t ==>
          && t'[id].kind == t[id].kind && t'[id].dedupeKey == t[id].dedupeKey && t'[id].createdAt == t[id].createdAt
          && (Retired(t[id]) ==> Retired(t'[id]) && t'[id].attempts == t[id].attempts))
  }

  /** If the row is still pending and changed, it is due by the given time. */
  predicate DueBy(t: Table, t': Table, id: string, time: int) {
    id in t && id in t' && !Retired(t'[id]) && t'[id].nextAttemptAt.Some? ==>
      t'[id].nextAttemptAt.value <= time || t'[id] == t[id]
  }

  lemma ClaimRow(t: Table, id: string, now: int, lease: int)
    ensures var t' := ClaimEvent(t, id, now, lease).0;
      RowStep(t, t', id) && DueBy(t, t', id, lease)
  {
  }

  lemma FinishRow(t: Table, ev: Event, outcome: Outcome, at: int, draw: nat, cause: string)
    ensures var t' := Finish(t, ev, outcome, at, draw, cause);
      RowStep(t, t', ev.id) && DueBy(t, t', ev.id, at + LeaseTime)
  {
    DelayBounds(ev.attempts + 1, draw);
    hide Delay;
  }

  // ---------- what every run keeps ----------

  predicate SameDelivery(e: Event, f: Event) {
    e.dedupeKey != "" && e.kind == f.kind && e.dedupeKey == f.dedupeKey
  }

  /** Every pending row will be due within ten minutes of its last write; keys and deliveries are unique. */
  ghost predicate TableOk(s: State) {
    && s.events.Keys <= s.ids && s.events.Keys <= s.touched.Keys
    && (forall id :: id in s.events ==> s.touched[id] <= s.now)
    && (forall id :: id in s.events && !Retired(s.events[id]) && s.events[id].nextAttemptAt.Some? ==>
          s.events[id].nextAttemptAt.value <= s.touched[id] + LeaseTime)
    && (forall id, other :: id in s.events && other in s.events && id != other ==>
          !SameDelivery(s.events[id], s.events[other]))
  }

  lemma TouchKeepsTable(s: State, t: Table, id: string, time: int)
    requires TableOk(s) && RowStep(s.events, t, id) && DueBy(s.events, t, id, time) && time <= s.now + LeaseTime
    ensures TableOk(Touch(s, t, id))
  {
  }

  lemma InsertKeepsTable(s: State, ev: Event)
    requires TableOk(s) && (ev.nextAttemptAt.Some? ==> ev.nextAttemptAt.value <= s.now)
    ensures TableOk(Insert(s, ev))
  {
  }

  /** Time passing, rows leaving, holders changing. */
  lemma QuietKeepsTable(s: State, s': State)
    requires TableOk(s) && s.now <= s'.now && s'.ids == s.ids && s'.touched == s.touched
    requires forall id :: id in s'.events ==> id in s.events && s'.events[id] == s.events[id]
    ensures TableOk(s')
  {
  }

  lemma TableIgnoresHolders(s: State, s': State)
    requires TableOk(s) && s' == s.(holders := s'.holders)
    ensures TableOk(s')
  {
  }

  lemma StepKeepsTable(s: State, step: Step)
    requires TableOk(s) && Enabled(s, step)
    ensures TableOk(Step1(s, step))
  {
    hide Finish, ClaimEvent, RowStep, DueBy, TableOk;
    match step
    case Claim(w, ev, claimAt, leaseFrom, _) =>
      var lease := leaseFrom + LeaseTime;
      var (t, claimed) := ClaimEvent(s.events, ev.id, claimAt, lease);
      ClaimRow(s.events, ev.id, claimAt, lease);
      TouchKeepsTable(s, t, ev.id, lease);
      if claimed { TableIgnoresHolders(Touch(s, t, ev.id), Step1(s, step)); }
    case Report(w, outcome, at, draw, cause) =>
      var h := s.holders[w];
      var t := Finish(s.events, h.ev, outcome, at, draw, cause);
      FinishRow(s.events, h.ev, outcome, at, draw, cause);
      TouchKeepsTable(s, t, h.ev.id, at + LeaseTime);
      TableIgnoresHolders(Touch(s, t, h.ev.id), Step1(s, step));
    case ApplyDirectly(ev, outcome, at, draw, cause) =>
      FinishRow(s.events, ev, outcome, at, draw, cause);
      TouchKeepsTable(s, Finish(s.events, ev, outcome, at, draw, cause), ev.id, at + LeaseTime);
    case Deliver(ev, _) => InsertKeepsTable(s, ev);
    case Record(ev) => InsertKeepsTable(s, ev);
    case Tick(_) => QuietKeepsTable(s, Step1(s, step));
    case Prune(_, _) => QuietKeepsTable(s, Step1(s, step));
    case ReportLost(_) => QuietKeepsTable(s, Step1(s, step));
    case Crash => QuietKeepsTable(s, Step1(s, step));
  }

  lemma {:induction false} RunKeepsTable(states: seq<State>, steps: seq<Step>, n: nat)
    requires IsRun(states, steps) && states[0] == Empty && n < |states|
    ensures TableOk(states[n])
  {
    if n > 0 {
      RunKeepsTable(states, steps, n - 1);
      assert Enabled(states[n - 1], steps[n - 1]) && states[n - 1 + 1] == Step1(states[n - 1], steps[n - 1]);
      StepKeepsTable(states[n - 1], steps[n - 1]);
    }
  }

  /** Nothing pending is lost: whatever crashed, ten minutes after its last write a pending event is due again. */
  lemma PendingComesDue(states: seq<State>, steps: seq<Step>, n: nat, id: string)
    requires IsRun(states, steps) && states[0] == Empty && n < |states|
    requires id in states[n].events && !Retired(states[n].events[id])
    ensures id in states[n].touched && states[n].touched[id] <= states[n].now
    ensures states[n].now >= states[n].touched[id] + LeaseTime ==> Due(states[n].events[id], states[n].now)
  {
    RunKeepsTable(states, steps, n);
  }

  /** One stored row per webhook delivery, at any time. */
  lemma OneRowPerDelivery(states: seq<State>, steps: seq<Step>, n: nat, id: string, other: string)
    requires IsRun(states, steps) && states[0] == Empty && n < |states|
    requires id in states[n].events && other in states[n].events
    requires SameDelivery(states[n].events[id], states[n].events[other])
    ensures id == other
  {
    RunKeepsTable(states, steps, n);
  }

  // ---------- retirement ----------

  /** A retired row stays retired with its attempts fixed, or is pruned; a pending row is never pruned. */
  predicate Absorbed(s: State, s': State, id: string) {
    && (id in s.events && Retired(s.events[id]) ==>
          (id in s'.events ==> Retired(s'.events[id]) && s'.events[id].attempts == s.events[id].attempts))
    && (id in s.events && !Retired(s.events[id]) ==> id in s'.events)
    && (id in s.ids && id !in s.events ==> id !in s'.events)
    && s.ids <= s'.ids
  }

  lemma StepAbsorbs(s: State, step: Step, id: string)
    requires TableOk(s) && Enabled(s, step)
    ensures Absorbed(s, Step1(s, step), id)
  {
    hide Finish;
    match step
    case Claim(w, ev, claimAt, leaseFrom, _) => ClaimRow(s.events, ev.id, claimAt, leaseFrom + LeaseTime);
    case Report(w, outcome, at, draw, cause) => FinishRow(s.events, s.holders[w].ev, outcome, at, draw, cause);
    case ApplyDirectly(ev, outcome, at, draw, cause) => FinishRow(s.events, ev, outcome, at, draw, cause);
    case _ =>
  }

  /** Main result: retirement is absorbing over whole runs. */
  lemma {:induction false} RetirementAbsorbs(states: seq<State>, steps: seq<Step>, i: nat, j: nat, id: string)
    requires IsRun(states, steps) && states[0] == Empty && i <= j < |states|
    requires id in states[i].events && Retired(states[i].events[id])
    ensures id in states[j].ids
    ensures id in states[j].events ==>
      && Retired(states[j].events[id]) && states[j].events[id].attempts == states[i].events[id].attempts
      && (forall now :: !Due(states[j].events[id], now))
    ensures forall now, lease :: !ClaimEvent(states[j].events, id, now, lease).1
    decreases j
  {
    RunKeepsTable(states, steps, j);
    if i < j {
      RetirementAbsorbs(states, steps, i, j - 1, id);
      RunKeepsTable(states, steps, j - 1);
      assert Enabled(states[j - 1], steps[j - 1]) && states[j - 1 + 1] == Step1(states[j - 1], steps[j - 1]);
      StepAbsorbs(states[j - 1], steps[j - 1], id);
    }
  }

  /** Once stored, an event stays in the table until it is retired. */
  lemma {:induction false} PendingIsKept(states: seq<State>, steps: seq<Step>, i: nat, j: nat, id: string)
    requires IsRun(states, steps) && states[0] == Empty && i <= j < |states|
    requires id in states[i].events
    requires forall m :: i <= m < j && id in states[m].events ==> !Retired(states[m].events[id])
    ensures id in states[j].events
    decreases j
  {
    if i < j {
      PendingIsKept(states, steps, i, j - 1, id);
      RunKeepsTable(states, steps, j - 1);
      assert Enabled(states[j - 1], steps[j - 1]) && states[j - 1 + 1] == Step1(states[j - 1], steps[j - 1]);
      StepAbsorbs(states[j - 1], steps[j - 1], id);
    }
  }

  // ---------- lease exclusion ----------

  /** The worker is between claiming a webhook event and reporting on it. */
  predicate Holds(s: State, w: nat) {
    w in s.holders && s.holders[w].ev.kind == WebhookReceived
  }

  /** Every holder of a webhook event still has time on its lease: it reports before the lease ends. */
  predicate OnTime(s: State) {
    forall w :: w in s.holders && Holds(s, w) ==> s.now < s.holders[w].lease
  }

  predicate Share(s: State, w: nat, v: nat) {
    Holds(s, w) && Holds(s, v) && s.holders[w].ev.id == s.holders[v].ev.id
  }

  /** No two workers hold the same webhook event. */
  ghost predicate Exclusive(s: State) {
    forall w, v :: Share(s, w, v) ==> w == v
  }

  /** Holders of webhook events hold live leases on pending rows, and no two hold the same event. */
  ghost predicate Leased(s: State) {
    && (forall w :: w in s.holders ==> s.holders[w].ev.id in s.ids && SnapshotOf(s.events, s.holders[w].ev))
    && (forall w :: Holds(s, w) ==>
          var h := s.holders[w];
          && h.ev.id in s.events && s.events[h.ev.id].kind == WebhookReceived
          && !Retired(s.events[h.ev.id]) && s.events[h.ev.id].nextAttemptAt == Some(h.lease))
    && (forall w, w' :: Holds(s, w) && Holds(s, w') && w != w' ==> s.holders[w].ev.id != s.holders[w'].ev.id)
  }

  lemma ClaimKeepsLeases(s: State, step: Step)
    requires TableOk(s) && Leased(s) && OnTime(s) && step.Claim? && Enabled(s, step)
    ensures Leased(Step1(s, step))
  {
  }

  /** The reporting worker leaves, and only its own event's row changed. */
  lemma ReportKeepsLeases(s: State, w: nat, t: Table)
    requires Leased(s) && w in s.holders && RowStep(s.events, t, s.holders[w].ev.id)
    ensures Leased(Touch(s, t, s.holders[w].ev.id).(holders := s.holders - {w}))
  {
    var h := s.holders[w];
    assert forall v :: Holds(s, v) && v != w ==> s.holders[v].ev.id != h.ev.id;
  }

  /** A write to a row of another kind. */
  lemma OtherKindKeepsLeases(s: State, t: Table, ev: Event)
    requires Leased(s) && SnapshotOf(s.events, ev) && ev.kind != WebhookReceived
    requires RowStep(s.events, t, ev.id)
    ensures Leased(Touch(s, t, ev.id))
  {
    assert forall w :: Holds(s, w) ==> s.holders[w].ev.id != ev.id;
  }

  /** Dropping holders and retired rows. */
  lemma LossKeepsLeases(s: State, s': State)
    requires Leased(s) && s'.ids == s.ids
    requires forall id :: id in s'.events ==> id in s.events && s'.events[id] == s.events[id]
    requires s'.holders.Keys <= s.holders.Keys && (forall w :: w in s'.holders ==> s'.holders[w] == s.holders[w])
    requires forall id :: id in s.events && !Retired(s.events[id]) ==> id in s'.events && s'.events[id] == s.events[id]
    ensures Leased(s')
  {
    assert forall w :: Holds(s', w) ==> Holds(s, w);
  }

  lemma StepKeepsLeases(s: State, step: Step)
    requires TableOk(s) && Leased(s) && OnTime(s) && Enabled(s, step)
    ensures Leased(Step1(s, step))
  {
    hide Finish, ClaimEvent, Leased, TableOk, RowStep, OnTime;
    match step
    case Claim(_, _, _, _, _) => ClaimKeepsLeases(s, step);
    case Report(w, outcome, at, draw, cause) =>
      var h := s.holders[w];
      FinishRow(s.events, h.ev, outcome, at, draw, cause);
      ReportKeepsLeases(s, w, Finish(s.events, h.ev, outcome, at, draw, cause));
    case ApplyDirectly(ev, outcome, at, draw, cause) =>
      FinishRow(s.events, ev, outcome, at, draw, cause);
      OtherKindKeepsLeases(s, Finish(s.events, ev, outcome, at, draw, cause), ev);
    case Prune(before, victims) =>
      assert forall id :: id in victims ==> id in Prunable(s.events, before);
      LossKeepsLeases(s, Step1(s, step));
    case Deliver(ev, _) => InsertKeepsLeases(s, ev);
    case Record(ev) => InsertKeepsLeases(s, ev);
    case Tick(_) => LossKeepsLeases(s, Step1(s, step));
    case ReportLost(_) => LossKeepsLeases(s, Step1(s, step));
    case Crash => LossKeepsLeases(s, Step1(s, step));
  }

  lemma InsertKeepsLeases(s: State, ev: Event)
    requires Leased(s) && ev.id !in s.ids
    ensures Leased(Insert(s, ev))
  {
  }

  /**
   Main result: in any interleaving, with snapshots of any age, lost replies, prunes and crashes, no two workers are
   between claiming the same webhook event and reporting on it, as long as every holder reports within its lease.
   */
  lemma {:induction false} LeaseExclusion(states: seq<State>, steps: seq<Step>, n: nat)
    requires IsRun(states, steps) && states[0] == Empty && n < |states|
    requires forall m :: 0 <= m < n ==> OnTime(states[m])
    ensures Leased(states[n]) && Exclusive(states[n])
  {
    if n > 0 {
      LeaseExclusion(states, steps, n - 1);
      RunKeepsTable(states, steps, n - 1);
      assert Enabled(states[n - 1], steps[n - 1]) && states[n - 1 + 1] == Step1(states[n - 1], steps[n - 1]);
      StepKeepsLeases(states[n - 1], steps[n - 1]);
    }
  }

  // ---------- exactly when exclusion can fail ----------

  /** The claim of another worker that carries the same snapshot. */
  function Join(s: State, w: nat, v: nat): Step
    requires w in s.holders
  {
    Claim(v, s.holders[w].ev, s.now, s.now, true)
  }

  /** Whoever holds a webhook event past its lease can be joined on it by any idle worker. */
  lemma LateHolderCanBeJoined(s: State, w: nat, v: nat)
    requires Leased(s) && Holds(s, w) && s.now >= s.holders[w].lease && v !in s.holders
    ensures Enabled(s, Join(s, w, v)) && Share(Step1(s, Join(s, w, v)), w, v)
  {
  }

  lemma {:induction false} SomeoneIsIdle(busy: set<nat>) returns (v: nat)
    ensures v !in busy && forall w :: w in busy ==> w < v
  {
    if busy == {} {
      v := 0;
    } else {
      var w :| w in busy;
      var u := SomeoneIsIdle(busy - {w});
      v := if w < u then u else w + 1;
      assert busy == busy - {w} + {w};
    }
  }

  /**
   Main result: in every state reached with exclusion intact and nobody late before, no claim whatever can make two
   workers hold one webhook event if and only if every holder of a webhook event is still within its lease.
   */
  lemma ExclusionHangsOnLeases(states: seq<State>, steps: seq<Step>, n: nat)
    requires IsRun(states, steps) && states[0] == Empty && n < |states|
    requires forall m :: 0 <= m < n ==> OnTime(states[m])
    ensures var s := states[n];
      (forall step: Step :: step.Claim? && Enabled(s, step) ==> Exclusive(Step1(s, step))) <==> OnTime(s)
  {
    hide IsRun, Enabled, Step1, Leased, TableOk;
    var s := states[n];
    LeaseExclusion(states, steps, n);
    RunKeepsTable(states, steps, n);
    if OnTime(s) {
      forall step: Step | step.Claim? && Enabled(s, step) ensures Exclusive(Step1(s, step)) {
        StepKeepsLeases(s, step);
        LeasedIsExclusive(Step1(s, step));
      }
    } else {
      var w :| w in s.holders && Holds(s, w) && s.now >= s.holders[w].lease;
      var v := SomeoneIsIdle(s.holders.Keys);
      LateHolderCanBeJoined(s, w, v);
      assert Share(Step1(s, Join(s, w, v)), w, v);
    }
  }

  lemma LeasedIsExclusive(s: State)
    requires Leased(s)
    ensures Exclusive(s)
  {
  }

  /** Late holders do occur: a run in which a worker outlives its lease without reporting and is joined by another. */
  lemma LateReportBreaksExclusion() returns (states: seq<State>, steps: seq<Step>)
    ensures IsRun(states, steps) && states[0] == Empty
    ensures forall m :: 0 <= m < |states| - 2 ==> OnTime(states[m])
    ensures Share(states[|states| - 1], 0, 1)
  {
    var ev := Event("e", "", WebhookReceived, "d", "", 0, Some(0), "", None, None, 0);
    var row := ev.(nextAttemptAt := Some(LeaseTime));
    steps := [Deliver(ev, 0), Claim(0, ev, 0, 0, true), Tick(LeaseTime), Claim(1, ev, LeaseTime, LeaseTime, true)];
    var s1 := Step1(Empty, steps[0]);
    assert s1.events == map["e" := ev];
    var s2 := Step1(s1, steps[1]);
    assert s2.events == map["e" := row];
    var s3 := Step1(s2, steps[2]);
    var s4 := Step1(s3, steps[3]);
    states := [Empty, s1, s2, s3, s4];
    assert s4.holders == map[0 := Held(ev, LeaseTime), 1 := Held(ev, 2 * LeaseTime)];
  }
}
