/**
 ReplayEvents: a bounded number of goroutines over a batch, each taking its branch lock and then perhaps the admission
 lock, beside any number of other threads (API calls, webhook workers) that take the same locks in the same order.
 */
module Workers {
  import opened Wrappers

  datatype Tid = Job(i: nat) | Other(k: nat)

  // Where a thread stands. Resting is only for the other threads, between two passes.
  datatype PC =
    | Resting
    | Running
    | WantsBranch
    | HasBranch(admitted: bool)
    | WantsAdmission
    | HasAdmission
    | Finishing      // locks released, token still held
    | Released       // token given back, wait group not told yet
    | Done

  datatype State = State(
    branches: seq<string>,           // the branch of each event of the batch
    limit: nat,
    next: nat,                       // events handed out so far
    handed: seq<nat>,                // the calls of ProcessEvent, in order
    tokens: nat,
    returned: bool,
    held: map<string, Tid>, admission: Option<Tid>,
    pc: map<Tid, PC>,
    branchOf: map<nat, string>)      // the branch another thread is working on

  predicate InFlight(p: PC) {
    p.Running? || p.WantsBranch? || p.HasBranch? || p.WantsAdmission? || p.HasAdmission? || p.Finishing?
  }

  predicate HoldsBranch(p: PC) {
    p.HasBranch? || p.WantsAdmission? || p.HasAdmission?
  }

  function BranchOf(s: State, t: Tid): string {
    match t
    case Job(i) => if i < |s.branches| then s.branches[i] else ""
    case Other(k) => if k in s.branchOf then s.branchOf[k] else ""
  }

  function Move(s: State, t: Tid, p: PC): State {
    s.(pc := s.pc[t := p])
  }

  datatype Step =
    | Spawn                         // the main thread takes a token and starts a goroutine
    | Return                        // the wait group is empty
    | Begin(k: nat, branch: string) // another thread starts a pass
    | Go(t: Tid, short: bool)       // one step of a thread; short: skip the locks, or the admission lock

  predicate Enabled(s: State, step: Step) {
    match step
    case Spawn => !s.returned && s.next < |s.branches| && s.tokens < s.limit
    case Return => !s.returned && s.next == |s.branches| && forall i :: 0 <= i < |s.branches| ==> Finished(s, i)
    case Begin(k, _) => Other(k) in s.pc && s.pc[Other(k)] == Resting
    case Go(t, _) =>
      t in s.pc && s.pc[t] != Resting && s.pc[t] != Done
      && (s.pc[t] == WantsBranch ==> BranchOf(s, t) !in s.held)
      && (s.pc[t] == WantsAdmission ==> s.admission == None)
  }

  predicate Finished(s: State, i: nat) {
    Job(i) in s.pc && s.pc[Job(i)] == Done
  }

  /** Where a step takes a thread; short: it skips the locks, or the admission lock. */
  function Target(p: PC, t: Tid, short: bool): PC {
    match p
    case Running => if short then Finishing else WantsBranch
    case WantsBranch => HasBranch(false)
    case HasBranch(admitted) => if admitted || short then Finishing else WantsAdmission
    case WantsAdmission => HasAdmission
    case HasAdmission => HasBranch(true)
    case Finishing => if t.Job? then Released else Resting
    case Released => Done
    case _ => p
  }

  function GoOn(s: State, t: Tid, short: bool): State
    requires t in s.pc
  {
    var p := s.pc[t];
    var q := Target(p, t, short);
    s.(pc := s.pc[t := q],
       held := if p.WantsBranch? then s.held[BranchOf(s, t) := t]
               else if p.HasBranch? && q.Finishing? then s.held - {BranchOf(s, t)}
               else s.held,
       admission := if q.HasAdmission? then Some(t) else if p.HasAdmission? then None else s.admission,
       tokens := if q.Released? && s.tokens > 0 then s.tokens - 1 else s.tokens)
  }

  function Next(s: State, step: Step): State
    requires Enabled(s, step)
  {
    match step
    case Spawn =>
      Move(s, Job(s.next), Running).(next := s.next + 1, handed := s.handed + [s.next], tokens := s.tokens + 1)
    case Return => s.(returned := true)
    case Begin(k, b) => Move(s, Other(k), Running).(branchOf := s.branchOf[k := b])
    case Go(t, short) => GoOn(s, t, short)
  }

  predicate Init(s: State) {
    && s.limit >= 1 && s.next == 0 && s.handed == [] && s.tokens == 0 && !s.returned
    && s.held == map[] && s.admission == None
    && forall t :: t in s.pc ==> t.Other? && s.pc[t] == Resting
  }

  ghost predicate IsRun(states: seq<State>, steps: seq<Step>) {
    && |states| == |steps| + 1 && Init(states[0])
    && forall i {:trigger steps[i]} :: 0 <= i < |steps| ==>
         Enabled(states[i], steps[i]) && states[i + 1] == Next(states[i], steps[i])
  }

  function FlyingJobs(pc: map<Tid, PC>): set<Tid> {
    set t | t in pc && t.Job? && InFlight(pc[t])
  }

  ghost predicate LocksRight(s: State) {
    && (forall t :: t in s.pc && HoldsBranch(s.pc[t]) ==> BranchOf(s, t) in s.held && s.held[BranchOf(s, t)] == t)
    && (forall b :: b in s.held ==> s.held[b] in s.pc && HoldsBranch(s.pc[s.held[b]]) && BranchOf(s, s.held[b]) == b)
    && (forall t :: t in s.pc ==> (s.pc[t].HasAdmission? <==> s.admission == Some(t)))
    && (s.admission.Some? ==> s.admission.value in s.pc)
  }

  predicate JobsRight(s: State) {
    && s.next <= |s.branches|
    && (forall t :: t in s.pc && t.Job? ==> t.i < s.next && s.pc[t] != Resting)
    && (forall i :: 0 <= i < s.next ==> Job(i) in s.pc)
    && (forall t :: t in s.pc && t.Other? ==> s.pc[t] != Released && s.pc[t] != Done)
    && InOrder(s.handed, s.next)
  }

  /** The numbers below n, each once, in order. */
  predicate InOrder(handed: seq<nat>, n: nat) {
    |handed| == n && forall i :: 0 <= i < n ==> handed[i] == i
  }

  ghost predicate Inv(s: State) {
    && LocksRight(s) && JobsRight(s)
    && s.limit >= 1 && s.tokens == |FlyingJobs(s.pc)| <= s.limit
    && ReturnRight(s)
  }

  // ---------- every step keeps the invariant ----------

  predicate LockFree(pc: map<Tid, PC>, t: Tid) {
    t in pc ==> !HoldsBranch(pc[t]) && !pc[t].HasAdmission?
  }

  /** A thread without locks moves on without locks; it may pick its next branch meanwhile. */
  lemma LocksUntouched(s: State, s': State, t: Tid)
    requires LocksRight(s) && s'.held == s.held && s'.admission == s.admission
    requires t in s'.pc && s'.pc == s.pc[t := s'.pc[t]] && LockFree(s.pc, t) && LockFree(s'.pc, t)
    requires forall v :: v != t ==> BranchOf(s', v) == BranchOf(s, v)
    ensures LocksRight(s')
  {
    hide BranchOf;
  }

  lemma BranchTaken(s: State, s': State, t: Tid)
    requires LocksRight(s) && t in s.pc && LockFree(s.pc, t) && BranchOf(s, t) !in s.held
    requires s' == Move(s, t, HasBranch(false)).(held := s.held[BranchOf(s, t) := t])
    ensures LocksRight(s')
  {
    assert forall v :: BranchOf(s', v) == BranchOf(s, v);
    hide BranchOf;
  }

  lemma BranchGiven(s: State, s': State, t: Tid)
    requires LocksRight(s) && t in s.pc && HoldsBranch(s.pc[t]) && !s.pc[t].HasAdmission?
    requires s' == Move(s, t, Finishing).(held := s.held - {BranchOf(s, t)})
    ensures LocksRight(s')
  {
    assert forall v :: BranchOf(s', v) == BranchOf(s, v);
    hide BranchOf;
  }

  lemma AdmissionMoved(s: State, s': State, t: Tid, p: PC)
    requires LocksRight(s) && t in s.pc && HoldsBranch(s.pc[t]) && HoldsBranch(p)
    requires p.HasAdmission? ==> s.admission == None
    requires s'.pc == s.pc[t := p] && s'.held == s.held && s'.branches == s.branches && s'.branchOf == s.branchOf
    requires s'.admission == if p.HasAdmission? then Some(t) else if s.pc[t].HasAdmission? then None else s.admission
    ensures LocksRight(s')
  {
    assert forall v :: BranchOf(s', v) == BranchOf(s, v);
    hide BranchOf;
  }

  lemma LocksMoved(s: State, t: Tid, short: bool)
    requires LocksRight(s) && Enabled(s, Go(t, short))
    requires s.pc[t].WantsBranch? || HoldsBranch(s.pc[t])
    ensures LocksRight(GoOn(s, t, short))
  {
    hide LocksRight, BranchOf;
    var s' := GoOn(s, t, short);
    match s.pc[t]
    case WantsBranch => BranchTaken(s, s', t);
    case HasBranch(admitted) =>
      if admitted || short { BranchGiven(s, s', t); } else { AdmissionMoved(s, s', t, WantsAdmission); }
    case WantsAdmission => AdmissionMoved(s, s', t, HasAdmission);
    case HasAdmission => AdmissionMoved(s, s', t, HasBranch(true));
  }

  lemma GoKeepsLocks(s: State, t: Tid, short: bool)
    requires LocksRight(s) && Enabled(s, Go(t, short))
    ensures LocksRight(GoOn(s, t, short))
  {
    hide LocksRight;
    if s.pc[t].WantsBranch? || HoldsBranch(s.pc[t]) {
      LocksMoved(s, t, short);
    } else {
      LocksUntouched(s, GoOn(s, t, short), t);
    }
  }

  lemma SpawnKeepsLocks(s: State)
    requires LocksRight(s) && JobsRight(s) && Enabled(s, Spawn)
    ensures LocksRight(Next(s, Spawn))
  {
    hide LocksRight, InOrder;
    LocksUntouched(s, Next(s, Spawn), Job(s.next));
  }

  lemma LocksKept(s: State, step: Step)
    requires LocksRight(s) && JobsRight(s) && Enabled(s, step)
    ensures LocksRight(Next(s, step))
  {
    hide LocksRight, JobsRight, GoOn;
    match step
    case Spawn => SpawnKeepsLocks(s);
    case Return => LocksReturn(s, Next(s, step));
    case Begin(k, _) => LocksUntouched(s, Next(s, step), Other(k));
    case Go(t, short) => GoKeepsLocks(s, t, short);
  }

  lemma LocksReturn(s: State, s': State)
    requires LocksRight(s) && s' == s.(returned := s'.returned)
    ensures LocksRight(s')
  {
    assert forall v :: BranchOf(s', v) == BranchOf(s, v);
    hide BranchOf;
  }

  lemma JobsMoved(s: State, s': State, t: Tid)
    requires JobsRight(s) && t in s.pc && t in s'.pc && s'.pc == s.pc[t := s'.pc[t]]
    requires s'.next == s.next && s'.branches == s.branches && s'.handed == s.handed
    requires if t.Job? then s'.pc[t] != Resting else s'.pc[t] != Released && s'.pc[t] != Done
    ensures JobsRight(s')
  {
    hide InOrder;
  }

  /** A thread's step moves the thread, and besides at most the locks and the tokens. */
  lemma GoMoves(s: State, t: Tid, short: bool)
    requires Enabled(s, Go(t, short))
    ensures var s' := GoOn(s, t, short);
      && t in s'.pc && s'.pc == s.pc[t := s'.pc[t]]
      && s'.next == s.next && s'.branches == s.branches && s'.handed == s.handed
      && s'.limit == s.limit && s'.returned == s.returned && s.pc[t] != Done
  {
    hide BranchOf;
  }

  /** Where a thread's step takes it, and what becomes of its token. */
  lemma GoLeads(s: State, t: Tid, short: bool)
    requires Enabled(s, Go(t, short))
    ensures var s' := GoOn(s, t, short);
      && t in s'.pc
      && (t.Job? ==> s'.pc[t] != Resting)
      && (t.Other? && s.pc[t] != Released ==> s'.pc[t] != Released && s'.pc[t] != Done)
      && (if t.Job? && s.pc[t].Finishing?
          then InFlight(s.pc[t]) && !InFlight(s'.pc[t]) && s'.tokens == if s.tokens > 0 then s.tokens - 1 else 0
          else (t.Job? ==> (InFlight(s.pc[t]) <==> InFlight(s'.pc[t]))) && s'.tokens == s.tokens)
  {
    hide BranchOf;
  }

  lemma GoKeepsJobs(s: State, t: Tid, short: bool)
    requires JobsRight(s) && Enabled(s, Go(t, short))
    ensures JobsRight(GoOn(s, t, short))
  {
    hide GoOn, InOrder;
    GoMoves(s, t, short);
    GoLeads(s, t, short);
    assert t.Other? ==> s.pc[t] != Released;
    JobsMoved(s, GoOn(s, t, short), t);
  }

  lemma JobsKept(s: State, step: Step)
    requires JobsRight(s) && Enabled(s, step)
    ensures JobsRight(Next(s, step))
  {
    if step.Go? {
      hide JobsRight, GoOn;
      GoKeepsJobs(s, step.t, step.short);
    }
  }

  lemma FlyingSame(pc: map<Tid, PC>, t: Tid, p: PC)
    requires t.Other? || (t in pc && (InFlight(pc[t]) <==> InFlight(p)))
    ensures FlyingJobs(pc[t := p]) == FlyingJobs(pc)
  {
  }

  lemma FlyingJoins(pc: map<Tid, PC>, t: Tid, p: PC)
    requires t.Job? && t !in pc && InFlight(p)
    ensures |FlyingJobs(pc[t := p])| == |FlyingJobs(pc)| + 1
  {
    assert FlyingJobs(pc[t := p]) == FlyingJobs(pc) + {t};
  }

  lemma FlyingLeaves(pc: map<Tid, PC>, t: Tid, p: PC)
    requires t.Job? && t in pc && InFlight(pc[t]) && !InFlight(p)
    ensures |FlyingJobs(pc[t := p])| == |FlyingJobs(pc)| - 1
  {
    assert FlyingJobs(pc) == FlyingJobs(pc[t := p]) + {t};
  }

  lemma GoKeepsTokens(s: State, t: Tid, short: bool)
    requires s.tokens == |FlyingJobs(s.pc)| <= s.limit && Enabled(s, Go(t, short))
    ensures GoOn(s, t, short).tokens == |FlyingJobs(GoOn(s, t, short).pc)| <= s.limit
  {
    hide FlyingJobs, GoOn, InFlight;
    var s' := GoOn(s, t, short);
    GoMoves(s, t, short);
    GoLeads(s, t, short);
    if t.Job? && s.pc[t].Finishing? { FlyingLeaves(s.pc, t, s'.pc[t]); } else { FlyingSame(s.pc, t, s'.pc[t]); }
  }

  lemma TokensKept(s: State, step: Step)
    requires JobsRight(s) && s.tokens == |FlyingJobs(s.pc)| <= s.limit && Enabled(s, step)
    ensures Next(s, step).tokens == |FlyingJobs(Next(s, step).pc)| <= s.limit
  {
    hide FlyingJobs, InOrder, BranchOf, GoOn;
    match step
    case Spawn => FlyingJoins(s.pc, Job(s.next), Running);
    case Begin(k, _) => FlyingSame(s.pc, Other(k), Running);
    case Go(t, short) => GoKeepsTokens(s, t, short);
    case Return =>
  }

  /** Before the batch returns, only its own step returns; after that every job is done and is never stepped again. */
  predicate ReturnRight(s: State) {
    s.returned ==> s.next == |s.branches| && forall i :: 0 <= i < |s.branches| ==> Finished(s, i)
  }

  lemma GoKeepsReturn(s: State, t: Tid, short: bool)
    requires ReturnRight(s) && Enabled(s, Go(t, short))
    ensures ReturnRight(GoOn(s, t, short))
  {
    hide GoOn, BranchOf;
    var s' := GoOn(s, t, short);
    GoMoves(s, t, short);
    if s'.returned {
      forall i | 0 <= i < |s'.branches| ensures Finished(s', i) { assert Finished(s, i); }
    }
  }

  lemma BeginKeepsReturn(s: State, k: nat, branch: string)
    requires ReturnRight(s) && Enabled(s, Begin(k, branch))
    ensures ReturnRight(Next(s, Begin(k, branch)))
  {
    hide BranchOf;
    var s' := Next(s, Begin(k, branch));
    if s'.returned {
      forall i | 0 <= i < |s'.branches| ensures Finished(s', i) { assert Finished(s, i); }
    }
  }

  /** A finished job stays finished, and the main thread returns only once. */
  lemma ReturnKept(s: State, step: Step)
    requires Enabled(s, step) && ReturnRight(s)
    ensures var s' := Next(s, step); s'.branches == s.branches && s'.limit == s.limit && ReturnRight(s')
  {
    hide GoOn, Finished, ReturnRight;
    match step
    case Spawn => NotReturned(Next(s, step));
    case Return => AllReturned(Next(s, step), s);
    case Begin(k, branch) => BeginKeepsReturn(s, k, branch);
    case Go(t, short) => GoMoves(s, t, short); GoKeepsReturn(s, t, short);
  }

  lemma NotReturned(s: State)
    requires !s.returned
    ensures ReturnRight(s)
  {
  }

  lemma AllReturned(s': State, s: State)
    requires s' == s.(returned := true) && s.next == |s.branches| && forall i :: 0 <= i < |s.branches| ==> Finished(s, i)
    ensures ReturnRight(s')
  {
    forall i | 0 <= i < |s'.branches| ensures Finished(s', i) { assert Finished(s, i); }
  }

  lemma StepKeepsInv(s: State, step: Step)
    requires Inv(s) && Enabled(s, step)
    ensures var s' := Next(s, step);
      Inv(s') && s'.branches == s.branches && s'.limit == s.limit
  {
    hide LocksRight, FlyingJobs, JobsRight, ReturnRight, Next, Enabled, Finished;
    LocksKept(s, step);
    JobsKept(s, step);
    TokensKept(s, step);
    ReturnKept(s, step);
  }

  lemma {:induction false} RunKeepsInv(states: seq<State>, steps: seq<Step>, n: nat)
    requires IsRun(states, steps) && n < |states|
    ensures Inv(states[n]) && states[n].branches == states[0].branches && states[n].limit == states[0].limit
  {
    hide Inv, Next, Enabled, Init;
    if n == 0 {
      InitInv(states[0]);
    } else {
      RunKeepsInv(states, steps, n - 1);
      assert Enabled(states[n - 1], steps[n - 1]) && states[n - 1 + 1] == Next(states[n - 1], steps[n - 1]);
      StepKeepsInv(states[n - 1], steps[n - 1]);
    }
  }

  lemma InitInv(s: State)
    requires Init(s)
    ensures Inv(s)
  {
    assert FlyingJobs(s.pc) == {};
  }

  // ---------- results ----------

  /** Never more goroutines in flight than the limit; events handed out in order, each once; all of them by the time it returns. */
  lemma BoundedAndExactlyOnce(states: seq<State>, steps: seq<Step>, n: nat)
    requires IsRun(states, steps) && n < |states|
    ensures var s := states[n];
      && |FlyingJobs(s.pc)| <= s.limit
      && InOrder(s.handed, s.next) && s.next <= |s.branches|
      && (s.returned ==> |s.handed| == |s.branches| && forall i :: 0 <= i < |s.branches| ==> Finished(s, i))
  {
    RunKeepsInv(states, steps, n);
  }

  /** From a thread that is in the middle of a pass, follow the locks it waits for to one that can move. */
  function Unblocked(s: State, t: Tid): Tid {
    if t in s.pc && s.pc[t].WantsBranch? && BranchOf(s, t) in s.held then
      var h := s.held[BranchOf(s, t)];
      if h in s.pc && s.pc[h].WantsAdmission? && s.admission.Some? then s.admission.value else h
    else if t in s.pc && s.pc[t].WantsAdmission? && s.admission.Some? then s.admission.value
    else t
  }

  lemma UnblockedMoves(s: State, t: Tid)
    requires Inv(s) && t in s.pc && s.pc[t] != Resting && s.pc[t] != Done
    ensures Enabled(s, Go(Unblocked(s, t), false))
  {
    hide FlyingJobs;
  }

  /** Main result: until ReplayEvents returns there is always a step to take, and not one that starts new outside work. */
  lemma NoDeadlock(states: seq<State>, steps: seq<Step>, n: nat)
    requires IsRun(states, steps) && n < |states| && !states[n].returned
    ensures exists step: Step :: !step.Begin? && Enabled(states[n], step)
  {
    RunKeepsInv(states, steps, n);
    var s := states[n];
    if FlyingJobs(s.pc) != {} {
      var t :| t in FlyingJobs(s.pc);
      UnblockedMoves(s, t);
    } else if s.next < |s.branches| {
      assert Enabled(s, Spawn);
    } else if forall i :: 0 <= i < |s.branches| ==> Finished(s, i) {
      assert Enabled(s, Return);
    } else {
      var i :| 0 <= i < |s.branches| && !Finished(s, i);
      assert Job(i) !in FlyingJobs(s.pc);
      assert Enabled(s, Go(Job(i), false));
    }
  }

  // ---------- the batch is finite work ----------

  function StepsLeft(p: PC): nat {
    match p
    case Running => 8
    case WantsBranch => 7
    case HasBranch(admitted) => if admitted then 3 else 6
    case WantsAdmission => 5
    case HasAdmission => 4
    case Finishing => 2
    case Released => 1
    case _ => 0
  }

  /** Steps left to the first n jobs. */
  function JobWork(s: State, n: nat): nat {
    if n == 0 then 0 else JobWork(s, n - 1) + if Job(n - 1) in s.pc then StepsLeft(s.pc[Job(n - 1)]) else 9
  }

  function Rank(s: State): nat {
    JobWork(s, |s.branches|) + if s.returned then 0 else 1
  }

  lemma {:induction false} JobWorkMoves(s: State, s': State, t: Tid, n: nat)
    requires t in s'.pc && s'.pc == s.pc[t := s'.pc[t]]
    ensures t.Other? || t.i >= n ==> JobWork(s', n) == JobWork(s, n)
    ensures t.Job? && t.i < n ==>
      JobWork(s', n) - JobWork(s, n) == StepsLeft(s'.pc[t]) - if t in s.pc then StepsLeft(s.pc[t]) else 9
  {
    if n > 0 { JobWorkMoves(s, s', t, n - 1); }
  }

  lemma GoUsesUp(s: State, t: Tid, short: bool)
    requires t in s.pc && s.pc[t] != Resting && s.pc[t] != Done
    ensures var s' := GoOn(s, t, short);
      && t in s'.pc && s'.pc == s.pc[t := s'.pc[t]] && s'.branches == s.branches && s'.returned == s.returned
      && StepsLeft(s'.pc[t]) < StepsLeft(s.pc[t])
  {
    hide BranchOf;
  }

  /** Every step of ReplayEvents or one of its goroutines uses up work; other threads leave it alone. */
  lemma RankFalls(s: State, step: Step)
    requires JobsRight(s) && Enabled(s, step)
    ensures var s' := Next(s, step);
      if step.Begin? || (step.Go? && step.t.Other?) then Rank(s') == Rank(s) else Rank(s') < Rank(s)
  {
    hide InOrder, BranchOf, JobWork, Finished, GoOn;
    var s' := Next(s, step);
    match step
    case Spawn => JobWorkMoves(s, s', Job(s.next), |s.branches|);
    case Begin(k, _) => JobWorkMoves(s, s', Other(k), |s.branches|);
    case Go(t, short) =>
      GoUsesUp(s, t, short);
      JobWorkMoves(s, s', t, |s.branches|);
    case Return => JobWorkSame(s, s', |s.branches|);
  }

  lemma {:induction false} JobWorkSame(s: State, s': State, n: nat)
    requires s'.pc == s.pc
    ensures JobWork(s', n) == JobWork(s, n)
  {
    if n > 0 { JobWorkSame(s, s', n - 1); }
  }

  /** The steps of the batch among the first n. */
  function BatchSteps(steps: seq<Step>, n: nat): nat
    requires n <= |steps|
  {
    if n == 0 then 0
    else BatchSteps(steps, n - 1) + if steps[n - 1].Begin? || (steps[n - 1].Go? && steps[n - 1].t.Other?) then 0 else 1
  }

  /** Main result: however the threads interleave, a batch of m events is over after at most 9m + 1 steps of its own. */
  lemma {:induction false} BatchTerminates(states: seq<State>, steps: seq<Step>, n: nat)
    requires IsRun(states, steps) && n < |states|
    ensures BatchSteps(steps, n) + Rank(states[n]) <= 9 * |states[0].branches| + 1
    ensures BatchSteps(steps, n) == 9 * |states[0].branches| + 1 ==> states[n].returned
  {
    hide Next, Rank, Enabled, JobsRight, LocksRight, Init, ReturnRight, FlyingJobs;
    RunKeepsInv(states, steps, n);
    if n == 0 {
      WholeWork(states[0]);
    } else {
      BatchTerminates(states, steps, n - 1);
      RunKeepsInv(states, steps, n - 1);
      assert Enabled(states[n - 1], steps[n - 1]) && states[n - 1 + 1] == Next(states[n - 1], steps[n - 1]);
      RankFalls(states[n - 1], steps[n - 1]);
    }
    NoWorkLeft(states[n]);
  }

  lemma WholeWork(s: State)
    requires Init(s)
    ensures Rank(s) <= 9 * |s.branches| + 1
  {
    AllWork(s, |s.branches|);
  }

  lemma NoWorkLeft(s: State)
    ensures Rank(s) == 0 ==> s.returned
  {
  }

  lemma {:induction false} AllWork(s: State, n: nat)
    requires forall t :: t in s.pc ==> t.Other?
    ensures JobWork(s, n) == 9 * n
  {
    if n > 0 { AllWork(s, n - 1); }
  }
}
