/**
 The ceiling on live environments: webhook pushes and closes on any branches, each under its branch lock, with the
 count-then-reserve step of admission under a second lock, interleaved statement by statement and with crashes.
 */
module Admission {
  import opened Wrappers
  import opened Transitions

  type Thread = nat
  type Branch = string

  datatype PC =
    | Idle
    | Wanting(branch: Branch, push: bool)       // before the branch lock
    | Locked(branch: Branch, push: bool)
    | Admitting(branch: Branch)                 // inside the admission lock, before the lookup
    | Missing(branch: Branch)                   // the lookup found no row
    | Counted(branch: Branch, live: nat, seen: int)
    | Admitted(branch: Branch)                  // still inside the admission lock
    | Working(branch: Branch)                   // applying or tearing down

  // net: how much status writes have changed the number of live rows since the start.
  // once: the branches that have been destroyed at some time.
  datatype State = State(
    max: nat, rows: map<Branch, Status>,
    admission: Option<Thread>, held: map<Branch, Thread>, pc: map<Thread, PC>,
    net: int, once: set<Branch>)

  function Live(rows: map<Branch, Status>): set<Branch> {
    set b | b in rows && rows[b] != Destroyed
  }

  /** Live and never destroyed so far. */
  function FirstLives(rows: map<Branch, Status>, once: set<Branch>): set<Branch> {
    Live(rows) - once
  }

  predicate InAdmission(p: PC) {
    p.Admitting? || p.Missing? || p.Counted? || p.Admitted?
  }

  predicate HoldsBranch(p: PC) {
    p.Locked? || InAdmission(p) || p.Working?
  }

  function Move(s: State, t: Thread, p: PC): State {
    s.(pc := s.pc[t := p])
  }

  /** Releases whatever the thread holds: the deferred unlocks of a pass that returns at any point. */
  function Return(s: State, t: Thread): State
    requires t in s.pc
  {
    var p := s.pc[t];
    Move(s, t, Idle).(
      admission := if InAdmission(p) then None else s.admission,
      held := if HoldsBranch(p) then s.held - {p.branch} else s.held)
  }

  /** A status write, checked against the transition table; counts what it does to the number of live rows. */
  function Write(s: State, b: Branch, to: Status): State
    requires b in s.rows
  {
    if !CanTransition(s.rows[b], to) then s
    else
      s.(rows := s.rows[b := to],
         net := s.net + (if to != Destroyed then 1 else 0) - (if s.rows[b] != Destroyed then 1 else 0),
         once := if to == Destroyed then s.once + {b} else s.once)
  }

  function Create(s: State, t: Thread, b: Branch): State {
    Move(s, t, Admitted(b)).(rows := s.rows[b := Pending])
  }

  datatype Step =
    | Start(t: Thread, branch: Branch, push: bool)
    | Advance(t: Thread)
    | Update(t: Thread, to: Status)
    | Stop(t: Thread)     // denied by policy, finished, or an error return
    | Crash

  predicate Enabled(s: State, step: Step) {
    match step
    case Start(t, _, _) => t in s.pc && s.pc[t] == Idle
    case Stop(t) => t in s.pc && s.pc[t] != Idle
    case Crash => true
    case Update(t, _) => t in s.pc && s.pc[t].Working? && s.pc[t].branch in s.rows
    case Advance(t) =>
      t in s.pc &&
      match s.pc[t]
      case Idle => false
      case Wanting(b, _) => b !in s.held
      case Locked(b, push) => if push then s.admission == None else b in s.rows
      case Counted(_, live, _) => live < s.max
      case Working(_) => false
      case _ => true
  }

  function Next(s: State, step: Step): State
    requires Enabled(s, step)
  {
    match step
    case Start(t, b, push) => Move(s, t, Wanting(b, push))
    case Stop(t) => Return(s, t)
    case Crash => s.(admission := None, held := map[], pc := map t | t in s.pc :: Idle)
    case Update(t, to) => Write(s, s.pc[t].branch, to)
    case Advance(t) =>
      match s.pc[t]
      case Wanting(b, push) => Move(s, t, Locked(b, push)).(held := s.held[b := t])
      case Locked(b, push) =>
        if push then Move(s, t, Admitting(b)).(admission := Some(t)) else Move(s, t, Working(b))
      case Admitting(b) => Move(s, t, if b in s.rows then Admitted(b) else Missing(b))
      case Missing(b) => Move(s, t, Counted(b, |Live(s.rows)|, s.net))
      case Counted(b, _, _) => Create(s, t, b)
      case Admitted(b) => Move(s, t, Working(b)).(admission := None)
      case _ => s
  }

  /** The step that creates a row. */
  predicate Creates(s: State, step: Step) {
    step.Advance? && step.t in s.pc && s.pc[step.t].Counted?
  }

  // ---------- invariant ----------

  ghost predicate LocksRight(s: State) {
    && (forall t :: t in s.pc ==> (InAdmission(s.pc[t]) <==> s.admission == Some(t)))
    && (s.admission.Some? ==> s.admission.value in s.pc)
    && (forall t :: t in s.pc && HoldsBranch(s.pc[t]) ==> s.pc[t].branch in s.held && s.held[s.pc[t].branch] == t)
    && (forall b :: b in s.held ==> HeldBy(s, b, s.held[b]))
  }

  /** The thread is inside the pass over the branch. */
  predicate HeldBy(s: State, b: Branch, t: Thread) {
    t in s.pc && HoldsBranch(s.pc[t]) && s.pc[t].branch == b
  }

  /** A thread past the lookup still has no row; since its count only status writes have changed the number of live rows. */
  ghost predicate CountsRight(s: State) {
    && (forall t :: t in s.pc && (s.pc[t].Missing? || s.pc[t].Counted?) ==> s.pc[t].branch !in s.rows)
    && (forall t :: t in s.pc && s.pc[t].Counted? ==>
          |Live(s.rows)| == s.pc[t].live + s.net - s.pc[t].seen && |FirstLives(s.rows, s.once)| <= s.pc[t].live)
  }

  ghost predicate Inv(s: State, bound: nat) {
    && LocksRight(s) && CountsRight(s)
    && s.max <= bound && |FirstLives(s.rows, s.once)| <= bound
    && (forall b :: b in s.rows && s.rows[b] == Destroyed ==> b in s.once)
    && s.once <= s.rows.Keys
  }

  lemma SubsetSize<T>(a: set<T>, b: set<T>)
    requires a <= b
    ensures |a| <= |b|
  {
    assert b == a + (b - a);
  }

  lemma LiveAfter(rows: map<Branch, Status>, b: Branch, to: Status)
    ensures Live(rows[b := to]) == if to == Destroyed then Live(rows) - {b} else Live(rows) + {b}
  {
  }

  lemma SizeAfter(bs: set<Branch>, b: Branch)
    ensures |bs + {b}| == |bs| + if b in bs then 0 else 1
    ensures |bs - {b}| == |bs| - if b in bs then 1 else 0
  {
    assert b in bs ==> bs + {b} == bs;
    assert b !in bs ==> bs - {b} == bs;
  }

  lemma FirstLivesSize(rows: map<Branch, Status>, once: set<Branch>)
    ensures |FirstLives(rows, once)| <= |Live(rows)|
  {
    SubsetSize(FirstLives(rows, once), Live(rows));
  }

  lemma WriteEffect(s: State, b: Branch, to: Status)
    requires b in s.rows && (s.rows[b] == Destroyed ==> b in s.once)
    ensures var s' := Write(s, b, to);
      && |Live(s'.rows)| - |Live(s.rows)| == s'.net - s.net
      && |FirstLives(s'.rows, s'.once)| <= |FirstLives(s.rows, s.once)|
      && (s'.net > s.net ==> s.rows[b] == Destroyed)
  {
    var s' := Write(s, b, to);
    LiveAfter(s.rows, b, to);
    SizeAfter(Live(s.rows), b);
    assert b in Live(s.rows) <==> s.rows[b] != Destroyed;
    hide Live, CanTransition;
    assert FirstLives(s'.rows, s'.once) <= FirstLives(s.rows, s.once);
    SubsetSize(FirstLives(s'.rows, s'.once), FirstLives(s.rows, s.once));
  }

  lemma CreateEffect(s: State, t: Thread, b: Branch)
    requires b !in s.rows && s.once <= s.rows.Keys
    ensures var s' := Create(s, t, b);
      && |Live(s'.rows)| == |Live(s.rows)| + 1
      && |FirstLives(s'.rows, s'.once)| == |FirstLives(s.rows, s.once)| + 1
  {
    LiveAfter(s.rows, b, Pending);
    assert b !in Live(s.rows) && b !in s.once;
    hide Live;
    assert FirstLives(s.rows[b := Pending], s.once) == FirstLives(s.rows, s.once) + {b};
  }

  lemma UpdateKeepsInv(s: State, step: Step, bound: nat)
    requires Inv(s, bound) && Enabled(s, step) && step.Update?
    ensures Inv(Next(s, step), bound)
  {
    WriteEffect(s, s.pc[step.t].branch, step.to);
    hide Live, FirstLives;
  }

  lemma CreateKeepsLocks(s: State, t: Thread, b: Branch)
    requires LocksRight(s) && t in s.pc && s.pc[t].Counted? && s.pc[t].branch == b
    ensures LocksRight(Create(s, t, b))
  {
  }

  /** Only one thread is inside admission, so nobody else relies on a count when a row is created. */
  lemma CreateKeepsCounts(s: State, t: Thread, b: Branch)
    requires LocksRight(s) && CountsRight(s) && t in s.pc && s.pc[t].Counted? && s.pc[t].branch == b
    ensures CountsRight(Create(s, t, b))
  {
    hide Live, FirstLives;
    assert s.admission == Some(t);
    assert forall v :: v in s.pc && v != t ==> !InAdmission(s.pc[v]);
  }

  lemma CreateKeepsInv(s: State, step: Step, bound: nat)
    requires Inv(s, bound) && Enabled(s, step) && Creates(s, step)
    ensures Inv(Next(s, step), bound)
  {
    hide Live, FirstLives, LocksRight, CountsRight, Create;
    var t, b := step.t, s.pc[step.t].branch;
    CountedFits(s, t);
    CreateEffect(s, t, b);
    CreateKeepsLocks(s, t, b);
    CreateKeepsCounts(s, t, b);
    CreateFrame(s, t, b);
  }

  lemma CreateFrame(s: State, t: Thread, b: Branch)
    ensures var s' := Create(s, t, b); s'.max == s.max && s'.once == s.once && s'.rows == s.rows[b := Pending]
  {
  }

  lemma CountedFits(s: State, t: Thread)
    requires CountsRight(s) && t in s.pc && s.pc[t].Counted?
    ensures s.pc[t].branch !in s.rows && |FirstLives(s.rows, s.once)| <= s.pc[t].live
  {
  }

  /** What becomes of the locks when thread t moves on to p. */
  predicate TakesOver(s: State, s': State, t: Thread, p: PC) {
    && t in s.pc
    && var was := s.pc[t];
       && s' == Move(s, t, p).(admission := s'.admission, held := s'.held)
       && (HoldsBranch(was) && HoldsBranch(p) ==> was.branch == p.branch)
       && (HoldsBranch(p) && !HoldsBranch(was) ==> p.branch !in s.held)
       && (InAdmission(p) && !InAdmission(was) ==> s.admission == None)
       && s'.admission == (if InAdmission(p) then Some(t) else if InAdmission(was) then None else s.admission)
       && s'.held == (if HoldsBranch(p) then s.held[p.branch := t]
                      else if HoldsBranch(was) then s.held - {was.branch} else s.held)
  }

  lemma TakeoverKeepsLocks(s: State, s': State, t: Thread, p: PC)
    requires LocksRight(s) && TakesOver(s, s', t, p)
    ensures LocksRight(s')
  {
    hide Live;
  }

  lemma AdvanceKeepsLocks(s: State, t: Thread)
    requires LocksRight(s) && Enabled(s, Advance(t)) && !s.pc[t].Counted?
    ensures LocksRight(Next(s, Advance(t)))
  {
    hide Live;
    var s' := Next(s, Advance(t));
    assert HoldsBranch(s.pc[t]) ==> s.held[s.pc[t].branch := t] == s.held;
    assert TakesOver(s, s', t, s'.pc[t]);
    TakeoverKeepsLocks(s, s', t, s'.pc[t]);
  }

  lemma MoveKeepsLocks(s: State, step: Step)
    requires LocksRight(s) && Enabled(s, step) && !step.Update? && !Creates(s, step)
    ensures LocksRight(Next(s, step))
  {
    hide Live, LocksRight, Next;
    if step.Advance? { AdvanceKeepsLocks(s, step.t); } else { OtherMovesKeepLocks(s, step); }
  }

  lemma OtherMovesKeepLocks(s: State, step: Step)
    requires LocksRight(s) && Enabled(s, step) && (step.Start? || step.Stop? || step.Crash?)
    ensures LocksRight(Next(s, step))
  {
    hide Live;
  }

  lemma MoveKeepsCounts(s: State, step: Step)
    requires CountsRight(s) && Enabled(s, step) && !step.Update? && !Creates(s, step)
    ensures var s' := Next(s, step);
      s'.rows == s.rows && s'.once == s.once && s'.net == s.net && s'.max == s.max && CountsRight(s')
  {
    hide Live, FirstLives, CountsRight, Write, Create;
    FirstLivesSize(s.rows, s.once);
    var s' := Next(s, step);
    if step.Advance? && s.pc[step.t].Missing? { MissingRow(s, step.t); }
    CountsFollow(s, s');
  }

  lemma MissingRow(s: State, t: Thread)
    requires CountsRight(s) && t in s.pc && s.pc[t].Missing?
    ensures s.pc[t].branch !in s.rows
  {
  }

  /** Counts stay right if the table is untouched and every thread past the lookup either was there or has just counted. */
  lemma CountsFollow(s: State, s': State)
    requires CountsRight(s)
    requires s'.rows == s.rows && s'.once == s.once && s'.net == s.net && |FirstLives(s.rows, s.once)| <= |Live(s.rows)|
    requires forall t :: t in s'.pc && (s'.pc[t].Missing? || s'.pc[t].Counted?) ==>
      || (t in s.pc && s'.pc[t] == s.pc[t])
      || (s'.pc[t].branch !in s.rows
          && (s'.pc[t].Counted? ==> s'.pc[t].live == |Live(s.rows)| && s'.pc[t].seen == s.net))
    ensures CountsRight(s')
  {
    hide Live, FirstLives;
  }

  lemma MoveKeepsInv(s: State, step: Step, bound: nat)
    requires Inv(s, bound) && Enabled(s, step) && !step.Update? && !Creates(s, step)
    ensures Inv(Next(s, step), bound)
  {
    hide LocksRight, CountsRight, Live, FirstLives, Next;
    MoveKeepsLocks(s, step);
    MoveKeepsCounts(s, step);
  }

  lemma StepKeepsInv(s: State, step: Step, bound: nat)
    requires Inv(s, bound) && Enabled(s, step)
    ensures Inv(Next(s, step), bound)
  {
    if step.Update? { UpdateKeepsInv(s, step, bound); }
    else if Creates(s, step) { CreateKeepsInv(s, step, bound); }
    else { MoveKeepsInv(s, step, bound); }
  }

  // ---------- whole runs ----------

  /** A positive ceiling, without which admission does not count; any table to begin with, nobody at work. */
  predicate Init(s: State) {
    && s.max > 0
    && s.admission == None && s.held == map[] && (forall t :: t in s.pc ==> s.pc[t] == Idle)
    && s.once == set b | b in s.rows && s.rows[b] == Destroyed
  }

  ghost predicate IsRun(states: seq<State>, steps: seq<Step>) {
    && |states| == |steps| + 1 && Init(states[0])
    && forall i {:trigger steps[i]} :: 0 <= i < |steps| ==>
         Enabled(states[i], steps[i]) && states[i + 1] == Next(states[i], steps[i])
  }

  function Bound(s: State): nat {
    if |Live(s.rows)| > s.max then |Live(s.rows)| else s.max
  }

  lemma {:induction false} RunKeepsInv(states: seq<State>, steps: seq<Step>, n: nat)
    requires IsRun(states, steps) && n < |states|
    ensures Inv(states[n], Bound(states[0])) && states[n].max == states[0].max
  {
    hide Inv;
    if n == 0 {
      InitInv(states[0]);
    } else {
      RunKeepsInv(states, steps, n - 1);
      assert Enabled(states[n - 1], steps[n - 1]) && states[n - 1 + 1] == Next(states[n - 1], steps[n - 1]);
      StepKeepsInv(states[n - 1], steps[n - 1], Bound(states[0]));
    }
  }

  lemma InitInv(s: State)
    requires Init(s)
    ensures Inv(s, Bound(s))
  {
    SubsetSize(FirstLives(s.rows, s.once), Live(s.rows));
  }

  /** Main result: environments that were never destroyed stay within the ceiling, or within what there was to begin with. */
  lemma NeverDestroyedWithinCeiling(states: seq<State>, steps: seq<Step>, n: nat)
    requires IsRun(states, steps) && n < |states|
    ensures |FirstLives(states[n].rows, states[n].once)| <= Bound(states[0])
  {
    RunKeepsInv(states, steps, n);
  }

  /** Main result: no lock outlives its holder: whoever is named by a branch lock or the admission lock is inside, once. */
  lemma LocksHaveHolders(states: seq<State>, steps: seq<Step>, n: nat)
    requires IsRun(states, steps) && n < |states|
    ensures var s := states[n];
      && (forall b :: b in s.held ==> HeldBy(s, b, s.held[b]))
      && (forall b, t :: HeldBy(s, b, t) ==> b in s.held && s.held[b] == t)
      && (forall t :: t in s.pc && InAdmission(s.pc[t]) <==> s.admission == Some(t))
  {
    hide Live, FirstLives;
    RunKeepsInv(states, steps, n);
  }

  /** A write that brings a destroyed row back: a push that redeploys it, or a close that tears it down once more. */
  predicate Revives(s: State, step: Step) {
    && step.Update? && Enabled(s, step)
    && var was := s.rows[s.pc[step.t].branch];
       CanTransition(was, step.to) && was == Destroyed && step.to != Destroyed
  }

  /** A write that makes a live row destroyed. */
  predicate Buries(s: State, step: Step) {
    && step.Update? && Enabled(s, step)
    && var was := s.rows[s.pc[step.t].branch];
       CanTransition(was, step.to) && was != Destroyed && step.to == Destroyed
  }

  /** The revivals among the steps from i up to n. */
  function Revivals(states: seq<State>, steps: seq<Step>, i: nat, n: nat): nat
    requires i <= n <= |steps| < |states|
  {
    if i == n then 0 else Revivals(states, steps, i, n - 1) + if Revives(states[n - 1], steps[n - 1]) then 1 else 0
  }

  function Burials(states: seq<State>, steps: seq<Step>, i: nat, n: nat): nat
    requires i <= n <= |steps| < |states|
  {
    if i == n then 0 else Burials(states, steps, i, n - 1) + if Buries(states[n - 1], steps[n - 1]) then 1 else 0
  }

  lemma StepChangesNet(s: State, step: Step)
    requires Enabled(s, step)
    ensures Next(s, step).net == s.net + (if Revives(s, step) then 1 else 0) - (if Buries(s, step) then 1 else 0)
  {
    hide Live;
  }

  lemma {:induction false} NetIsWrites(states: seq<State>, steps: seq<Step>, i: nat, n: nat)
    requires IsRun(states, steps) && i <= n <= |steps|
    ensures states[n].net == states[i].net + Revivals(states, steps, i, n) - Burials(states, steps, i, n)
  {
    hide Enabled, Next, Revives, Buries;
    if i < n {
      NetIsWrites(states, steps, i, n - 1);
      assert Enabled(states[n - 1], steps[n - 1]) && states[n - 1 + 1] == Next(states[n - 1], steps[n - 1]);
      StepChangesNet(states[n - 1], steps[n - 1]);
    }
  }

  /** Step i is the count that thread t still relies on in state n. */
  ghost predicate CountsAt(states: seq<State>, steps: seq<Step>, t: Thread, i: nat, n: nat)
    requires |states| == |steps| + 1
  {
    && i < n < |states| && steps[i] == Advance(t) && t in states[i].pc && states[i].pc[t].Missing?
    && forall m :: i < m <= n ==> t in states[m].pc && states[m].pc[t].Counted?
  }

  lemma {:induction false} SomeCount(states: seq<State>, steps: seq<Step>, t: Thread, n: nat) returns (i: nat)
    requires IsRun(states, steps) && n < |states|
    requires t in states[n].pc && states[n].pc[t].Counted?
    ensures CountsAt(states, steps, t, i, n)
  {
    hide Live;
    assert n > 0;
    assert Enabled(states[n - 1], steps[n - 1]) && states[n - 1 + 1] == Next(states[n - 1], steps[n - 1]);
    if t in states[n - 1].pc && states[n - 1].pc[t].Counted? {
      i := SomeCount(states, steps, t, n - 1);
    } else {
      i := n - 1;
    }
  }

  lemma {:induction false} CountIsKept(states: seq<State>, steps: seq<Step>, t: Thread, i: nat, n: nat)
    requires IsRun(states, steps) && CountsAt(states, steps, t, i, n)
    ensures states[n].pc[t].live == |Live(states[i].rows)| && states[n].pc[t].seen == states[i].net
  {
    hide Live;
    assert Enabled(states[n - 1], steps[n - 1]) && states[n - 1 + 1] == Next(states[n - 1], steps[n - 1]);
    if i + 1 < n { CountIsKept(states, steps, t, i, n - 1); }
  }

  /**
   Main result: a creating step leaves live what its thread counted, itself, and the rows revived since the count less
   those destroyed since; so it respects the ceiling if and only if those revivals do not outnumber those
   destructions by more than the slots the count left free.
   */
  lemma CreationCount(states: seq<State>, steps: seq<Step>, i: nat, n: nat)
    requires IsRun(states, steps) && n < |steps| && Creates(states[n], steps[n])
    requires CountsAt(states, steps, steps[n].t, i, n)
    ensures var counted := |Live(states[i].rows)|;
      var revived, buried := Revivals(states, steps, i, n), Burials(states, steps, i, n);
      && counted < states[n].max
      && |Live(states[n + 1].rows)| == counted + 1 + revived - buried
      && (|Live(states[n + 1].rows)| <= states[n].max <==> revived <= buried + (states[n].max - counted - 1))
  {
    hide Live, Revivals, Burials, FirstLives;
    RunKeepsInv(states, steps, n);
    assert Enabled(states[n], steps[n]) && states[n + 1] == Next(states[n], steps[n]);
    CreateEffect(states[n], steps[n].t, states[n].pc[steps[n].t].branch);
    CountIsKept(states, steps, steps[n].t, i, n);
    NetIsWrites(states, steps, i, n);
  }

  lemma {:induction false} NoneRevived(states: seq<State>, steps: seq<Step>, i: nat, n: nat)
    requires i <= n <= |steps| < |states|
    requires forall m :: i <= m < n ==> !Revives(states[m], steps[m])
    ensures Revivals(states, steps, i, n) == 0
  {
    if i < n { NoneRevived(states, steps, i, n - 1); }
  }

  /** Main result: a creation with no revival since its count leaves at most the ceiling live. */
  lemma CreationWithinCeiling(states: seq<State>, steps: seq<Step>, n: nat) returns (i: nat)
    requires IsRun(states, steps) && n < |steps| && Creates(states[n], steps[n])
    ensures CountsAt(states, steps, steps[n].t, i, n)
    ensures (forall m :: i <= m < n ==> !Revives(states[m], steps[m])) ==> |Live(states[n + 1].rows)| <= states[n].max
  {
    hide Live, Revives;
    i := SomeCount(states, steps, steps[n].t, n);
    CreationCount(states, steps, i, n);
    if forall m :: i <= m < n ==> !Revives(states[m], steps[m]) {
      NoneRevived(states, steps, i, n);
    }
  }

  // A run with ceiling one. A close takes the destroyed branch's lock and finds its row; a push of another branch counts
  // no live row; the close writes destroying; the push creates its row.
  function ExampleStep(i: nat): Step {
    match i
    case 0 => Start(0, "old", false)
    case 3 => Start(1, "new", true)
    case 8 => Update(0, Destroying)
    case _ => Advance(if i < 3 then 0 else 1)
  }

  function ExamplePC(i: nat): map<Thread, PC> {
    map[0 := if i == 0 then Idle else if i == 1 then Wanting("old", false) else if i == 2 then Locked("old", false)
             else Working("old"),
        1 := if i <= 3 then Idle else if i == 4 then Wanting("new", true) else if i == 5 then Locked("new", true)
             else if i == 6 then Admitting("new") else if i == 7 then Missing("new")
             else if i <= 9 then Counted("new", 0, 0) else Admitted("new")]
  }

  function ExampleState(i: nat): State {
    State(1,
      if i <= 8 then map["old" := Destroyed] else if i == 9 then map["old" := Destroying]
      else map["old" := Destroying, "new" := Pending],
      if i < 6 then None else Some(1),
      if i < 2 then map[] else if i < 5 then map["old" := 0] else map["old" := 0, "new" := 1],
      ExamplePC(i), if i <= 8 then 0 else 1, {"old"})
  }

  predicate ExampleHolds(i: nat) {
    Enabled(ExampleState(i), ExampleStep(i)) && ExampleState(i + 1) == Next(ExampleState(i), ExampleStep(i))
  }

  lemma ExampleBegins()
    ensures ExampleHolds(0) && ExampleHolds(1) && ExampleHolds(2)
  {
  }

  lemma ExampleAdmits()
    ensures ExampleHolds(3) && ExampleHolds(4) && ExampleHolds(5) && ExampleHolds(6)
  {
  }

  lemma ExampleEnds()
    ensures ExampleHolds(7) && ExampleHolds(8) && ExampleHolds(9)
  {
    assert Live(map["old" := Destroyed]) == {};
  }

  lemma ExampleOverruns()
    ensures Init(ExampleState(0)) && Creates(ExampleState(9), ExampleStep(9))
    ensures ExampleState(10).max == 1 && |Live(ExampleState(10).rows)| == 2
  {
    assert Live(ExampleState(10).rows) == {"old", "new"};
  }

  lemma ExampleRuns(i: nat)
    requires i < 10
    ensures ExampleHolds(i)
  {
    hide ExampleHolds;
    ExampleBegins();
    ExampleAdmits();
    ExampleEnds();
    assert i == 0 || i == 1 || i == 2 || i == 3 || i == 4 || i == 5 || i == 6 || i == 7 || i == 8 || i == 9;
  }

  /** Such revivals do occur: a run with a ceiling of one in which one comes between count and creation leaves two live. */
  lemma RevivalOverrunsCeiling(states: seq<State>, steps: seq<Step>)
    requires states == seq(11, i requires 0 <= i < 11 => ExampleState(i))
    requires steps == seq(10, i requires 0 <= i < 10 => ExampleStep(i))
    ensures IsRun(states, steps)
    ensures Creates(states[9], steps[9]) && states[10].max == 1 && |Live(states[10].rows)| == 2
  {
    hide ExampleState, ExampleStep, Init, Creates, Live, Enabled, Next;
    ExampleOverruns();
    forall i | 0 <= i < |steps| ensures Enabled(states[i], steps[i]) && states[i + 1] == Next(states[i], steps[i]) {
      ExampleRuns(i);
      assert states[i + 1] == ExampleState(i + 1);
    }
  }
}
