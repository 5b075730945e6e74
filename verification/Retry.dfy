/** Processing one event: claim, outcome, and the retry budget with its jittered backoff. */
module Retry {
  import opened Wrappers
  import opened Calls
  import opened Lifecycle
  import opened EventTable

  const MaxEventAttempts: nat := 10
  const MaxDelay: int := 300 * Second

  function Min(a: int, b: int): int {
    if a < b then a else b
  }

  function RetryDelay(attempt: int): int {
    var a := if attempt < 1 then 1 else attempt;
    var d := Pow2(Min(a - 1, 8)) * Second;
    if d > MaxDelay then MaxDelay else d
  }

  /** draw stands for rand.Int64N(n), which lies in [0, n). */
  function FullJitter(d: int, draw: nat): int {
    if d <= 0 then 0
    else
      var half := d / 2;
      half + draw % (d - half + 1)
  }

  function Delay(attempt: int, draw: nat): int {
    FullJitter(RetryDelay(attempt), draw)
  }

  datatype Outcome = Succeeded | FailedTransiently | FailedForGood

  /** Records a failure of the event as the worker last read it. */
  function ScheduleRetry(t: Table, ev: Event, terminal: bool, at: int, draw: nat, cause: string): Table {
    var attempt := ev.attempts + 1;
    if terminal || attempt >= MaxEventAttempts then Settled(t, MarkEventDeadLettered(t, ev.id, at, cause))
    else Settled(t, MarkEventRetry(t, ev.id, at + Delay(attempt, draw), cause))
  }

  function Finish(t: Table, ev: Event, outcome: Outcome, at: int, draw: nat, cause: string): Table {
    if outcome == Succeeded then Settled(t, MarkEventProcessed(t, ev.id, at))
    else ScheduleRetry(t, ev, outcome == FailedForGood, at, draw, cause)
  }

  // One call of ProcessEvent: the clock read for the claim, the one the lease is counted from,
  // what dispatching the event led to, the clock and the random draw when that was recorded.
  datatype Try = Try(claimAt: int, leaseFrom: int, outcome: Outcome, at: int, draw: nat, cause: string)

  function Process(t: Table, ev: Event, how: Try): Table {
    var (t1, claimed) := ClaimEvent(t, ev.id, how.claimAt, how.leaseFrom + LeaseTime);
    if claimed then Finish(t1, ev, how.outcome, how.at, how.draw, how.cause) else t
  }

  predicate Claimable(t: Table, id: string, how: Try) {
    id in t && Due(t[id], how.claimAt)
  }

  predicate ShowsLastTry(ev: Event) {
    ev.attempts >= 9
  }

  /** The row of a successful event: stamped, and but for its lease as it was. */
  predicate MarkedProcessed(was: Event, row: Event, how: Try) {
    row == was.(processedAt := Some(how.at), nextAttemptAt := Some(how.leaseFrom + 600 * Second))
  }

  /** The row of an event given up: one more attempt, nothing scheduled, the cause kept for the operator. */
  predicate GivenUp(was: Event, row: Event, how: Try) {
    row == was.(attempts := was.attempts + 1, deadLetteredAt := Some(how.at), nextAttemptAt := None, lastError := how.cause)
  }

  /** The row of an event to be tried again: one more attempt, and the next one after between half of a delay and all of it. */
  predicate Rescheduled(was: Event, row: Event, how: Try, delay: int) {
    && row.nextAttemptAt.Some?
    && delay <= 2 * (row.nextAttemptAt.value - how.at) && row.nextAttemptAt.value - how.at <= delay
    && row == was.(attempts := was.attempts + 1, nextAttemptAt := row.nextAttemptAt, lastError := how.cause)
  }

  /** What becomes of a claimed event, field by field, whatever snapshot the worker carries; every other row stays. */
  predicate Recorded(t: Table, t': Table, ev: Event, how: Try)
    requires ev.id in t
  {
    && t'.Keys == t.Keys && (forall id :: id in t && id != ev.id ==> t'[id] == t[id])
    && var was, row := t[ev.id], t'[ev.id];
       match how.outcome
       case Succeeded => MarkedProcessed(was, row, how)
       case FailedForGood => GivenUp(was, row, how)
       case FailedTransiently =>
         if ShowsLastTry(ev) then GivenUp(was, row, how)
         else Rescheduled(was, row, how, Pow2(ev.attempts) * Second)
  }

  /**
   Main result: an event nobody may claim is left alone; a claimed one is stamped exactly if it succeeded, and given up
   exactly if it failed for good or failed on a snapshot showing nine attempts or more, else tried again.
   */
  lemma ProcessRecords(t: Table, ev: Event, how: Try)
    ensures var t' := Process(t, ev, how);
      if Claimable(t, ev.id, how) then Recorded(t, t', ev, how) else t' == t
  {
    DelayBounds(ev.attempts + 1, how.draw);
    hide Delay, RetryDelay, Pow2;
  }

  /** The worker over the store; how the event's kind is dispatched is summed up in the outcome. */
  method ProcessEvent(st: EventStore, ev: Event, how: Try)
    modifies st
    ensures st.events == Process(old(st.events), ev, how)
    ensures if Claimable(old(st.events), ev.id, how) then Recorded(old(st.events), st.events, ev, how)
            else st.events == old(st.events)
  {
    ghost var t := st.events;
    ProcessRecords(t, ev, how);
    var claimed := st.Claim(ev.id, how.claimAt, how.leaseFrom + LeaseTime);
    if !claimed { return; }
    if how.outcome == Succeeded {
      var _ := st.MarkProcessed(ev.id, how.at);
      return;
    }
    var attempt := ev.attempts + 1;
    if how.outcome == FailedForGood || attempt >= MaxEventAttempts {
      var _ := st.MarkDeadLettered(ev.id, how.at, how.cause);
    } else {
      var _ := st.MarkRetry(ev.id, how.at + Delay(attempt, how.draw), how.cause);
    }
  }

  // ---------- the retry budget ----------

  lemma {:induction false} Pow2Grows(m: nat, n: nat)
    requires m <= n
    ensures Pow2(m) <= Pow2(n)
    decreases n
  {
    if m < n { Pow2Grows(m, n - 1); }
  }

  /** No delay exceeds 256 seconds, so the five-minute cap never bites. */
  lemma DelayBounds(attempt: int, draw: nat)
    ensures var d := RetryDelay(attempt);
      && Second <= d <= 256 * Second
      && (1 <= attempt <= 9 ==> d == Pow2(attempt - 1) * Second)
      && d <= 2 * Delay(attempt, draw) && Delay(attempt, draw) <= d
  {
    var a := if attempt < 1 then 1 else attempt;
    Pow2Grows(0, Min(a - 1, 8));
    Pow2Grows(Min(a - 1, 8), 8);
    assert Pow2(8) == 256 by { assert Pow2(4) == 16; }
    HalfOfSeconds(Pow2(Min(a - 1, 8)));
  }

  lemma HalfOfSeconds(n: nat)
    ensures (n * Second) / 2 * 2 == n * Second
  {
    assert n * Second == (n * 500_000_000) * 2;
  }

  /** The sum of the delays of attempts 1 to n. */
  function TotalDelay(draws: seq<nat>): int {
    if draws == [] then 0 else TotalDelay(draws[..|draws| - 1]) + Delay(|draws|, draws[|draws| - 1])
  }

  lemma {:induction false} TotalBounds(draws: seq<nat>)
    requires |draws| <= 9
    ensures (Pow2(|draws|) - 1) * Second <= 2 * TotalDelay(draws)
    ensures TotalDelay(draws) <= (Pow2(|draws|) - 1) * Second
  {
    if draws != [] {
      TotalBounds(draws[..|draws| - 1]);
      DelayBounds(|draws|, draws[|draws| - 1]);
    }
  }

  /** Nine retries are scheduled in all: between 255.5 and 511 seconds of backoff. */
  lemma NineRetries(draws: seq<nat>)
    requires |draws| == 9
    ensures 255_500_000_000 <= TotalDelay(draws) <= 511 * Second
  {
    TotalBounds(draws);
    assert Pow2(9) == 512 by { assert Pow2(5) == 32; }
  }

  /** Tries of one event, each on a fresh snapshot, each claiming it, each failing transiently. */
  ghost predicate RetryRun(ts: seq<Table>, id: string, tries: seq<Try>) {
    && |ts| == |tries| + 1
    && forall i {:trigger tries[i]} :: 0 <= i < |tries| ==>
         && id in ts[i] && ts[i][id].id == id && Due(ts[i][id], tries[i].claimAt)
         && tries[i].outcome == FailedTransiently
         && ts[i + 1] == Process(ts[i], ts[i][id], tries[i])
  }

  /** A transient failure recorded from a fresh snapshot: one more attempt, and either a retry or the dead letter. */
  lemma FailureWrites(t: Table, id: string, how: Try)
    requires id in t && t[id].id == id && Due(t[id], how.claimAt) && how.outcome == FailedTransiently
    ensures var e, t' := t[id], Process(t, t[id], how);
      && id in t' && t'[id].id == id && t'[id].attempts == e.attempts + 1 && t'[id].processedAt.None?
      && (t'[id].deadLetteredAt.Some? <==> e.attempts + 1 >= MaxEventAttempts)
      && (e.attempts + 1 < MaxEventAttempts ==> t'[id].nextAttemptAt == Some(how.at + Delay(e.attempts + 1, how.draw)))
  {
    hide Delay;
  }

  /**
   Main result: an event that always fails is tried at most ten times; the k-th failure but the tenth schedules a retry
   between half and all of 2^(k-1) seconds later, the tenth dead-letters it, and no claim succeeds after that.
   */
  lemma {:induction false} RetryBudget(ts: seq<Table>, id: string, tries: seq<Try>, k: nat)
    requires RetryRun(ts, id, tries) && k <= |tries|
    requires id in ts[0] && ts[0][id].id == id && ts[0][id].attempts == 0 && !Retired(ts[0][id])
    ensures k <= MaxEventAttempts
    ensures id in ts[k] && ts[k][id].id == id && ts[k][id].attempts == k && ts[k][id].processedAt.None?
    ensures ts[k][id].deadLetteredAt.Some? <==> k == MaxEventAttempts
    ensures 1 <= k < MaxEventAttempts ==>
      var wait := Delay(k, tries[k - 1].draw);
      ts[k][id].nextAttemptAt == Some(tries[k - 1].at + wait)
      && Pow2(k - 1) * Second <= 2 * wait && wait <= Pow2(k - 1) * Second
    ensures k == MaxEventAttempts ==> forall now, lease :: !ClaimEvent(ts[k], id, now, lease).1
  {
    if k > 0 {
      RetryBudget(ts, id, tries, k - 1);
      var how := tries[k - 1];
      var before, row := ts[k - 1], ts[k - 1][id];
      assert Due(row, how.claimAt) && ts[k - 1 + 1] == Process(before, row, how);
      DelayBounds(k, how.draw);
      FailureWrites(before, id, how);
    }
  }

  // ---------- snapshots of any age ----------

  /** A worker carrying the snapshot ev claims the event and fails transiently. */
  predicate TransientTry(t: Table, t': Table, id: string, ev: Event, how: Try) {
    && ev.id == id && id in t && Due(t[id], how.claimAt) && how.outcome == FailedTransiently
    && t' == Process(t, ev, how)
  }

  /** Such tries one after the other, on whatever snapshots the workers carried. */
  ghost predicate TransientRun(ts: seq<Table>, id: string, evs: seq<Event>, tries: seq<Try>) {
    && |ts| == |tries| + 1 && |evs| == |tries|
    && forall i {:trigger tries[i]} :: 0 <= i < |tries| ==> TransientTry(ts[i], ts[i + 1], id, evs[i], tries[i])
  }

  /** A new event, not yet tried. */
  predicate Untried(t: Table, id: string) {
    id in t && t[id].id == id && t[id].attempts == 0 && !Retired(t[id])
  }

  /**
   Main result: every failure is counted in the table, but the event is dead-lettered exactly once some failure was
   decided on a snapshot showing nine attempts or more, which ends the run.
   */
  lemma {:induction false} CapFollowsSnapshots(ts: seq<Table>, id: string, evs: seq<Event>, tries: seq<Try>, k: nat)
    requires TransientRun(ts, id, evs, tries) && k <= |tries| && Untried(ts[0], id)
    ensures id in ts[k] && ts[k][id].attempts == k && ts[k][id].processedAt.None?
    ensures ts[k][id].deadLetteredAt.Some? <==> exists i :: 0 <= i < k && ShowsLastTry(evs[i])
    ensures forall i :: 0 <= i < k - 1 ==> !ShowsLastTry(evs[i])
  {
    hide ShowsLastTry, Untried;
    if k == 0 {
      UntriedRow(ts[0], id);
    } else {
      CapFollowsSnapshots(ts, id, evs, tries, k - 1);
      var before, ev, how := ts[k - 1], evs[k - 1], tries[k - 1];
      assert TransientTry(before, ts[k - 1 + 1], id, ev, how);
      SnapshotDecides(before, ev, how);
      assert ts[k][id].deadLetteredAt.Some? <==> ShowsLastTry(evs[k - 1]);
    }
  }

  lemma UntriedRow(t: Table, id: string)
    requires Untried(t, id)
    ensures id in t && t[id].attempts == 0 && t[id].processedAt.None? && t[id].deadLetteredAt.None?
  {
  }

  lemma SnapshotDecides(t: Table, ev: Event, how: Try)
    requires ev.id in t && Due(t[ev.id], how.claimAt) && how.outcome == FailedTransiently
    ensures var t' := Process(t, ev, how);
      && ev.id in t' && t'[ev.id].attempts == t[ev.id].attempts + 1 && t'[ev.id].processedAt.None?
      && (t'[ev.id].deadLetteredAt.Some? <==> ShowsLastTry(ev))
  {
    hide Delay;
  }

  /** Snapshots that are rows of the event as it once stood: none shows more attempts than had failed by then. */
  predicate Past(evs: seq<Event>) {
    forall i :: 0 <= i < |evs| ==> evs[i].attempts <= i
  }

  /** How many of the first k decisions were made on a snapshot that had been overtaken. */
  function StaleOnes(evs: seq<Event>, k: nat): nat
    requires k <= |evs|
  {
    if k == 0 then 0 else StaleOnes(evs, k - 1) + if evs[k - 1].attempts < k - 1 then 1 else 0
  }

  /** On snapshots that once were true the event is never given up early, and at the tenth failure if the last was current. */
  lemma TenthFailure(ts: seq<Table>, id: string, evs: seq<Event>, tries: seq<Try>, k: nat)
    requires TransientRun(ts, id, evs, tries) && k <= |tries| && Untried(ts[0], id) && Past(evs)
    ensures id in ts[k]
    ensures k < MaxEventAttempts ==> ts[k][id].deadLetteredAt.None?
    ensures k == MaxEventAttempts ==> (ts[k][id].deadLetteredAt.Some? <==> evs[9].attempts == 9)
  {
    CapFollowsSnapshots(ts, id, evs, tries, k);
    if k == MaxEventAttempts {
      assert forall i :: 0 <= i < k && ShowsLastTry(evs[i]) ==> i == 9;
    }
  }

  /** Main result: there are at most ten tries and one more for every decision made on an overtaken snapshot. */
  lemma {:induction false} TriesAreBounded(ts: seq<Table>, id: string, evs: seq<Event>, tries: seq<Try>)
    requires TransientRun(ts, id, evs, tries) && Untried(ts[0], id) && Past(evs)
    ensures |tries| <= MaxEventAttempts + StaleOnes(evs, |evs|)
  {
    CapFollowsSnapshots(ts, id, evs, tries, |tries|);
    if |tries| > MaxEventAttempts { LateOnesAreStale(evs, |tries| - 1); }
  }

  lemma {:induction false} LateOnesAreStale(evs: seq<Event>, k: nat)
    requires k < |evs| && Past(evs)
    requires forall i :: 0 <= i < k ==> !ShowsLastTry(evs[i])
    ensures k <= 9 + StaleOnes(evs, k)
    ensures StaleOnes(evs, k) <= StaleOnes(evs, |evs|)
  {
    StaleOnesGrow(evs, k, |evs|);
    if k > 9 {
      LateOnesAreStale(evs, k - 1);
      assert !ShowsLastTry(evs[k - 1]);
    }
  }

  lemma {:induction false} StaleOnesGrow(evs: seq<Event>, k: nat, n: nat)
    requires k <= n <= |evs|
    ensures StaleOnes(evs, k) <= StaleOnes(evs, n)
  {
    if k < n { StaleOnesGrow(evs, k, n - 1); }
  }

  // ---------- the queued snapshot ----------

  /** A delivery as it is stored, and as the very same row is put on the webhook queue. */
  const Queued: Event := Event("e", "", "webhook_received", "d", "", 0, Some(0), "", None, None, 0)

  function FailingTry(i: nat): Try {
    Try(i * 300 * Second, i * 300 * Second, FailedTransiently, i * 300 * Second, 0, "")
  }

  /** What the i-th claim is made on: the row as polled, but at the tenth try the queued one. */
  function Shown(t: Table, i: nat): Event {
    if i == 9 || Queued.id !in t then Queued else t[Queued.id]
  }

  /** The table after i failures, five minutes apart. */
  function After(i: nat): Table {
    if i == 0 then map[Queued.id := Queued] else Process(After(i - 1), Shown(After(i - 1), i - 1), FailingTry(i - 1))
  }

  lemma {:induction false} RowAfter(i: nat)
    requires i <= 11
    ensures Queued.id in After(i)
    ensures var row := After(i)[Queued.id];
      && row.id == Queued.id && row.attempts == i && row.processedAt.None?
      && (row.deadLetteredAt.Some? <==> i == 11)
      && (i < 11 ==> Due(row, FailingTry(i).claimAt))
  {
    hide Process, Due, FailingTry;
    if i == 0 {
      FirstRow();
    } else {
      RowAfter(i - 1);
      FailureIsPast(After(i - 1), Shown(After(i - 1), i - 1), i - 1);
    }
  }

  lemma FirstRow()
    ensures Due(Queued, FailingTry(0).claimAt)
  {
  }

  lemma FailureIsPast(t: Table, ev: Event, i: nat)
    requires ev.id in t && t[ev.id].id == ev.id && Due(t[ev.id], FailingTry(i).claimAt)
    ensures var t' := Process(t, ev, FailingTry(i));
      && ev.id in t' && t'[ev.id].id == ev.id
      && t'[ev.id].attempts == t[ev.id].attempts + 1 && t'[ev.id].processedAt.None?
      && (t'[ev.id].deadLetteredAt.Some? <==> ShowsLastTry(ev))
      && (!ShowsLastTry(ev) ==> Due(t'[ev.id], FailingTry(i + 1).claimAt))
  {
    DelayBounds(ev.attempts + 1, 0);
    hide Delay, RetryDelay;
  }

  lemma StepOfWitness(i: nat)
    requires i < 11
    ensures var t, ev := After(i), Shown(After(i), i);
      && Queued.id in t && ev.id == Queued.id && Due(t[Queued.id], FailingTry(i).claimAt)
      && After(i + 1) == Process(t, ev, FailingTry(i))
      && ev.attempts == (if i == 9 then 0 else i) && (ev == if i == 9 then Queued else t[Queued.id])
  {
    RowAfter(i);
  }

  ghost predicate IsWitness(ts: seq<Table>, evs: seq<Event>, tries: seq<Try>) {
    && |ts| == 12 && |evs| == 11 && |tries| == 11
    && (forall i :: 0 <= i < 12 ==> ts[i] == After(i))
    && (forall i :: 0 <= i < 11 ==> evs[i] == Shown(After(i), i))
    && (forall i :: 0 <= i < 11 ==> tries[i] == FailingTry(i))
  }

  lemma WitnessIsRun(ts: seq<Table>, evs: seq<Event>, tries: seq<Try>)
    requires IsWitness(ts, evs, tries)
    ensures TransientRun(ts, Queued.id, evs, tries)
  {
    hide After, Process, Due, Shown;
    forall i | 0 <= i < |tries| ensures TransientTry(ts[i], ts[i + 1], Queued.id, evs[i], tries[i]) {
      StepOfWitness(i);
      assert ts[i + 1] == After(i + 1);
    }
  }

  lemma WitnessIsPast(ts: seq<Table>, evs: seq<Event>, tries: seq<Try>)
    requires IsWitness(ts, evs, tries)
    ensures Past(evs) && StaleOnes(evs, |evs|) == 1
  {
    hide After, Process, Due, Shown, FailingTry, StaleOnes;
    forall i | 0 <= i < 11 ensures evs[i].attempts == if i == 9 then 0 else i {
      StepOfWitness(i);
    }
    NineCurrent(evs);
  }

  /** The row as it stands, where there is one. */
  predicate Current(t: Table, ev: Event) {
    ev.id in t && ev == t[ev.id]
  }

  /**
   The queued row can still be waiting when nine polled tries have failed. Claimed then, it escapes the cap: the event
   outlives its tenth failure, and the next current snapshot retires it, so the bound of TriesAreBounded is reached.
   */
  lemma QueuedSnapshotOutlivesTheCap() returns (ts: seq<Table>, evs: seq<Event>, tries: seq<Try>)
    ensures TransientRun(ts, Queued.id, evs, tries) && Untried(ts[0], Queued.id) && Past(evs)
    ensures |tries| == 11 == MaxEventAttempts + StaleOnes(evs, |evs|)
    ensures Current(ts[0], evs[9]) && forall i :: 0 <= i < 11 && i != 9 ==> Current(ts[i], evs[i])
    ensures Queued.id in ts[10] && ts[10][Queued.id].deadLetteredAt.None?
  {
    hide After, Process, Due, Shown, FailingTry, StaleOnes, TransientRun, Untried, Past;
    ts := seq(12, i requires 0 <= i < 12 => After(i));
    evs := seq(11, i requires 0 <= i < 11 => Shown(After(i), i));
    tries := seq(11, i requires 0 <= i < 11 => FailingTry(i));
    WitnessIsRun(ts, evs, tries);
    WitnessIsPast(ts, evs, tries);
    forall i | 0 <= i < 11 ensures if i == 9 then evs[i] == Queued else Current(ts[i], evs[i]) {
      StepOfWitness(i);
    }
    WitnessBegins();
    RowAfter(10);
  }

  lemma WitnessBegins()
    ensures Untried(After(0), Queued.id) && Current(After(0), Queued)
  {
  }

  lemma NineCurrent(evs: seq<Event>)
    requires |evs| == 11 && evs[9].attempts == 0 && forall i :: 0 <= i < 11 && i != 9 ==> evs[i].attempts == i
    ensures StaleOnes(evs, 11) == 1
  {
    NoneStale(evs, 9);
    assert StaleOnes(evs, 10) == 1;
  }

  lemma {:induction false} NoneStale(evs: seq<Event>, k: nat)
    requires k <= |evs| && forall i :: 0 <= i < k ==> evs[i].attempts == i
    ensures StaleOnes(evs, k) == 0
  {
    if k > 0 { NoneStale(evs, k - 1); }
  }
}
