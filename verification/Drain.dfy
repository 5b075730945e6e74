/** One poller draining a finite inbox: every poll lowers a potential, so oldest-first batches retire every event. */
module Drain {
  import opened EventTable
  import opened Retry

  const BatchSize: nat := 100

  function ProcessAll(t: Table, batch: seq<Event>, hows: seq<Try>): Table
    requires |hows| == |batch|
    decreases |batch|
  {
    if batch == [] then t else ProcessAll(Process(t, batch[0], hows[0]), batch[1..], hows[1..])
  }

  /** The daemon's replay of a batch, taken one event after the other. */
  method ReplayEvents(st: EventStore, batch: seq<Event>, hows: seq<Try>)
    requires |hows| == |batch|
    modifies st
    ensures st.events == ProcessAll(old(st.events), batch, hows)
  {
    ghost var goal := ProcessAll(st.events, batch, hows);
    for i := 0 to |batch|
      invariant goal == ProcessAll(st.events, batch[i..], hows[i..])
    {
      assert batch[i..][1..] == batch[i + 1..] && hows[i..][1..] == hows[i + 1..];
      ProcessEvent(st, batch[i], hows[i]);
    }
  }

  /** A batch as ListDueEvents returns it. */
  ghost predicate IsBatch(t: Table, now: int, batch: seq<Event>) {
    exists ids :: Oldest(t, DueIds(t, now), BatchSize, ids)
      && |batch| == |ids| && forall i :: 0 <= i < |ids| ==> batch[i] == t[ids[i]]
  }

  method Poll(st: EventStore, now: int) returns (batch: seq<Event>)
    ensures IsBatch(st.events, now, batch)
    ensures |batch| <= 100 && forall i :: 0 <= i < |batch| ==> Due(batch[i], now)
  {
    batch := st.ListDue(now, BatchSize);
  }

  // ---------- the potential ----------

  function TriesLeft(t: Table, id: string): nat {
    if id in t && !Retired(t[id]) && t[id].attempts < MaxEventAttempts then MaxEventAttempts - t[id].attempts else 0
  }

  /** Tries left over all pending events, where ids lists the keys of the table. */
  function Remaining(t: Table, ids: seq<string>): nat {
    if ids == [] then 0 else TriesLeft(t, ids[0]) + Remaining(t, ids[1..])
  }

  /** Rows are stored under their id, and pending rows have tries left: true of new events, kept by fresh snapshots. */
  ghost predicate Budgeted(t: Table, ids: seq<string>) {
    forall id :: id in t ==> id in ids && t[id].id == id && (!Retired(t[id]) ==> t[id].attempts < MaxEventAttempts)
  }

  predicate OnlyRow(t: Table, t': Table, id: string) {
    t'.Keys == t.Keys && forall other :: other in t && other != id ==> t'[other] == t[other]
  }

  /** Processing a due event on a fresh snapshot adds no event, touches only its row, and uses up a try. */
  lemma ProcessLowers(t: Table, id: string, how: Try, ids: seq<string>)
    requires Budgeted(t, ids) && id in t && Due(t[id], how.claimAt)
    ensures var t' := Process(t, t[id], how);
      OnlyRow(t, t', id) && Budgeted(t', ids) && TriesLeft(t', id) < TriesLeft(t, id)
  {
    hide Delay;
  }

  lemma {:induction false} SumLowered(t: Table, t': Table, id: string, ids: seq<string>)
    requires OnlyRow(t, t', id) && TriesLeft(t', id) < TriesLeft(t, id)
    ensures Remaining(t', ids) + (if id in ids then 1 else 0) <= Remaining(t, ids)
  {
    if ids != [] {
      SumLowered(t, t', id, ids[1..]);
      assert ids[0] != id ==> TriesLeft(t', ids[0]) == TriesLeft(t, ids[0]);
    }
  }

  /** Distinct, current and due rows. */
  ghost predicate FreshBatch(t: Table, now: int, batch: seq<Event>, hows: seq<Try>) {
    && |hows| == |batch|
    && (forall i :: 0 <= i < |batch| ==>
          batch[i].id in t && batch[i] == t[batch[i].id] && Due(batch[i], now) && hows[i].claimAt >= now)
    && (forall i, j :: 0 <= i < j < |batch| ==> batch[i].id != batch[j].id)
  }

  lemma BatchIsFresh(t: Table, ids: seq<string>, now: int, batch: seq<Event>, hows: seq<Try>)
    requires Budgeted(t, ids) && IsBatch(t, now, batch)
    requires |hows| == |batch| && forall i :: 0 <= i < |hows| ==> hows[i].claimAt >= now
    ensures FreshBatch(t, now, batch, hows)
    ensures batch == [] ==> DueIds(t, now) == {}
  {
    var chosen :| Oldest(t, DueIds(t, now), BatchSize, chosen)
      && |batch| == |chosen| && forall i :: 0 <= i < |chosen| ==> batch[i] == t[chosen[i]];
    forall i | 0 <= i < |batch| ensures batch[i].id == chosen[i] && chosen[i] in DueIds(t, now) {}
  }

  /** Every event of a batch uses up at least one try; no event is added. */
  lemma {:induction false} BatchLowers(t: Table, ids: seq<string>, now: int, batch: seq<Event>, hows: seq<Try>)
    requires Budgeted(t, ids) && FreshBatch(t, now, batch, hows)
    ensures var t' := ProcessAll(t, batch, hows);
      t'.Keys == t.Keys && Budgeted(t', ids) && Remaining(t', ids) + |batch| <= Remaining(t, ids)
    decreases |batch|
  {
    if batch != [] {
      var id := batch[0].id;
      ProcessLowers(t, id, hows[0], ids);
      var t1 := Process(t, batch[0], hows[0]);
      SumLowered(t, t1, id, ids);
      assert FreshBatch(t1, now, batch[1..], hows[1..]);
      BatchLowers(t1, ids, now, batch[1..], hows[1..]);
    }
  }

  // ---------- runs of polls ----------

  // until: no clock reading of the poll is later than this. pruned: the processed events older than the cut-off that the
  // poll deletes when it has replayed its batch, none on most polls.
  datatype PollRound = PollRound(now: int, batch: seq<Event>, hows: seq<Try>, until: int, pruned: set<string>, cutoff: int)

  function AfterPoll(t: Table, p: PollRound): Table
    requires |p.hows| == |p.batch|
  {
    ProcessAll(t, p.batch, p.hows) - p.pruned
  }

  ghost predicate IsPoll(t: Table, p: PollRound) {
    && IsBatch(t, p.now, p.batch) && |p.hows| == |p.batch|
    && (forall j :: 0 <= j < |p.hows| ==> p.hows[j].claimAt >= p.now)
    && p.pruned <= Prunable(ProcessAll(t, p.batch, p.hows), p.cutoff)
  }

  ghost predicate IsDrain(ts: seq<Table>, polls: seq<PollRound>) {
    && |ts| == |polls| + 1
    && forall i {:trigger polls[i]} :: 0 <= i < |polls| ==>
         IsPoll(ts[i], polls[i]) && ts[i + 1] == AfterPoll(ts[i], polls[i])
  }

  predicate Pending(t: Table, id: string) {
    id in t && !Retired(t[id])
  }

  lemma {:induction false} PendingLeavesTries(t: Table, ids: seq<string>, id: string)
    requires id in ids && TriesLeft(t, id) > 0
    ensures Remaining(t, ids) > 0
  {
    if ids[0] != id { PendingLeavesTries(t, ids[1..], id); }
  }

  ghost predicate AnyPending(t: Table) {
    exists id :: Pending(t, id)
  }

  /** The same rows are pending, and unchanged. */
  ghost predicate SamePending(t: Table, t': Table) {
    && (forall id :: Pending(t, id) <==> Pending(t', id))
    && (forall id :: Pending(t, id) ==> t'[id] == t[id])
  }

  /** Pruning processed rows takes no try away. */
  lemma {:induction false} PruneKeepsTries(t: Table, pruned: set<string>, ids: seq<string>)
    requires forall id :: id in pruned && id in t ==> Retired(t[id])
    ensures Remaining(t - pruned, ids) == Remaining(t, ids)
  {
    if ids != [] {
      PruneKeepsTries(t, pruned, ids[1..]);
      assert TriesLeft(t - pruned, ids[0]) == TriesLeft(t, ids[0]);
    }
  }

  lemma PruneKeepsPending(t: Table, pruned: set<string>, ids: seq<string>)
    requires Budgeted(t, ids) && forall id :: id in pruned && id in t ==> Retired(t[id])
    ensures Budgeted(t - pruned, ids) && SamePending(t, t - pruned) && (t - pruned).Keys <= t.Keys
  {
  }

  /** A poll either finds nothing due and leaves the pending rows alone, or uses up a try; it adds nothing pending. */
  lemma PollWorks(t: Table, p: PollRound, ids: seq<string>)
    requires Budgeted(t, ids) && IsPoll(t, p)
    ensures var t' := AfterPoll(t, p);
      && t'.Keys <= t.Keys && Budgeted(t', ids)
      && (AnyPending(t') ==> AnyPending(t))
      && (if p.batch == [] then SamePending(t, t') && Remaining(t', ids) == Remaining(t, ids) && DueIds(t, p.now) == {}
          else Remaining(t', ids) < Remaining(t, ids))
  {
    hide FreshBatch, IsBatch, Budgeted, Remaining;
    BatchIsFresh(t, ids, p.now, p.batch, p.hows);
    BatchLowers(t, ids, p.now, p.batch, p.hows);
    var t1, t' := ProcessAll(t, p.batch, p.hows), AfterPoll(t, p);
    assert forall id :: id in p.pruned ==> id in Prunable(t1, p.cutoff);
    PruneKeepsTries(t1, p.pruned, ids);
    PruneKeepsPending(t1, p.pruned, ids);
    if AnyPending(t') {
      var id :| Pending(t', id);
      if Retired(t[id]) { StaysRetired(t, p.batch, p.hows, id); }
      assert Pending(t, id);
    }
  }

  /** Between two polls the potential only falls, and if it does not, the pending rows have not changed at all. */
  lemma {:induction false} DrainProgress(ts: seq<Table>, polls: seq<PollRound>, ids: seq<string>, a: nat, b: nat)
    requires IsDrain(ts, polls) && a <= b <= |polls| && Budgeted(ts[a], ids)
    ensures ts[b].Keys <= ts[a].Keys && Budgeted(ts[b], ids)
    ensures Remaining(ts[b], ids) <= Remaining(ts[a], ids)
    ensures Remaining(ts[b], ids) == Remaining(ts[a], ids) ==> SamePending(ts[a], ts[b])
    ensures AnyPending(ts[b]) ==> AnyPending(ts[a])
    decreases b
  {
    hide AfterPoll, IsBatch, Prunable, ProcessAll, Budgeted, Remaining, AnyPending, DueIds, Pending;
    if a < b {
      DrainProgress(ts, polls, ids, a, b - 1);
      assert IsPoll(ts[b - 1], polls[b - 1]) && ts[b - 1 + 1] == AfterPoll(ts[b - 1], polls[b - 1]);
      PollWorks(ts[b - 1], polls[b - 1], ids);
    }
  }

  lemma ProcessKeepsRetired(t: Table, ev: Event, how: Try, id: string)
    requires id in t && Retired(t[id])
    ensures var t' := Process(t, ev, how); id in t' && Retired(t'[id])
  {
    hide Delay;
  }

  lemma {:induction false} StaysRetired(t: Table, batch: seq<Event>, hows: seq<Try>, id: string)
    requires |hows| == |batch| && id in t && Retired(t[id])
    ensures var t' := ProcessAll(t, batch, hows); id in t' && Retired(t'[id])
    decreases |batch|
  {
    if batch != [] {
      ProcessKeepsRetired(t, batch[0], hows[0], id);
      StaysRetired(Process(t, batch[0], hows[0]), batch[1..], hows[1..], id);
    }
  }

  lemma StillPending(t: Table, ids: seq<string>, id: string)
    requires Budgeted(t, ids) && Pending(t, id)
    ensures AnyPending(t) && Remaining(t, ids) > 0
  {
    PendingLeavesTries(t, ids, id);
  }

  // ---------- the passing of ten minutes ----------

  predicate SettledBy(t: Table, time: int) {
    forall id :: id in t && !Retired(t[id]) && t[id].nextAttemptAt.Some? ==> t[id].nextAttemptAt.value <= time + LeaseTime
  }

  /** A claim or a retry written by the given time leaves every pending event due ten minutes later. */
  lemma {:induction false} BatchSettles(t: Table, batch: seq<Event>, hows: seq<Try>, time: int)
    requires |hows| == |batch| && SettledBy(t, time)
    requires forall j :: 0 <= j < |hows| ==> hows[j].leaseFrom <= time && hows[j].at <= time
    ensures SettledBy(ProcessAll(t, batch, hows), time)
    decreases |batch|
  {
    if batch != [] {
      ProcessSettles(t, batch[0], hows[0], time);
      hide Process, SettledBy;
      BatchSettles(Process(t, batch[0], hows[0]), batch[1..], hows[1..], time);
    }
  }

  lemma ProcessSettles(t: Table, ev: Event, how: Try, time: int)
    requires SettledBy(t, time) && how.leaseFrom <= time && how.at <= time
    ensures SettledBy(Process(t, ev, how), time)
  {
    DelayBounds(ev.attempts + 1, how.draw);
    hide Delay;
  }

  /** One poller over a clock that does not run backwards: a poll ends before the next one begins. */
  ghost predicate Clocked(polls: seq<PollRound>) {
    && (forall i {:trigger polls[i]} :: 0 <= i < |polls| ==>
          var p := polls[i];
          p.now <= p.until && forall j :: 0 <= j < |p.hows| ==> p.hows[j].leaseFrom <= p.until && p.hows[j].at <= p.until)
    && (forall i, j :: 0 <= i && j == i + 1 && j < |polls| ==> polls[i].until <= polls[j].now)
  }

  /** Nothing written up to a poll stays out of reach for more than ten minutes after it. */
  lemma {:induction false} SettledAfter(ts: seq<Table>, polls: seq<PollRound>, n: nat)
    requires IsDrain(ts, polls) && Clocked(polls) && n < |polls|
    requires SettledBy(ts[0], polls[0].now)
    ensures SettledBy(ts[n + 1], polls[n].until)
  {
    hide ProcessAll, IsBatch;
    var t, p := ts[n], polls[n];
    assert IsPoll(t, p) && ts[n + 1] == AfterPoll(t, p);
    if n > 0 {
      SettledAfter(ts, polls, n - 1);
      var before := polls[n - 1];
      assert before.until <= p.now && p.now <= p.until;
      assert SettledBy(t, before.until);
    }
    BatchSettles(t, p.batch, p.hows, p.until);
  }

  /** Ten minutes after a poll, either nothing is pending or the polls since have used up a try. */
  lemma TenMinutesWork(ts: seq<Table>, polls: seq<PollRound>, ids: seq<string>, i: nat, j: nat)
    requires IsDrain(ts, polls) && Clocked(polls) && i < j < |polls|
    requires SettledBy(ts[0], polls[0].now) && Budgeted(ts[0], ids)
    requires polls[j].now >= polls[i].until + LeaseTime
    ensures Budgeted(ts[i + 1], ids) && Budgeted(ts[j + 1], ids)
    ensures AnyPending(ts[j + 1]) ==> AnyPending(ts[i + 1]) && Remaining(ts[j + 1], ids) < Remaining(ts[i + 1], ids)
  {
    hide AfterPoll, IsBatch, Prunable, ProcessAll, Budgeted, Remaining;
    DrainProgress(ts, polls, ids, 0, i + 1);
    DrainProgress(ts, polls, ids, i + 1, j);
    DrainProgress(ts, polls, ids, j, j + 1);
    var t, p := ts[j], polls[j];
    if AnyPending(ts[j + 1]) && Remaining(t, ids) == Remaining(ts[i + 1], ids) {
      SettledAfter(ts, polls, i);
      var id :| Pending(t, id);
      assert t[id] == ts[i + 1][id];
      assert id in DueIds(t, p.now);
      assert IsPoll(t, p) && ts[j + 1] == AfterPoll(t, p);
      PollWorks(t, p, ids);
    }
  }

  /** Some of the polls, each starting ten minutes after the one picked before it has ended; any others lie between. */
  ghost predicate Picks(polls: seq<PollRound>, picks: seq<nat>) {
    && (forall k :: 0 <= k < |picks| ==> picks[k] < |polls|)
    && (forall k, m :: 0 <= k && m == k + 1 && m < |picks| ==>
          picks[k] < picks[m] && polls[picks[m]].now >= polls[picks[k]].until + LeaseTime)
  }

  lemma {:induction false} PicksProgress(ts: seq<Table>, polls: seq<PollRound>, ids: seq<string>, picks: seq<nat>, n: nat)
    requires IsDrain(ts, polls) && Clocked(polls) && Picks(polls, picks) && n < |picks|
    requires polls != [] && SettledBy(ts[0], polls[0].now) && Budgeted(ts[0], ids)
    ensures Budgeted(ts[picks[n] + 1], ids)
    ensures AnyPending(ts[picks[n] + 1]) ==> Remaining(ts[picks[n] + 1], ids) + n <= Remaining(ts[0], ids)
  {
    hide IsDrain, Clocked, Budgeted, Remaining, AnyPending, SettledBy;
    if n == 0 {
      DrainProgress(ts, polls, ids, 0, picks[0] + 1);
    } else {
      PicksProgress(ts, polls, ids, picks, n - 1);
      assert picks[n - 1] < picks[n] && polls[picks[n]].now >= polls[picks[n - 1]].until + LeaseTime;
      TenMinutesWork(ts, polls, ids, picks[n - 1], picks[n]);
    }
  }

  /**
   Main result: polls at any spacing retire a finite inbox. As soon as there have been, ten minutes apart, one more of
   them than there were tries left, every event still stored is retired; none was added, and only processed ones pruned.
   */
  lemma DrainTerminates(ts: seq<Table>, polls: seq<PollRound>, ids: seq<string>, picks: seq<nat>)
    requires IsDrain(ts, polls) && Clocked(polls) && Picks(polls, picks)
    requires polls != [] && SettledBy(ts[0], polls[0].now) && Budgeted(ts[0], ids)
    requires |picks| > Remaining(ts[0], ids)
    ensures var t := ts[picks[|picks| - 1] + 1];
      t.Keys <= ts[0].Keys && forall id :: id in t ==> Retired(t[id])
  {
    hide Clocked, Remaining, TriesLeft, Budgeted, AnyPending, SettledBy, AfterPoll, IsBatch, Prunable, ProcessAll;
    var last := picks[|picks| - 1];
    PicksProgress(ts, polls, ids, picks, |picks| - 1);
    DrainProgress(ts, polls, ids, 0, last + 1);
    var t := ts[last + 1];
    forall id | id in t ensures Retired(t[id]) {
      if Pending(t, id) { StillPending(t, ids, id); }
    }
  }

  // ---------- a steady poller ----------

  /** No poll lasts longer than the first bound, and the next one starts within the second. */
  ghost predicate Steady(polls: seq<PollRound>, longest: nat, gap: nat) {
    && (forall i {:trigger polls[i]} :: 0 <= i < |polls| ==> polls[i].until <= polls[i].now + longest)
    && (forall i, j :: 0 <= i && j == i + 1 && j < |polls| ==> polls[j].now <= polls[i].until + gap)
  }

  /** The first poll from j on that starts at the given time or later. */
  lemma {:induction false} FirstFrom(polls: seq<PollRound>, longest: nat, gap: nat, time: int, j: nat) returns (first: nat)
    requires Steady(polls, longest, gap) && j < |polls|
    requires polls[j].now <= time + longest + gap && polls[|polls| - 1].now >= time
    ensures j <= first < |polls| && time <= polls[first].now <= time + longest + gap
    decreases |polls| - j
  {
    if polls[j].now >= time {
      first := j;
    } else {
      assert polls[j + 1].now <= polls[j].until + gap;
      first := FirstFrom(polls, longest, gap, time, j + 1);
    }
  }

  lemma {:induction false} SteadyPicks(polls: seq<PollRound>, longest: nat, gap: nat, n: nat) returns (picks: seq<nat>)
    requires Clocked(polls) && Steady(polls, longest, gap) && polls != []
    requires polls[|polls| - 1].now >= polls[0].now + n * (LeaseTime + 2 * longest + gap)
    ensures Picks(polls, picks) && |picks| == n + 1
    ensures polls[picks[n]].now <= polls[0].now + n * (LeaseTime + 2 * longest + gap)
  {
    hide Steady;
    if n == 0 {
      picks := [0];
    } else {
      var span := LeaseTime + 2 * longest + gap;
      OneSpanMore(n, span);
      var front := SteadyPicks(polls, longest, gap, n - 1);
      var j := NextPick(polls, longest, gap, front[n - 1], polls[0].now + n * span);
      picks := front + [j];
      PickMore(polls, front, j);
    }
  }

  lemma OneSpanMore(n: nat, span: nat)
    requires n > 0
    ensures (n - 1) * span + span == n * span
  {
  }

  /** A poll ten minutes after the given one is there if the polls go on for long enough. */
  lemma NextPick(polls: seq<PollRound>, longest: nat, gap: nat, i: nat, end: int) returns (j: nat)
    requires Clocked(polls) && Steady(polls, longest, gap) && i < |polls|
    requires polls[i].now + LeaseTime + 2 * longest + gap <= end <= polls[|polls| - 1].now
    ensures i < j < |polls| && polls[i].until + LeaseTime <= polls[j].now <= end
  {
    assert polls[i].now <= polls[i].until <= polls[i].now + longest;
    j := FirstFrom(polls, longest, gap, polls[i].until + LeaseTime, i);
  }

  lemma PickMore(polls: seq<PollRound>, front: seq<nat>, j: nat)
    requires Picks(polls, front) && front != [] && front[|front| - 1] < j < |polls|
    requires polls[j].now >= polls[front[|front| - 1]].until + LeaseTime
    ensures Picks(polls, front + [j])
  {
  }

  /**
   Main result: a poller that keeps polling retires a finite inbox within a known time: ten minutes and two polls and a
   pause for every try left.
   */
  lemma SteadyPollerDrains(ts: seq<Table>, polls: seq<PollRound>, ids: seq<string>, longest: nat, gap: nat)
    requires IsDrain(ts, polls) && Clocked(polls) && Steady(polls, longest, gap) && polls != []
    requires SettledBy(ts[0], polls[0].now) && Budgeted(ts[0], ids)
    requires polls[|polls| - 1].now >= polls[0].now + Remaining(ts[0], ids) * (LeaseTime + 2 * longest + gap)
    ensures var t := ts[|polls|];
      t.Keys <= ts[0].Keys && forall id :: id in t ==> Retired(t[id])
  {
    hide Remaining, TriesLeft, Budgeted, AnyPending, SettledBy, AfterPoll, IsBatch, Prunable, ProcessAll;
    var picks := SteadyPicks(polls, longest, gap, Remaining(ts[0], ids));
    DrainTerminates(ts, polls, ids, picks);
    var last := picks[|picks| - 1];
    DrainProgress(ts, polls, ids, 0, last + 1);
    DrainProgress(ts, polls, ids, last + 1, |polls|);
    var t := ts[|polls|];
    forall id | id in t ensures Retired(t[id]) {
      if Pending(t, id) { NothingLeft(ts[last + 1], t, id); }
    }
  }

  lemma NothingLeft(t: Table, t': Table, id: string)
    requires (forall x :: x in t ==> Retired(t[x])) && (AnyPending(t') ==> AnyPending(t))
    ensures !Pending(t', id)
  {
  }
}
