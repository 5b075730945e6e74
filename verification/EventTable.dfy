/** The durable events table: its statements as functions, and the store object that runs them (internal/store/sqlite.go). */
module EventTable {
  import opened Wrappers
  import opened Calls

  const WebhookReceived: string := "webhook_received"
  const LeaseTime: int := 600 * Second

  datatype Event = Event(
    id: string, environmentId: string, kind: string, dedupeKey: string, payload: string,
    attempts: nat, nextAttemptAt: Option<int>, lastError: string,
    processedAt: Option<int>, deadLetteredAt: Option<int>, createdAt: int)

  type Table = map<string, Event>

  datatype EventError = Conflict | NotFound

  predicate Retired(e: Event) {
    e.processedAt.Some? || e.deadLetteredAt.Some?
  }

  predicate Due(e: Event, now: int) {
    !Retired(e) && (e.nextAttemptAt.Some? ==> e.nextAttemptAt.value <= now)
  }

  /** The unique index on (kind, dedupe_key), which leaves rows without a delivery id alone. */
  predicate Duplicate(t: Table, e: Event) {
    e.dedupeKey != "" && exists id :: id in t && t[id].kind == e.kind && t[id].dedupeKey == e.dedupeKey
  }

  function CreateEvent(t: Table, e: Event, now: int): Result<Table, EventError> {
    if e.id in t || Duplicate(t, e) then Err(Conflict)
    else Ok(t[e.id := e.(createdAt := now, deadLetteredAt := None)])
  }

  /** The compare-and-set lease: succeeds only on a due row, and pushes its next attempt to the end of the lease. */
  function ClaimEvent(t: Table, id: string, now: int, leaseUntil: int): (Table, bool) {
    if id in t && Due(t[id], now) then (t[id := t[id].(nextAttemptAt := Some(leaseUntil))], true) else (t, false)
  }

  /** Unguarded: it also stamps rows that are already retired. */
  function MarkEventProcessed(t: Table, id: string, at: int): Result<Table, EventError> {
    if id in t then Ok(t[id := t[id].(processedAt := Some(at))]) else Err(NotFound)
  }

  function MarkEventRetry(t: Table, id: string, next: int, cause: string): Result<Table, EventError> {
    if id in t && !Retired(t[id]) then
      Ok(t[id := t[id].(attempts := t[id].attempts + 1, nextAttemptAt := Some(next), lastError := cause)])
    else Err(NotFound)
  }

  function MarkEventDeadLettered(t: Table, id: string, at: int, cause: string): Result<Table, EventError> {
    if id in t && !Retired(t[id]) then
      Ok(t[id := t[id].(attempts := t[id].attempts + 1, deadLetteredAt := Some(at), nextAttemptAt := None, lastError := cause)])
    else Err(NotFound)
  }

  function Settled(t: Table, r: Result<Table, EventError>): Table {
    if r.Ok? then r.value else t
  }

  // ---------- oldest-first selections ----------

  /** ORDER BY created_at LIMIT limit over the rows named by ids; ties may fall either way. */
  ghost predicate Oldest(t: Table, ids: set<string>, limit: nat, out: seq<string>) {
    && ids <= t.Keys
    && |out| == (if |ids| <= limit then |ids| else limit)
    && (forall i :: 0 <= i < |out| ==> out[i] in ids)
    && (forall i, j :: 0 <= i < j < |out| ==> out[i] != out[j] && t[out[i]].createdAt <= t[out[j]].createdAt)
    && (forall i, id :: 0 <= i < |out| && id in ids && id !in out ==> t[out[i]].createdAt <= t[id].createdAt)
  }

  function DueIds(t: Table, now: int): set<string> {
    set id | id in t && Due(t[id], now)
  }

  function Prunable(t: Table, before: int): set<string> {
    set id | id in t && t[id].processedAt.Some? && t[id].createdAt < before
  }

  function Limited(limit: int, default: nat): nat {
    if limit <= 0 then default else limit
  }

  lemma {:induction false} OldestExists(t: Table, ids: set<string>)
    requires ids != {} && ids <= t.Keys
    ensures exists id :: id in ids && forall other :: other in ids ==> t[id].createdAt <= t[other].createdAt
    decreases |ids|
  {
    var x :| x in ids;
    if ids == {x} {
      assert forall other :: other in ids ==> t[x].createdAt <= t[other].createdAt;
    } else {
      assert ids - {x} != {};
      OldestExists(t, ids - {x});
      var m :| m in ids - {x} && forall other :: other in ids - {x} ==> t[m].createdAt <= t[other].createdAt;
      var best := if t[x].createdAt < t[m].createdAt then x else m;
      assert forall other :: other in ids ==> other == x || other in ids - {x};
      assert best in ids && forall other :: other in ids ==> t[best].createdAt <= t[other].createdAt;
    }
  }

  method SelectOldest(t: Table, ids: set<string>, limit: nat) returns (out: seq<string>)
    requires ids <= t.Keys
    ensures Oldest(t, ids, limit, out)
  {
    var rest := ids;
    out := [];
    while |out| < limit && rest != {}
      invariant rest <= ids
      invariant |out| + |rest| == |ids| && |out| <= limit
      invariant forall id :: id in ids ==> (id in out <==> id !in rest)
      invariant forall i :: 0 <= i < |out| ==> out[i] in ids
      invariant forall i, j :: 0 <= i < j < |out| ==> out[i] != out[j] && t[out[i]].createdAt <= t[out[j]].createdAt
      invariant forall i, id :: 0 <= i < |out| && id in rest ==> t[out[i]].createdAt <= t[id].createdAt
      decreases |rest|
    {
      OldestExists(t, rest);
      var id :| id in rest && forall other :: other in rest ==> t[id].createdAt <= t[other].createdAt;
      out, rest := out + [id], rest - {id};
    }
  }

  // ---------- the store ----------

  class EventStore {
    var events: Table

    constructor ()
      ensures events == map[]
    {
      events := map[];
    }

    method Create(e: Event, now: int) returns (err: Option<EventError>)
      modifies this
      ensures events == Settled(old(events), CreateEvent(old(events), e, now))
      ensures err.None? <==>
              e.id !in old(events)
              && (e.dedupeKey == "" || forall id :: id in old(events) ==>
                    old(events)[id].kind != e.kind || old(events)[id].dedupeKey != e.dedupeKey)
      ensures events == if err.None? then old(events)[e.id := e.(createdAt := now, deadLetteredAt := None)] else old(events)
    {
      if e.id in events || Duplicate(events, e) { return Some(Conflict); }
      events := events[e.id := e.(createdAt := now, deadLetteredAt := None)];
      return None;
    }

    /** The due events, oldest first. */
    method ListDue(now: int, limit: int) returns (out: seq<Event>)
      ensures exists ids :: Oldest(events, set id | id in events && Due(events[id], now), if limit > 0 then limit else 100, ids)
                && |out| == |ids| && forall i :: 0 <= i < |ids| ==> out[i] == events[ids[i]]
      ensures forall i :: 0 <= i < |out| ==> out[i].processedAt.None? && out[i].deadLetteredAt.None?
    {
      var ids := SelectOldest(events, DueIds(events, now), Limited(limit, 100));
      out := [];
      for i := 0 to |ids|
        invariant |out| == i
        invariant forall j :: 0 <= j < i ==> out[j] == events[ids[j]]
      {
        out := out + [events[ids[i]]];
      }
    }

    method Claim(id: string, now: int, leaseUntil: int) returns (claimed: bool)
      modifies this
      ensures (events, claimed) == ClaimEvent(old(events), id, now, leaseUntil)
      ensures claimed <==>
              && id in old(events) && old(events)[id].processedAt.None? && old(events)[id].deadLetteredAt.None?
              && (old(events)[id].nextAttemptAt.None? || old(events)[id].nextAttemptAt.value <= now)
      ensures events == if claimed then old(events)[id := old(events)[id].(nextAttemptAt := Some(leaseUntil))] else old(events)
    {
      claimed := id in events && Due(events[id], now);
      if claimed { events := events[id := events[id].(nextAttemptAt := Some(leaseUntil))]; }
    }

    method MarkProcessed(id: string, at: int) returns (err: Option<EventError>)
      modifies this
      ensures events == Settled(old(events), MarkEventProcessed(old(events), id, at))
      ensures err.None? <==> id in old(events)
      ensures events == if err.None? then old(events)[id := old(events)[id].(processedAt := Some(at))] else old(events)
    {
      if id !in events { return Some(NotFound); }
      events := events[id := events[id].(processedAt := Some(at))];
      return None;
    }

    method MarkRetry(id: string, next: int, cause: string) returns (err: Option<EventError>)
      modifies this
      ensures events == Settled(old(events), MarkEventRetry(old(events), id, next, cause))
      ensures err.None? <==> id in old(events) && old(events)[id].processedAt.None? && old(events)[id].deadLetteredAt.None?
      ensures err.Some? ==> events == old(events)
      ensures err.None? ==> var e := old(events)[id];
        events == old(events)[id := e.(attempts := e.attempts + 1, nextAttemptAt := Some(next), lastError := cause)]
    {
      if id !in events || Retired(events[id]) { return Some(NotFound); }
      var e := events[id];
      events := events[id := e.(attempts := e.attempts + 1, nextAttemptAt := Some(next), lastError := cause)];
      return None;
    }

    method MarkDeadLettered(id: string, at: int, cause: string) returns (err: Option<EventError>)
      modifies this
      ensures events == Settled(old(events), MarkEventDeadLettered(old(events), id, at, cause))
      ensures err.None? <==> id in old(events) && old(events)[id].processedAt.None? && old(events)[id].deadLetteredAt.None?
      ensures err.Some? ==> events == old(events)
      ensures err.None? ==> var e := old(events)[id];
        events == old(events)[id := e.(attempts := e.attempts + 1, deadLetteredAt := Some(at), nextAttemptAt := None,
                                       lastError := cause)]
    {
      if id !in events || Retired(events[id]) { return Some(NotFound); }
      var e := events[id];
      events := events[id := e.(attempts := e.attempts + 1, deadLetteredAt := Some(at), nextAttemptAt := None, lastError := cause)];
      return None;
    }

    /** Deletes the oldest processed rows created before the cut-off. */
    method Prune(before: int, limit: int) returns (n: nat)
      modifies this
      ensures exists ids :: Oldest(old(events), set id | id in old(events) && old(events)[id].processedAt.Some? && old(events)[id].createdAt < before,
                                  if limit > 0 then limit else 5000, ids)
                && events == old(events) - (set id | id in ids) && n == |ids|
      ensures forall id :: id in events ==> id in old(events) && events[id] == old(events)[id]
      ensures forall id :: id in old(events) && id !in events ==>
              old(events)[id].processedAt.Some? && old(events)[id].createdAt < before
    {
      var ids := SelectOldest(events, Prunable(events, before), Limited(limit, 5000));
      events := events - set id | id in ids;
      n := |ids|;
    }
  }
}
