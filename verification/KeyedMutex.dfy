/**
 The ref-counted per-key mutex (internal/core/keyedmutex.go): the map object itself, and the protocol any number of
 threads follow on it, one atomic step at a time.
 */
module KeyedMutex {
  import opened Wrappers

  // The map of entries and the reference count of every entry ever allocated.
  datatype Table<!E(==)> = Table(locks: map<string, E>, refs: map<E, int>)

  /** The entry for key, a fresh one if the key is not tracked. */
  function Lookup<E(==)>(t: Table<E>, key: string, added: E): (Table<E>, E) {
    if key in t.locks then (t, t.locks[key])
    else (Table(t.locks[key := added], t.refs[added := 0]), added)
  }

  function AddRef<E(==)>(t: Table<E>, e: E, n: int): Table<E>
    requires e in t.refs
  {
    t.(refs := t.refs[e := t.refs[e] + n])
  }

  /** Forgets the key if nobody references its entry any more. */
  function Forget<E(==)>(t: Table<E>, key: string, e: E): Table<E>
    requires e in t.refs
  {
    if t.refs[e] == 0 then t.(locks := t.locks - {key}) else t
  }

  // ---------- the object ----------

  class RefCountedMutex {
    var refs: int

    constructor ()
      ensures refs == 0
    {
      refs := 0;
    }
  }

  class KeyedMutexMap {
    var locks: map<string, RefCountedMutex>
    ghost var entries: set<RefCountedMutex>

    ghost predicate Valid()
      reads this
    {
      locks.Values <= entries
    }

    ghost function View(): Table<RefCountedMutex>
      reads this, entries
    {
      Table(locks, map e | e in entries :: e.refs)
    }

    constructor ()
      ensures Valid() && View() == Table(map[], map[])
    {
      locks, entries := map[], {};
    }

    /** What Lock does while it holds k.mu. */
    method Enter(key: string) returns (e: RefCountedMutex)
      requires Valid()
      modifies this, entries
      ensures Valid() && e in entries && key in locks && locks[key] == e
      ensures key !in old(locks) ==> fresh(e)
      ensures var (t, found) := Lookup(old(View()), key, e);
        found == e && e in t.refs && View() == AddRef(t, e, 1)
    {
      if key in locks {
        assert locks[key] in locks.Values;
        e := locks[key];
      } else {
        e := new RefCountedMutex();
        locks, entries := locks[key := e], entries + {e};
        assert forall x :: x in locks.Values ==> x == e || x in old(locks).Values;
      }
      e.refs := e.refs + 1;
    }

    /** What the release closure does while it holds k.mu. */
    method Leave(key: string, e: RefCountedMutex)
      requires Valid() && e in entries
      modifies this, entries
      ensures Valid() && entries == old(entries)
      ensures View() == Forget(AddRef(old(View()), e, -1), key, e)
    {
      e.refs := e.refs - 1;
      if e.refs == 0 {
        locks := locks - {key};
        assert locks.Values <= old(locks).Values;
      }
    }
  }

  // ---------- the protocol ----------

  type Thread = nat
  type Entry = nat

  // Where a thread stands in Lock and in its release. k.mu guards Locked, Bound, Counted, Releasing, Dropped and Cleaned.
  datatype PC =
    | Idle
    | Arriving(key: string)
    | Locked(key: string)
    | Bound(key: string, e: Entry)      // entry found or created, not counted yet
    | Counted(key: string, e: Entry)
    | Waiting(key: string, e: Entry)
    | Critical(key: string, e: Entry)
    | Leaving(key: string, e: Entry)
    | Releasing(key: string, e: Entry)
    | Dropped(key: string, e: Entry)    // count decremented, map not cleaned yet
    | Cleaned

  datatype State = State(
    table: Table<Entry>,
    mu: Option<Thread>,                  // k.mu
    owner: map<Entry, Thread>,           // e.mu of the entries that are locked
    pc: map<Thread, PC>)

  predicate HasEntry(p: PC) {
    p.Bound? || p.Counted? || p.Waiting? || p.Critical? || p.Leaving? || p.Releasing? || p.Dropped?
  }

  predicate HoldsMap(p: PC) {
    p.Locked? || p.Bound? || p.Counted? || p.Releasing? || p.Dropped? || p.Cleaned?
  }

  /** The thread is among those counted in its entry's refs. */
  predicate Counts(p: PC) {
    p.Counted? || p.Waiting? || p.Critical? || p.Leaving? || p.Releasing?
  }

  function Move(s: State, t: Thread, p: PC): State {
    s.(pc := s.pc[t := p])
  }

  /** One atomic step of thread t. */
  ghost predicate Step(s: State, s': State, t: Thread) {
    t in s.pc &&
    match s.pc[t]
    case Idle => exists key :: s' == Move(s, t, Arriving(key))
    case Arriving(key) => s.mu == None && s' == Move(s, t, Locked(key)).(mu := Some(t))
    case Locked(key) =>
      exists e: Entry :: e !in s.table.refs && LooksUp(s, s', t, key, e)
    case Bound(key, e) => e in s.table.refs && s' == Move(s, t, Counted(key, e)).(table := AddRef(s.table, e, 1))
    case Counted(key, e) => s' == Move(s, t, Waiting(key, e)).(mu := None)
    case Waiting(key, e) => e !in s.owner && s' == Move(s, t, Critical(key, e)).(owner := s.owner[e := t])
    case Critical(key, e) => s' == Move(s, t, Leaving(key, e)).(owner := s.owner - {e})
    case Leaving(key, e) => s.mu == None && s' == Move(s, t, Releasing(key, e)).(mu := Some(t))
    case Releasing(key, e) => e in s.table.refs && s' == Move(s, t, Dropped(key, e)).(table := AddRef(s.table, e, -1))
    case Dropped(key, e) => e in s.table.refs && s' == Move(s, t, Cleaned).(table := Forget(s.table, key, e))
    case Cleaned => s' == Move(s, t, Idle).(mu := None)
  }

  predicate LooksUp(s: State, s': State, t: Thread, key: string, added: Entry) {
    var (table, e) := Lookup(s.table, key, added);
    s' == Move(s, t, Bound(key, e)).(table := table)
  }

  predicate Init(s: State) {
    && s.table == Table(map[], map[]) && s.mu == None && s.owner == map[]
    && forall t :: t in s.pc ==> s.pc[t] == Idle
  }

  function Users(pc: map<Thread, PC>, e: Entry): set<Thread> {
    set t | t in pc && Counts(pc[t]) && pc[t].e == e
  }

  /** Every thread that has an entry has the one the map holds for its key. */
  ghost predicate Current(s: State) {
    forall t :: t in s.pc && HasEntry(s.pc[t]) ==>
      s.pc[t].key in s.table.locks && s.table.locks[s.pc[t].key] == s.pc[t].e
  }

  ghost predicate MapGuarded(s: State) {
    && (forall t :: t in s.pc ==> (HoldsMap(s.pc[t]) <==> s.mu == Some(t)))
    && (s.mu.Some? ==> s.mu.value in s.pc)
  }

  ghost predicate OwnersRight(s: State) {
    && (forall t :: t in s.pc && s.pc[t].Critical? ==> s.pc[t].e in s.owner && s.owner[s.pc[t].e] == t)
    && (forall e :: e in s.owner ==> s.owner[e] in s.pc && s.pc[s.owner[e]].Critical? && s.pc[s.owner[e]].e == e)
  }

  ghost predicate CountsRight(s: State) {
    forall e :: e in s.table.refs ==> s.table.refs[e] == |Users(s.pc, e)|
  }

  /** Keys have different entries, all counted; an entry nobody counts is only there while its key is being added or dropped. */
  ghost predicate MapRight(s: State) {
    && (forall k :: k in s.table.locks ==> s.table.locks[k] in s.table.refs)
    && (forall k, k' :: k in s.table.locks && k' in s.table.locks && s.table.locks[k] == s.table.locks[k'] ==> k == k')
    && (forall k :: k in s.table.locks && s.table.refs[s.table.locks[k]] == 0 ==>
          s.mu.Some? && s.mu.value in s.pc
          && (s.pc[s.mu.value] == Bound(k, s.table.locks[k]) || s.pc[s.mu.value] == Dropped(k, s.table.locks[k])))
  }

  ghost predicate Inv(s: State) {
    Current(s) && MapGuarded(s) && OwnersRight(s) && CountsRight(s) && MapRight(s)
  }

  // ---------- counting users ----------

  lemma UsersUnmoved(pc: map<Thread, PC>, t: Thread, p: PC, e: Entry)
    requires t in pc && (Counts(pc[t]) && pc[t].e == e <==> Counts(p) && p.e == e)
    ensures Users(pc[t := p], e) == Users(pc, e)
  {
  }

  lemma UserJoins(pc: map<Thread, PC>, t: Thread, p: PC, e: Entry)
    requires t in pc && !(Counts(pc[t]) && pc[t].e == e) && Counts(p) && p.e == e
    ensures |Users(pc[t := p], e)| == |Users(pc, e)| + 1
  {
    assert Users(pc[t := p], e) == Users(pc, e) + {t};
  }

  lemma UserLeaves(pc: map<Thread, PC>, t: Thread, p: PC, e: Entry)
    requires t in pc && Counts(pc[t]) && pc[t].e == e && !(Counts(p) && p.e == e)
    ensures |Users(pc[t := p], e)| == |Users(pc, e)| - 1
  {
    assert Users(pc, e) == Users(pc[t := p], e) + {t};
  }

  // ---------- every step keeps the invariant ----------

  lemma CurrentKept(s: State, s': State, t: Thread)
    requires Inv(s) && Step(s, s', t)
    ensures Current(s')
  {
    hide CountsRight, OwnersRight;
    if s.pc[t].Dropped? && s'.table != s.table { NobodyElse(s, t); }
  }

  /** When the last reference is dropped, no other thread has the key's entry. */
  lemma NobodyElse(s: State, t: Thread)
    requires Inv(s) && t in s.pc && s.pc[t].Dropped? && s.table.refs[s.pc[t].e] == 0
    ensures forall v :: v in s.pc && v != t && HasEntry(s.pc[v]) ==> s.pc[v].key != s.pc[t].key
  {
    var e := s.pc[t].e;
    assert Users(s.pc, e) == {};
    forall v | v in s.pc && v != t && HasEntry(s.pc[v]) ensures s.pc[v].key != s.pc[t].key {
      assert HoldsMap(s.pc[t]) && !HoldsMap(s.pc[v]);
      assert v !in Users(s.pc, e);
    }
  }

  lemma MapGuardedKept(s: State, s': State, t: Thread)
    requires Inv(s) && Step(s, s', t)
    ensures MapGuarded(s')
  {
    hide Current, CountsRight, OwnersRight, MapRight, Lookup, Forget;
  }

  lemma OwnersKept(s: State, s': State, t: Thread)
    requires Inv(s) && Step(s, s', t)
    ensures OwnersRight(s')
  {
    hide Current, CountsRight, MapRight, MapGuarded, Lookup, Forget;
  }

  lemma CountsKept(s: State, s': State, t: Thread)
    requires Inv(s) && Step(s, s', t)
    ensures CountsRight(s')
  {
    hide Current, OwnersRight, MapGuarded, Users;
    var p, p' := s.pc[t], s'.pc[t];
    assert s'.pc == s.pc[t := p'];
    forall e | e in s'.table.refs
      ensures s'.table.refs[e] == |Users(s'.pc, e)|
    {
      if p.Bound? && p.e == e { UserJoins(s.pc, t, p', e); }
      else if p.Releasing? && p.e == e { UserLeaves(s.pc, t, p', e); }
      else { UsersUnmoved(s.pc, t, p', e); }
      if e !in s.table.refs { NewEntryUnused(s, e); }
    }
  }

  lemma NewEntryUnused(s: State, e: Entry)
    requires Current(s) && MapRight(s) && e !in s.table.refs
    ensures Users(s.pc, e) == {}
  {
  }

  lemma MapRightKept(s: State, s': State, t: Thread)
    requires Inv(s) && Step(s, s', t)
    ensures MapRight(s')
  {
    hide OwnersRight, Users;
    var p := s.pc[t];
    if p.Releasing? { UserLeaves(s.pc, t, s'.pc[t], p.e); }
  }

  lemma StepKeepsInv(s: State, s': State, t: Thread)
    requires Inv(s) && Step(s, s', t)
    ensures Inv(s')
  {
    CurrentKept(s, s', t);
    MapGuardedKept(s, s', t);
    OwnersKept(s, s', t);
    CountsKept(s, s', t);
    MapRightKept(s, s', t);
  }

  // ---------- whole runs ----------

  ghost predicate IsRun(states: seq<State>, threads: seq<Thread>) {
    && |states| == |threads| + 1 && Init(states[0])
    && forall i {:trigger threads[i]} :: 0 <= i < |threads| ==> Step(states[i], states[i + 1], threads[i])
  }

  lemma {:induction false} RunKeepsInv(states: seq<State>, threads: seq<Thread>, n: nat)
    requires IsRun(states, threads) && n < |states|
    ensures Inv(states[n])
  {
    if n == 0 {
      assert forall e :: e in states[0].table.refs ==> Users(states[0].pc, e) == {};
    } else {
      RunKeepsInv(states, threads, n - 1);
      assert Step(states[n - 1], states[n - 1 + 1], threads[n - 1]);
      StepKeepsInv(states[n - 1], states[n], threads[n - 1]);
    }
  }

  /** At most one thread is in the critical section of a key. */
  lemma MutualExclusion(states: seq<State>, threads: seq<Thread>, n: nat, t: Thread, v: Thread)
    requires IsRun(states, threads) && n < |states|
    requires t in states[n].pc && v in states[n].pc && states[n].pc[t].Critical? && states[n].pc[v].Critical?
    requires states[n].pc[t].key == states[n].pc[v].key
    ensures t == v
  {
    RunKeepsInv(states, threads, n);
  }

  /** While k.mu is free, a key is tracked exactly when some thread holds, awaits or is about to release it, and refs says how many. */
  lemma TrackedWhileUsed(states: seq<State>, threads: seq<Thread>, n: nat, key: string)
    requires IsRun(states, threads) && n < |states| && states[n].mu == None
    ensures var s := states[n];
      && (key in s.table.locks <==> exists t :: t in s.pc && HasEntry(s.pc[t]) && s.pc[t].key == key)
      && (key in s.table.locks ==>
            var e := s.table.locks[key];
            && e in s.table.refs && s.table.refs[e] == |Users(s.pc, e)| > 0
            && Users(s.pc, e) == (set t | t in s.pc && HasEntry(s.pc[t]) && s.pc[t].key == key))
  {
    RunKeepsInv(states, threads, n);
    var s := states[n];
    if key in s.table.locks {
      var e := s.table.locks[key];
      assert Users(s.pc, e) != {};
      var t :| t in Users(s.pc, e);
      forall v | v in s.pc && HasEntry(s.pc[v]) ensures Counts(s.pc[v]) { assert !HoldsMap(s.pc[v]); }
    }
  }

  /** A thread that is not blocked on k.mu or on its entry can take its next step. */
  lemma CanStep(s: State, t: Thread)
    requires Inv(s) && t in s.pc && s.pc[t] != Idle
    requires s.pc[t].Arriving? || s.pc[t].Leaving? ==> s.mu == None
    requires s.pc[t].Waiting? ==> s.pc[t].e !in s.owner
    ensures exists s' :: Step(s, s', t)
  {
    hide OwnersRight, CountsRight, MapGuarded;
    var s' := match s.pc[t]
      case Idle => s
      case Arriving(key) => Move(s, t, Locked(key)).(mu := Some(t))
      case Locked(key) =>
        var added := Above(s.table.refs.Keys);
        var (table, e) := Lookup(s.table, key, added);
        Move(s, t, Bound(key, e)).(table := table)
      case Bound(key, e) => Move(s, t, Counted(key, e)).(table := AddRef(s.table, e, 1))
      case Counted(key, e) => Move(s, t, Waiting(key, e)).(mu := None)
      case Waiting(key, e) => Move(s, t, Critical(key, e)).(owner := s.owner[e := t])
      case Critical(key, e) => Move(s, t, Leaving(key, e)).(owner := s.owner - {e})
      case Leaving(key, e) => Move(s, t, Releasing(key, e)).(mu := Some(t))
      case Releasing(key, e) => Move(s, t, Dropped(key, e)).(table := AddRef(s.table, e, -1))
      case Dropped(key, e) => Move(s, t, Cleaned).(table := Forget(s.table, key, e))
      case Cleaned => Move(s, t, Idle).(mu := None);
    if s.pc[t].Locked? { assert LooksUp(s, s', t, s.pc[t].key, Above(s.table.refs.Keys)); }
    assert Step(s, s', t);
  }

  ghost function Above(es: set<Entry>): (b: nat)
    ensures forall e :: e in es ==> e < b
  {
    if es == {} then 0
    else
      var e :| e in es;
      var rest := Above(es - {e});
      assert forall x :: x in es ==> x == e || x in es - {e};
      if e < rest then rest else e + 1
  }

  /** Whenever some thread is inside Lock, its critical section or its release, some such thread can move. */
  lemma NoDeadlock(states: seq<State>, threads: seq<Thread>, n: nat, t: Thread)
    requires IsRun(states, threads) && n < |states|
    requires t in states[n].pc && states[n].pc[t] != Idle
    ensures exists v, s' :: v in states[n].pc && states[n].pc[v] != Idle && Step(states[n], s', v)
  {
    RunKeepsInv(states, threads, n);
    var s := states[n];
    var v :=
      if (s.pc[t].Arriving? || s.pc[t].Leaving?) && s.mu.Some? then s.mu.value
      else if s.pc[t].Waiting? && s.pc[t].e in s.owner then s.owner[s.pc[t].e]
      else t;
    CanStep(s, v);
  }
}
