/** Environment statuses and the table of legal moves between them (internal/store/transitions.go). */
module Transitions {

  // Statuses are strings in the store; Unknown stands for every string outside the table.
  datatype Status =
    | Pending | Deploying | Ready | Failed | Sleeping | Destroying | Destroyed | Degraded
    | Unknown(name: string)

  function AllowedTransitions(from: Status): set<Status> {
    match from
    case Pending => {Deploying, Destroying, Failed}
    case Deploying => {Ready, Degraded, Failed, Destroying}
    case Ready => {Deploying, Sleeping, Destroying, Failed, Degraded}
    case Failed => {Deploying, Destroying}
    case Sleeping => {Deploying, Ready, Destroying}
    case Destroying => {Destroyed, Failed}
    case Destroyed => {Deploying, Destroying}
    case Degraded => {Deploying, Destroying}
    case Unknown(_) => {}
  }

  predicate CanTransition(from: Status, to: Status) {
    if from == to then !from.Unknown? else to in AllowedTransitions(from)
  }

  /** A status under which something is believed to be deployed and kept. */
  predicate Serving(s: Status) {
    s in {Ready, Sleeping, Degraded}
  }

  /** Every consecutive pair is a legal move. */
  ghost predicate LegalPath(path: seq<Status>) {
    forall i {:trigger path[i]} :: 0 < i < |path| ==> CanTransition(path[i - 1], path[i])
  }

  /** The statuses a torn-down or failed environment is confined to until it is deployed again. */
  predicate Down(s: Status) {
    s in {Destroyed, Destroying, Failed}
  }

  /** No legal path leads from a destroyed row to a serving one without a deploying write strictly between them. */
  lemma {:induction false} RevivalNeedsDeploying(path: seq<Status>, i: nat, j: nat)
    requires LegalPath(path)
    requires i < j < |path|
    requires path[i] == Destroyed && Serving(path[j])
    ensures exists k :: i < k < j && path[k] == Deploying
  {
    if forall k :: i < k < j ==> path[k] != Deploying {
      StaysDown(path, i, j);
    }
  }

  lemma {:induction false} StaysDown(path: seq<Status>, i: nat, j: nat)
    requires LegalPath(path)
    requires i <= j < |path|
    requires Down(path[i])
    requires forall k :: i < k < j ==> path[k] != Deploying
    ensures (i < j && path[j] == Deploying) || Down(path[j])
    decreases j
  {
    if i < j {
      StaysDown(path, i, j - 1);
      assert CanTransition(path[j - 1], path[j]);
    }
  }

  /** A status outside the table can be neither entered nor left. */
  lemma UnknownIsIsolated(s: Status, t: Status)
    requires s.Unknown?
    ensures !CanTransition(s, t) && !CanTransition(t, s)
  {
    assert s !in AllowedTransitions(t);
  }

  /** The statuses that a row may have when it is given this one, itself apart. */
  function WaysInto(to: Status): set<Status> {
    match to
    case Pending => {}
    case Deploying => {Pending, Ready, Failed, Sleeping, Destroyed, Degraded}
    case Ready => {Deploying, Sleeping}
    case Failed => {Pending, Deploying, Ready, Destroying}
    case Sleeping => {Ready}
    case Destroying => {Pending, Deploying, Ready, Failed, Sleeping, Destroyed, Degraded}
    case Destroyed => {Destroying}
    case Degraded => {Deploying, Ready}
    case Unknown(_) => {}
  }

  /**
   The table by its columns: nothing becomes pending again, only a deployment or a wake makes a row ready, only a ready
   row goes to sleep, only a row being destroyed becomes destroyed. Writing a known status again is always legal.
   */
  lemma MovesByTarget(from: Status, to: Status)
    ensures CanTransition(from, to) <==> (from == to && !from.Unknown?) || from in WaysInto(to)
  {
  }

  /** Deploying is reachable in one move from every known status but destroying; destroying from every known status. */
  lemma EntryPoints(s: Status)
    requires !s.Unknown?
    ensures CanTransition(s, Deploying) <==> s != Destroying
    ensures CanTransition(s, Destroying)
  {
  }
}
