# Ramify control plane: a verified model

Ramify turns pushes to branches into preview environments. Its control plane is a reconciler over a durable event
table: webhooks are stored as events, workers lease and process them with retries, and processing drives an
environment's row through its statuses while deployments, DNS records and certificates are made to follow. This
project models that control plane in Dafny and proves what its parts keep, together and over whole runs.
`dafny verify dfyconfig.toml` checks all of it.

How the parts are modelled:

- **Environment lifecycle** (`Transitions`, `Calls`, `Lifecycle`, `Reconciler`). The store tables and the providers are
  one `World`. Every store, provider, clock and notifier call is numbered, and an *oracle* answers it: it may fail, or
  fail after having taken effect; a crash is an oracle whose answers are dead from some call on. `Lifecycle` states each
  operation as a function of world and oracle; class `Reconciler` holds the same fields, and its methods, with the loops
  and early returns of the program, are proved to do exactly what those functions say. On the functions are proved:
  how attempts wait, publish and follow each other (`Attempts`), how an apply can end (`ApplyOutcome`), what the answer of
  a delivery means (`Deliveries`), what sleep and wake do (`SleepWake`), what every version of every row keeps under
  stale snapshots (`RowHistory`), what a teardown pass leaves (`Teardown`), and that crashed or failed deliveries come to
  what an undisturbed one comes to (`CrashRecovery` for pushes that die, `FailureRecovery` for pushes that fail in any
  way, with `LostWrites` for the failure that is special, `CloseRecovery` for closes); `Anchors` shows that every row any
  run reaches meets what the recovery from failures asks of it.
- **Event inbox** (`EventTable`, `Retry`, `Inbox`, `Drain`). The event table as an object and as functions, one worker's
  processing of one event, an interleaving machine of deliveries, pollers, pool workers, crashes and pruning, and the
  drain of a finite inbox.
- **Locks, ceiling, workers** (`KeyedMutex`, `Admission`, `Workers`). Step machines at the level of single atomic steps,
  and the map of the keyed mutex as an object.
- **DNS ownership registries** (`Route53`, `Cloudflare` and their `...Ownership` modules). The zone, the requests as
  sequences of API calls, each of which may fail and, failing, may still have taken effect; the provider objects proved
  against them, then frame, round-trip and exclusive-owner results.
- **Certificate cache** (`CertCache`), **listing and its client** (`Paging`), **quoting** (`Quoting`), **labels and
  compose references** (`Labels`, `ComposeRefs`).

Times are whole nanoseconds in `Calls`, `Retry` and `Inbox`, seconds in `CertCache`. Integers are unbounded: none of
the modelled computations comes near the program's 64 bits.

Where the program's comments say more than the code does, the code is what is modelled:

- "At most one of them ever wins a given event" (`internal/core/reconciler.go:828`) holds while holders report before
  their lease ends (`Inbox.LeaseExclusion`), and exactly then (`Inbox.ExclusionHangsOnLeases`).
- "attemptApply's failing branches all return the input env unmodified" (`internal/core/reconciler.go:414`) holds
  exactly for the failures before the final write (`LostWrites.FailingAttemptKeepsItsRow`; `LostWrites.LostReadyWrite`
  is an input where it fails). After a lost final write the pass goes on with an empty row: nothing is rolled back and
  nothing marked (`LostWrites.LostWriteEndsThePass`).
- The concurrency ceiling (`internal/core/reconciler.go:259-265`) is exceeded when destroyed environments revive
  between count and creation: `Admission.RevivalOverrunsCeiling` shows it, `Admission.CreationCount` says exactly when.
- The attempt cap follows the snapshots the workers carry, not the stored count: `Retry.CapFollowsSnapshots` says
  exactly when it takes effect, `Retry.TriesAreBounded` how far it can be missed, and
  `Retry.QueuedSnapshotOutlivesTheCap` that it can.
- Ensuring and deleting a DNS record are not atomic. `CutEnsureCanBeAskedAgain` in both ownership modules says exactly
  which interrupted ensure can be repeated and `CutDeleteCanBeAskedAgain` what repeating an interrupted delete comes to;
  `TornDeleteSharesTheName` and `TornDeleteResumes` say what a torn delete leaves. Deleting twice is refused by Route 53 (`Route53Ownership.SecondDeleteIsRefused`) and by Cloudflare
  exactly if the tag was there once (`CloudflareOwnership.SecondDelete`), although the provider interface offers a way
  to say "already absent".
- Compose project names do not tell all environments apart: `ComposeRefs.SharedReferences` says when two share one, and
  `ComposeRefs.ClashTakesNeighbourDown` what a teardown then does. `Teardown.NeighbourStands` gives the exact condition
  for every provider.
- A revocation whose file cannot be removed is undone by a restart (`CertCache.RevokedReturnsOnRestart`).

## Model

| member | source | states |
|---|---|---|
| Transitions.RevivalNeedsDeploying | internal/store/transitions.go:24-40 | On every sequence of legal moves, a destroyed status followed later by a ready, sleeping or degraded one has a deploying status strictly between them. |
| Transitions.MovesByTarget | internal/store/transitions.go:24-55 | The whole table of moves, read by the status entered: nothing becomes pending again, only a deployment or a wake makes a row ready, only a ready row goes to sleep, only a row being destroyed becomes destroyed, and a known status may be written again. |
| Reconciler.Reconciler.UpdateEnvironment | internal/store/sqlite.go:96-143 | The update in place over the fields: refused unless the row exists and the move from its stored status is legal, otherwise the whole row is replaced and stamped; every other field of the world unchanged. |
| Reconciler.Reconciler.CreateEnvironment | internal/store/sqlite.go:66-93 | Inserts the row, or reports a conflict when the project and branch already have one. |
| Reconciler.Reconciler.CountLiveEnvironments | internal/store/sqlite.go:243-252 | Counts the rows that are not destroyed. |
| Reconciler.Reconciler.ListDnsRecords | internal/store/sqlite.go:300-321 | The rows of one environment, in insertion order. |
| Reconciler.Reconciler.WaitUntilHealthy | internal/core/reconciler.go:511-531 | The polling loop. It goes on exactly as long as polls find the deployment unwell before the deadline (Attempts.ReadinessPolls); each wait moves the clock by the poll interval. |
| Reconciler.Reconciler.RecordDnsRow | internal/core/reconciler.go:536-556 | One stored row per name: nothing is added when the environment already has one for it. |
| Reconciler.Reconciler.PublishRecords | internal/core/reconciler.go:470-487 | DNS record, certificate, its installation and the stored row, in that order, stopping at the first failure. |
| Reconciler.Reconciler.AttemptApply | internal/core/reconciler.go:455-503 | One attempt: deploy, readiness, records, then one write of the row as ready; which row and error it hands back on each failure, and that nothing is published before the deployment was found healthy (Attempts.AttemptInOrder). |
| Reconciler.Reconciler.ApplyLoop | internal/core/reconciler.go:392-409 | The retry loop with its back-off, carrying on with whatever row the failed attempt handed back. |
| Reconciler.Reconciler.GiveUp | internal/core/reconciler.go:411-451 | The compensation for five failed attempts: from a fresh deploying row, one more deploy call exactly if there is another good revision; the row is degraded on it exactly if that attempt succeeds, else failed; one notice says which. |
| Reconciler.Reconciler.DoApply | internal/core/reconciler.go:377-451 | The whole apply as a function of the state before it; for a reliable store and a fresh row in a known status but destroying it promises the account of ApplyOutcome.ApplyEnds, and for a coherent row however stale that the row history stays coherent. |
| Reconciler.Reconciler.DestroyRecords | internal/core/reconciler.go:634-650 | The teardown loop over the listed rows; a failing step is counted and the loop goes on. |
| Reconciler.Reconciler.DestroyInfrastructure | internal/core/reconciler.go:651-667 | Certificate, its installation and the recorded deployment, each tried whatever failed before. |
| Reconciler.Reconciler.DoDestroy | internal/core/reconciler.go:631-678 | The teardown pass: lists, tears down, and writes destroyed only if nothing failed; from a fresh destroying row it promises the account of Teardown.TeardownPass. |
| Reconciler.Reconciler.DestroyWithoutEvent | internal/core/reconciler.go:606-616 | Marks the row destroying, then tears down, from the row the caller read; keeps the row history coherent. |
| Reconciler.Reconciler.DoSleep | internal/core/reconciler.go:719-735 | Only a ready row with a deployment is put to sleep, else nothing is called; the deployment is stopped before the row says so (SleepWake.SleepStops); keeps the row history coherent. |
| Reconciler.Reconciler.DoWake | internal/core/reconciler.go:772-788 | Only a sleeping row with a deployment is woken, else nothing is called; the deployment is started before the row says so (SleepWake.WakeStarts); keeps the row history coherent. |
| Reconciler.Reconciler.UpsertPendingEnvironment | internal/core/reconciler.go:356-372 | Finds the row or creates it as pending. |
| Reconciler.Reconciler.Admit | internal/core/reconciler.go:266-299 | Policy, then existing row, then count, then reservation of the slot; which of them skips and which fails. |
| Reconciler.Reconciler.ProcessPush | internal/core/reconciler.go:308-328 | A push delivery. It reports success only if it was not wanted, having changed nothing, or if the branch is up on the requested revision; it keeps the end a clean replay would reach, and reaches it when every call succeeds. |
| Reconciler.Reconciler.ProcessClose | internal/core/reconciler.go:329-339 | A close delivery. It reports success only if there was no row, having changed nothing, or if nothing of the environment is left; it keeps the end a clean pass would reach, and reaches it when every call succeeds. |
| Attempts.ReadinessPolls | internal/core/reconciler.go:511-531 | Waiting goes on exactly as long as polls find the deployment unwell before the deadline; the poll it ends with decides: a failed call, a healthy probe, or an unhealthy one at the deadline or later. |
| Attempts.AttemptInOrder | internal/core/reconciler.go:455-503 | However far an attempt gets: nothing is published before the deployment was found healthy, no certificate before the record, no installation before the certificate, no row of the record before all of these, and the environment row is written last. |
| Attempts.AttemptsInTurn | internal/core/reconciler.go:392-409 | The loop is at most five attempts in turn, each on the row the one before it handed back, with pauses of one, two, four and eight seconds; it ends with the first success, and only with the fifth failure. |
| Deliveries.AdmissionVerdict | internal/core/reconciler.go:266-299 | Whatever fails, nothing wanted is skipped and nothing unwanted admitted; with a reliable store exactly the wanted deliveries are admitted. Wanted: allowed, and an existing row or fewer live ones than the ceiling. |
| Deliveries.UpsertReserves | internal/core/reconciler.go:356-372 | The row of a branch is created at most once, exactly as asked: pending, nothing deployed, nothing known good, no expiry; a row already there is returned as it is. |
| Deliveries.PushAnswers | internal/core/reconciler.go:308-328 | Under any failures a push that reports success was not wanted and changed nothing visible, or its branch is ready on the requested revision, seen healthy, and published under its name. |
| Deliveries.PushVerdict | internal/core/reconciler.go:308-328 | With a reliable store a push reports success if and only if it was not wanted or its branch is so served. |
| Deliveries.CloseAnswers | internal/core/reconciler.go:329-339 | Under any failures a close that reports success found no row and changed nothing, or has left no DNS row, record, certificate or deployment recorded for it, and the row destroyed; nothing is torn down under a row that does not say destroying or destroyed. |
| Deliveries.MarkedIsNotMarkedAgain | internal/core/reconciler.go:606-616 | A close that finds the row being destroyed tears it down as it stands, with the account of Teardown.TeardownPass from the lookup on: the row is not marked again. |
| SleepWake.SleepStops | internal/core/reconciler.go:719-735 | A snapshot that is not ready or has no deployment makes no call. Otherwise the row is marked sleeping only after its deployment was stopped, artifact and health kept; no other row, deployment, record or certificate moves, whatever fails. |
| SleepWake.WakeStarts | internal/core/reconciler.go:772-788 | The same for a sleeping snapshot, whose deployment is started before the row is marked ready. |
| SleepWake.WakeUndoesSleep | internal/core/reconciler.go:719-788 | An answered sleep and an answered wake succeed, and give back the deployments and, but for its stamp, the row. |
| ApplyOutcome.UpdateOutcome | internal/store/sqlite.go:96-143 | An answered legal write of an existing row is read back as written, with the creation time it had and the time of the write as its stamp. |
| ApplyOutcome.RowsOfInOrder | internal/store/sqlite.go:300-321 | The rows listed for an environment are exactly its rows, in the order they were stored. |
| ApplyOutcome.AttemptOutcome | internal/core/reconciler.go:455-503 | An attempt makes exactly one deploy call, never a refused write; it fails with the row it was given and the table untouched, or leaves that row ready, deployed, last-good, published and with its expiry set anew. |
| ApplyOutcome.LoopOutcome | internal/core/reconciler.go:392-409 | The loop makes at most one deploy call per remaining attempt, exactly as many if it fails, and then hands back the row it was given. |
| ApplyOutcome.GiveUpOutcome | internal/core/reconciler.go:411-451 | Giving up makes one more deploy call if and only if there is another good revision; the row ends degraded on it if and only if that attempt succeeds, as it does when its calls all succeed, and failed with everything it knew kept otherwise. |
| ApplyOutcome.ApplyEnds | internal/core/reconciler.go:377-503 | From a fresh row in any known status but destroying, with a reliable store and whatever the providers answer: no illegal move; success exactly with the row ready on the requested artifact, after at most five deploy calls; otherwise five failed, a sixth was made if and only if there was another good revision, and the row is degraded on it if and only if that attempt succeeded, failed otherwise. Every field of the row, its expiry and the one notice are pinned. |
| RowHistory.UpdateKeeps | internal/store/sqlite.go:96-143 | A coherent row, however stale, written through UpdateEnvironment extends a coherent history coherently. |
| RowHistory.ApplyKeeps | internal/core/reconciler.go:377-503 | doApply from any coherent snapshot, with arbitrary answers, only ever appends coherent versions. |
| RowHistory.ApplyMarksFirst | internal/core/reconciler.go:377-409 | Whatever fails, an apply makes no deploy call before the row has a new version saying deploying and naming the requested revision. |
| RowHistory.DestroyKeeps | internal/core/reconciler.go:606-678 | So does a destroy. |
| RowHistory.SleepWakeKeep | internal/core/reconciler.go:719-788 | So do sleep and wake. |
| RowHistory.EveryVersionCoherent | internal/core/reconciler.go:308-788 | Over every run of applies, destroys, sleeps, wakes, pushes and closes from stale snapshots with arbitrary answers: every history begins with a pending row with nothing deployed; every version keeps the creation time, has DeployRef equal to LastGoodDeployRef, is non-empty in both last-good fields when ready, sleeping or degraded, and follows its predecessor by a legal move; histories only grow. |
| RowHistory.RevivalRedeploys | internal/core/reconciler.go:377-387 | In every such run a deploying version lies between a destroyed version and any later serving one. |
| Teardown.RecordsPass | internal/core/reconciler.go:634-650 | The loop over the records tries the provider delete of each row, removes a row only after its record is gone or was absent, and leaves the others, whatever fails. |
| Teardown.InfrastructurePass | internal/core/reconciler.go:651-667 | All infrastructure steps are attempted whatever fails, and what succeeded is gone. |
| Teardown.TeardownPass | internal/core/reconciler.go:631-678 | One pass from a fresh destroying row: every step attempted, DNS first, then certificate, installation and deployment; DNS rows left are exactly those whose record delete or row delete failed; no other environment row, DNS row, certificate, installation or deployment reference is touched; it reports incompleteness exactly when the listing or some step failed, and then leaves the status; otherwise no DNS row, record, certificate or recorded deployment of the environment remains, and the row is destroyed, with a notice, if its last write lands. |
| Teardown.NeighbourStands | internal/core/reconciler.go:631-678 | A completed teardown leaves the rows of any other environment as they were, and its deployment standing if and only if it goes by another reference. |
| CrashRecovery.AttemptKeepsGoal | internal/core/reconciler.go:455-503 | However far an attempt gets before the process dies, the end that a clean replay would reach stays the same. |
| CrashRecovery.ApplyKeepsGoal | internal/core/reconciler.go:377-451 | The same for the whole apply, its rollback included. |
| CrashRecovery.PushKeepsGoal | internal/core/reconciler.go:308-328 | The same for a whole push delivery, admission included. |
| CrashRecovery.PushAttains | internal/core/reconciler.go:308-328 | A push with every call answered reaches that end. |
| CrashRecovery.PushSurvivesCrashes | internal/core/reconciler.go:308-343 | Crashing any number of times after any number of calls, providers failing at will before, then one clean replay: the same rows (up to time stamps), DNS rows, deployments, records and certificates as one undisturbed run. |
| FailureRecovery.EmptyAttempt | internal/core/reconciler.go:455-503 | An attempt on an empty row fails, changes no row, and leaves the end a clean replay would reach where it was. |
| FailureRecovery.FailedPushKeepsGoal | internal/core/reconciler.go:308-328 | A push under any oracle at all, store failures applied or not included, keeps that end when the row carries the reference a first deployment would choose. |
| FailureRecovery.PushSurvivesFailures | internal/core/reconciler.go:308-343 | For such a row: after any number of passes failing or dying anywhere, in store and providers alike, one clean replay ends where one undisturbed run ends. |
| FailureRecovery.EmptyAttemptStrays | internal/core/reconciler.go:455-466 | What that reference is for: an attempt on an empty row that deploys to a place not yet deployed to keeps the end exactly if the reference of the row equals that of a first deployment. Rows for which it does not arise only when the naming rule changes between deployments. |
| Anchors.EveryRowIsAtHome | internal/core/reconciler.go:308-788 | Over every run from the empty table under one naming rule, from stale snapshots and whatever fails: every version of every row bears its own name and a known status, and deploys where a first deployment would. |
| Anchors.ReachedPushesSurvive | internal/core/reconciler.go:308-343 | In every state so reached, a push to a branch not being torn down survives any number of passes failing or dying anywhere: one clean replay ends where one undisturbed run ends. |
| LostWrites.FailingAttemptKeepsItsRow | internal/core/reconciler.go:498-500 | A failing attempt hands back the row it was given exactly if it failed before its final write, and the empty row otherwise. |
| LostWrites.LostReadyWrite | internal/core/reconciler.go:498-500 | A whole push on which its first attempt hands back the empty row: only the ready write is refused, yet the push fails and leaves its row deploying. |
| LostWrites.LostWriteEndsThePass | internal/core/reconciler.go:392-451 | After an attempt has handed back the empty row, the remaining attempts fail, no rollback is tried and no row is marked: the table keeps what the lost write left. |
| LostWrites.LostRollbackIsMarked | internal/core/reconciler.go:417-451 | A rollback that fails, even by losing its last write, still ends with the row that was given up on marked failed, if the write is answered and legal. |
| CloseRecovery.TeardownKeepsGoal | internal/core/reconciler.go:631-678 | A teardown that fails or dies anywhere keeps the end a clean pass would reach. |
| CloseRecovery.CloseSurvivesFailures | internal/core/reconciler.go:329-339 | After any number of close passes that crash or fail anywhere, the store included, one clean pass ends where one undisturbed pass ends. |
| CloseRecovery.UnmarkedDestroyIsRefused | internal/core/reconciler.go:856-863 | Replaying a destroy whose row was never marked, with every call succeeding, ends exactly if the row says destroying or destroyed; any other status is refused as an illegal transition and stays. |
| EventTable.SelectOldest | internal/store/sqlite.go:418-432 | ORDER BY created_at LIMIT n: some oldest n of the selected rows, none of the others older than one taken. |
| EventTable.EventStore.Create | internal/store/sqlite.go:332-353 | Inserts unless the id is taken or, where there is a dedupe key, a row of the same kind carries it; the row starts undelivered with the time of creation. |
| EventTable.EventStore.ListDue | internal/store/sqlite.go:418-432 | The oldest due rows, at most the limit, a hundred by default; none of them processed or dead-lettered. |
| EventTable.EventStore.Claim | internal/store/sqlite.go:459-473 | Compare-and-set of the lease: succeeds exactly on a due row, of whatever kind, and moves its next attempt to the end of the lease. |
| EventTable.EventStore.MarkProcessed | internal/store/sqlite.go:475-486 | Unguarded: succeeds on every row present, dead-lettered or not. |
| EventTable.EventStore.MarkRetry | internal/store/sqlite.go:503-514 | Raises the stored attempt count and sets the next attempt, only on unretired rows. |
| EventTable.EventStore.MarkDeadLettered | internal/store/sqlite.go:488-501 | Raises the stored attempt count and retires, only unretired rows. |
| EventTable.EventStore.Prune | internal/store/sqlite.go:516-535 | Deletes the oldest processed rows before the cut-off, at most the limit, 5000 by default, and no others; dead letters that were never processed stay. |
| Retry.ProcessEvent | internal/core/reconciler.go:829-901 | The worker over the store: nothing without a claim; otherwise its outcome is recorded field by field as Retry.ProcessRecords says. |
| Retry.ProcessRecords | internal/core/reconciler.go:829-937 | A claimed event that succeeded is stamped processed and else unchanged but for its ten-minute lease; one that failed for good, or on a snapshot showing nine attempts or more, is dead-lettered with one more attempt, its cause and no next attempt; any other failure counts and schedules the next try between half and all of 2^attempts seconds later. No other row changes. |
| Retry.DelayBounds | internal/core/reconciler.go:940-962 | The delay of attempt k is 2^(k-1) seconds up to 256, and the jittered one lies between half of it and all of it. |
| Retry.NineRetries | internal/core/reconciler.go:940-962 | Nine jittered retries add up to between 255.5 and 511 seconds. |
| Retry.FailureWrites | internal/core/reconciler.go:917-937 | A transient failure on a current snapshot raises the count by one and either schedules the next attempt or, at the tenth, dead-letters. |
| Retry.RetryBudget | internal/core/reconciler.go:829-963 | With current snapshots an event that always fails transiently is tried exactly ten times, the k-th delay within its bounds, then is dead-lettered and never claimed again. |
| Retry.CapFollowsSnapshots | internal/core/reconciler.go:917-937 | On snapshots of any age: the stored count after k transient failures is k, and the event is dead-lettered by then if and only if one of those k snapshots showed nine attempts or more. |
| Retry.TenthFailure | internal/core/reconciler.go:917-937 | On snapshots that once were true the event is never given up before the tenth failure, and at the tenth exactly if its snapshot showed nine. |
| Retry.TriesAreBounded | internal/core/reconciler.go:917-937 | On such snapshots there are at most ten tries and one more for each decision made on an overtaken one. |
| Retry.QueuedSnapshotOutlivesTheCap | internal/api/handlers.go:121-150 | A run of eleven tries that reaches the bound: the one row put on the webhook queue is claimed after nine failures of the poller. |
| Inbox.RunKeepsTable | internal/store/sqlite.go:332-535 | Every interleaving of deliveries, pollers, pool workers, API events, crashes and pruning keeps the table well-formed. |
| Inbox.PendingComesDue | internal/store/sqlite.go:418-432 | An unretired event is due again ten minutes after its last claim or retry write at the latest, whoever crashed. |
| Inbox.OneRowPerDelivery | internal/store/migrations/0002_operational.sql:3-4 | At any time each kind and delivery id has at most one stored row. |
| Inbox.RetirementAbsorbs | internal/store/sqlite.go:459-514 | Once retired an event is never due, claimed or rescheduled again and its attempts stay fixed. |
| Inbox.PendingIsKept | internal/store/sqlite.go:516-535 | An unretired event is never pruned. |
| Inbox.LeaseExclusion | internal/core/reconciler.go:829-901 | While every holder of a webhook event reports before its ten-minute lease ends, at most one worker holds each between claim and outcome, whatever stale snapshots the workers carry. |
| Inbox.ExclusionHangsOnLeases | internal/store/sqlite.go:459-473 | In every state so reached, no claim can make two workers hold one webhook event if and only if every holder is still within its lease. |
| Inbox.LateHolderCanBeJoined | internal/store/sqlite.go:459-473 | Whoever holds a webhook event past its lease can be joined on it by any idle worker. |
| Inbox.LateReportBreaksExclusion | internal/store/sqlite.go:459-473 | A run from the empty table in which that happens. |
| Drain.ReplayEvents | internal/core/reconciler.go:807-821 | The batch taken in order is the fold of single processings. |
| Drain.Poll | cmd/ramifyd/main.go:226-246 | What one tick takes on: the oldest due events, at most 100. |
| Drain.ProcessLowers | internal/core/reconciler.go:829-937 | Processing a due event from a fresh snapshot adds nothing, touches its row alone and lowers the tries left. |
| Drain.BatchLowers | internal/core/reconciler.go:807-821 | A batch lowers the sum of tries left by at least its length. |
| Drain.TenMinutesWork | internal/core/reconciler.go:807-937 | Of two polls ten minutes apart, with any polls and prunes of processed rows between: after the second either nothing is pending or a try has been used up since the first. |
| Drain.DrainTerminates | internal/core/reconciler.go:807-937 | Polls at any spacing, processed rows pruned between them at will: as soon as there have been, ten minutes apart, one more of them than tries left, every event still stored is retired and none was added. |
| Drain.SteadyPollerDrains | cmd/ramifyd/main.go:218-254 | A poller whose polls last at most L and follow each other within G, pruning between them or not, retires the inbox within ten minutes, 2L and G for every try left. |
| KeyedMutex.KeyedMutexMap.Enter | internal/core/keyedmutex.go:32-39 | What Lock does under k.mu: finds or adds the entry of the key and counts the caller. |
| KeyedMutex.KeyedMutexMap.Leave | internal/core/keyedmutex.go:44-49 | What the release does under k.mu: drops the count and forgets the key at zero. |
| KeyedMutex.RunKeepsInv | internal/core/keyedmutex.go:31-51 | In every interleaving of atomic steps of any threads on any keys, every thread holding or awaiting a key refers to the entry now in the map and refs counts exactly them. |
| KeyedMutex.MutualExclusion | internal/core/keyedmutex.go:31-51 | At most one thread is in the critical section of a key. |
| KeyedMutex.TrackedWhileUsed | internal/core/keyedmutex.go:31-51 | Whenever k.mu is free a key is in the map exactly when some thread holds, awaits or is about to release it, and refs is their number. |
| KeyedMutex.NoDeadlock | internal/core/keyedmutex.go:31-51 | While any thread is inside, some such thread can take a step. |
| Admission.NeverDestroyedWithinCeiling | internal/core/reconciler.go:266-299 | Over every interleaving of pushes and destroys, the live environments that were never destroyed stay within the larger of the ceiling and their initial number. |
| Admission.LocksHaveHolders | internal/core/reconciler.go:266-328 | In every interleaving, crashes and early returns included, a branch lock or the admission lock is held exactly by the one thread that is inside. |
| Admission.CreationCount | internal/core/reconciler.go:285-298 | A creating admission leaves what its thread counted, plus itself, plus the destroyed rows written live since that count, less the live rows written destroyed since; so within the ceiling if and only if the former outnumber the latter by no more than the slots left free. |
| Admission.NetIsWrites | internal/store/sqlite.go:96-143 | Over any stretch of a run the status writes change the live count by the revivals less the burials among them. |
| Admission.CreationWithinCeiling | internal/core/reconciler.go:266-299 | Every creation rests on a count, and with no revival since that count leaves at most the ceiling live. |
| Admission.RevivalOverrunsCeiling | internal/core/reconciler.go:277-280 | A concrete run with a ceiling of one in which a revival between count and creation leaves two live. |
| Workers.BoundedAndExactlyOnce | internal/core/reconciler.go:807-821 | In every interleaving of ReplayEvents with its goroutines and other lock users, never more than the limit in flight, events handed out in order and each once, and all finished when it returns. |
| Workers.NoDeadlock | internal/core/reconciler.go:274-338 | Taking branch lock before admission lock, some step other than starting new outside work is possible until ReplayEvents returns. |
| Workers.RankFalls | internal/core/reconciler.go:807-821 | Every step of the batch uses up work. |
| Workers.BatchTerminates | internal/core/reconciler.go:807-821 | A batch of m events is over after at most 9m + 1 steps of its own, however interleaved. |
| Quoting.UntxtTxt | providers/dns/route53/route53.go:90-100 | Reading back a printed TXT value gives the value, for every string. |
| Quoting.TxtIsQuoted | providers/dns/route53/route53.go:88-90 | Every printed value is a quoted string: a quote at either end and every quote between them right after a backslash; a value without quotes is printed as itself between two. |
| Quoting.BareIsRead | providers/dns/route53/route53.go:92-101 | A value stored without any quotes is read as it stands. |
| Quoting.TxtInjective | providers/dns/route53/route53.go:90 | Distinct values print differently. |
| Quoting.ShellQuoteIsOneWord | providers/deploy/compose/compose.go:209-211 | The POSIX shell (sections 2.2.1 to 2.2.3 of the POSIX.1-2017 Shell Command Language) reads the quoted string as one word, the string itself, with no operator, expansion or pattern in it. |
| Quoting.CommandWords | providers/deploy/compose/compose.go:141-144 | A command line of quoted parts and bare text without special characters is read as exactly the intended words, and as nothing but words. |
| Quoting.ApplyCommandWords | providers/deploy/compose/compose.go:141-144 | The apply command reaches the shell as its assignments and arguments with artifact, project and file verbatim. |
| Route53.DropValue | providers/dns/route53/route53.go:227-238 | Keeps, in order, the values that do not read back as the given one. |
| Route53.ContainsValue | providers/dns/route53/route53.go:128-135 | Whether some value reads back as the given one. |
| Route53.Provider.Ensure | providers/dns/route53/route53.go:148-180 | The request as API calls on the zone, each of which may go unanswered with or without having taken effect: what is checked, written and returned. |
| Route53.Provider.Remove | providers/dns/route53/route53.go:184-225 | The same for the delete, with its tolerated rejection of the main record only. |
| Route53Ownership.EnsureFrame | providers/dns/route53/route53.go:148-180 | Whatever call goes unanswered, only the requested type and TXT at that name can change, every TXT value is kept, and success means the record and the tag are there. |
| Route53Ownership.DeleteFrame | providers/dns/route53/route53.go:184-225 | Whatever call goes unanswered, nothing but the value and the marker is removed, every other value kept in order; success means the marker was there and is gone, and the value is gone unless it stood alone in another spelling. |
| Route53Ownership.EnsureAddsQuoted | providers/dns/route53/route53.go:148-180 | Whatever call goes unanswered, an ensure leaves the TXT values of the name alone or adds one at their end: a quoted string that reads back as the tag, or as the value of a TXT record. |
| Route53Ownership.EnsureVerdict | providers/dns/route53/route53.go:148-170 | An answered ensure is refused exactly for an unknown type and at a name whose record is not the owner's. |
| Route53Ownership.DeleteVerdict | providers/dns/route53/route53.go:184-225 | An answered delete is an ownership mismatch exactly without the marker, and rejected exactly if the tag stands alone in another spelling than the printed one. |
| Route53Ownership.DotsDoNotMatter | providers/dns/route53/route53.go:107-117 | A request for a name and one for the same name with its trailing dot are the same request. |
| Route53Ownership.EnsureIsIdempotent | providers/dns/route53/route53.go:148-180 | A second ensure of the same record changes nothing and succeeds whenever it is answered. |
| Route53Ownership.EnsureThenDelete | providers/dns/route53/route53.go:148-225 | Delete after a successful ensure succeeds and restores the zone exactly when the name had no record of that type and no TXT equal to the tag, and the value is its own reading. |
| Route53Ownership.SecondDeleteIsRefused | providers/dns/route53/route53.go:184-191 | A delete repeated after success is refused as an ownership mismatch and changes nothing. |
| Route53Ownership.RequestKeepsExclusive | providers/dns/route53/route53.go:148-225 | A request, however cut short, keeps at most one owner tag per name beside an A record exactly when it is not a torn delete: one whose removal of the last A value took effect and whose removal of the tag did not. |
| Route53Ownership.OthersAreRefused | providers/dns/route53/route53.go:165-191 | While a name carries one owner tag every request about it under another tag fails and leaves the zone as it is. |
| Route53Ownership.ExclusiveOwnership | providers/dns/route53/route53.go:148-225 | Over every run from a zone without owner tags and without torn deletes: at most one owner per name at all times, only beside an A record, and intruders change nothing. |
| Route53Ownership.OwnerHoldsTheName | providers/dns/route53/route53.go:148-225 | In such a run an owned name keeps its owner and its A record until the owner itself asks about it. |
| Route53Ownership.InterruptedEnsureIsStranded | providers/dns/route53/route53.go:170-179 | An ensure whose write of the record at a free name took effect and whose write of the tag did not leaves a record that the same request can never again update or delete. |
| Route53Ownership.CutEnsureCanBeAskedAgain | providers/dns/route53/route53.go:148-180 | An ensure that would have succeeded but was cut short, calls taking effect unanswered or not, can be asked again, and then ends like the uncut one, if and only if it was not cut at a free name between the effect of the record write and that of the tag write. |
| Route53Ownership.CutDeleteCanBeAskedAgain | providers/dns/route53/route53.go:184-225 | A delete that would have succeeded but was cut short, asked again and answered, always ends where the uncut one ends; it reports an ownership mismatch if and only if the removal of the TXT value had already taken effect, and success otherwise. |
| Route53Ownership.TornDeleteSharesTheName | providers/dns/route53/route53.go:207-224 | After a torn delete another owner can claim the name, which then carries both tags. |
| Route53Ownership.TornDeleteResumes | providers/dns/route53/route53.go:207-224 | A torn delete asked again and answered ends where an uninterrupted one would have. |
| Cloudflare.FindContent | providers/dns/cloudflare/cloudflare.go:123-129 | The first entry with the content, no earlier one having it, or none. |
| Cloudflare.Provider.EnsureSingleTxt | providers/dns/cloudflare/cloudflare.go:161-192 | The TXT case: nothing if some entry has the content, otherwise one entry more. |
| Cloudflare.Provider.Ensure | providers/dns/cloudflare/cloudflare.go:91-156 | The request as API calls on the entries, each of which may go unanswered with or without having taken effect. |
| Cloudflare.Provider.Delete | providers/dns/cloudflare/cloudflare.go:200-247 | The delete with its loop over the main entries, stopping at the first refusal, then the first matching TXT entry. |
| CloudflareOwnership.EnsureFrame | providers/dns/cloudflare/cloudflare.go:91-192 | Only the requested type and TXT at that name can change, at most one TXT entry is added and none lost; success means exactly one main entry with the value, and the tag. |
| CloudflareOwnership.DeleteFrame | providers/dns/cloudflare/cloudflare.go:200-247 | Success removes exactly the first matching TXT entry and the main entries with the value; failure leaves every TXT entry. |
| CloudflareOwnership.EnsureVerdict | providers/dns/cloudflare/cloudflare.go:91-156 | An answered ensure is refused exactly at a name that has records without the owner's tag, or several with it. |
| CloudflareOwnership.DeleteVerdict | providers/dns/cloudflare/cloudflare.go:200-225 | An answered delete is an ownership mismatch exactly without a TXT entry equal to the marker, and else succeeds. |
| CloudflareOwnership.DeleteMainsFrame | providers/dns/cloudflare/cloudflare.go:228-241 | The loop keeps every entry with another value, clears all with the value or stops with one left. |
| CloudflareOwnership.EnsureIsIdempotent | providers/dns/cloudflare/cloudflare.go:91-192 | A second ensure of the same record changes nothing and succeeds whenever it is answered. |
| CloudflareOwnership.EnsureThenDelete | providers/dns/cloudflare/cloudflare.go:91-247 | Delete after a successful ensure succeeds and restores the entries exactly when the name had none of that type and no TXT entry equal to the tag. |
| CloudflareOwnership.RequestKeepsExclusive | providers/dns/cloudflare/cloudflare.go:91-247 | A request, however cut short, keeps at most one owner tag per name beside an A entry exactly when it is not a torn delete: one whose removals of the last A entries took effect and whose removal of the tag did not. |
| CloudflareOwnership.OthersAreRefused | providers/dns/cloudflare/cloudflare.go:119-136 | While a name carries one owner tag every request about it under another tag fails and leaves the zone as it is. |
| CloudflareOwnership.ExclusiveOwnership | providers/dns/cloudflare/cloudflare.go:91-247 | Over every run from a zone without owner tags and without torn deletes: at most one owner per name at all times, only beside an A entry, and intruders change nothing. |
| CloudflareOwnership.OwnerHoldsTheName | providers/dns/cloudflare/cloudflare.go:91-247 | In such a run an owned name keeps its owner and its A entries until the owner itself asks about it. |
| CloudflareOwnership.InterruptedEnsureIsStranded | providers/dns/cloudflare/cloudflare.go:134-155 | An ensure whose record at a free name was created, answered or not, and whose tag was not leaves a record that the same request can never again update or delete. |
| CloudflareOwnership.CutEnsureCanBeAskedAgain | providers/dns/cloudflare/cloudflare.go:91-156 | An ensure that would have succeeded but was cut short, calls taking effect unanswered or not, can be asked again, and then ends like the uncut one, if and only if it was not cut at a free name between the effect of the creation and that of the tag. |
| CloudflareOwnership.CutDeleteCanBeAskedAgain | providers/dns/cloudflare/cloudflare.go:200-247 | A delete that would have succeeded but was cut short, asked again and answered: if the removal of its TXT entry had not taken effect it succeeds and ends where the uncut one ends; if it had, the cut one already stands there, and the answer is an ownership mismatch if and only if there was a single such entry. |
| CloudflareOwnership.SecondDelete | providers/dns/cloudflare/cloudflare.go:200-247 | A delete asked again after it succeeded is refused, as an ownership mismatch, if and only if the name had a single TXT entry equal to the tag. |
| CloudflareOwnership.TornDeleteSharesTheName | providers/dns/cloudflare/cloudflare.go:228-246 | After a torn delete another owner can claim the name, which then carries both tags. |
| CloudflareOwnership.TornDeleteResumes | providers/dns/cloudflare/cloudflare.go:228-246 | A torn delete asked again and answered ends where an uninterrupted one would have. |
| CertCache.Provider.EnsureCertificate | providers/cert/acme/acme.go:193-237 | The call alone: returns the cached certificate, untouched, exactly if it has more than thirty days left; otherwise asks the CA once, and what was issued is persisted, cached and returned; a failure changes neither and says which step failed. |
| CertCache.Provider.RevokeCertificate | providers/cert/acme/acme.go:242-261 | Nothing without a cached certificate; otherwise revoked, forgotten, then its file removed: what is left in cache and on disk, and the error, for every pattern of failures. |
| CertCache.AloneIsEnsure | providers/cert/acme/acme.go:193-237 | The interleaved steps, taken by one caller without interruption, come to what the call computes. |
| CertCache.OneIssuerAndOnlyWhenDue | providers/cert/acme/acme.go:201-211 | In every interleaving at most one caller is issuing, and the CA is asked only when no cached certificate of the domain has more than 30 days left. |
| CertCache.NoNeedlessObtain | providers/cert/acme/acme.go:193-237 | Once cached, a certificate keeps the CA from being asked for its domain until 30 days before expiry, across restarts, unless the domain is revoked. |
| CertCache.RestartKeepsCertificates | providers/cert/acme/acme.go:304-330 | Every cached certificate, or the one about to replace it, is in the cache after a restart. |
| CertCache.RevokedReturnsOnRestart | providers/cert/acme/acme.go:242-261 | After a revocation and a restart the certificate is back in the cache exactly if it was not revoked or its file could not be removed. |
| Paging.ListingIsOrdered | internal/store/sqlite.go:195-237 | The listing holds exactly the matching rows in strict (created_at, id) order. |
| Paging.ListingSpelledOut | internal/store/sqlite.go:195-237 | Which rows match, and that they come by creation time, rows of one time by id. |
| Paging.StoreWindow | internal/store/sqlite.go:195-237 | What the store returns for any limit and offset: the rows from the offset on, 100 for a limit that is not positive and 501 at most; negative offsets count as none. |
| Paging.TextOrderIsLexical | internal/store/sqlite.go:216-219 | Ids compare byte by byte: the first difference decides, and a proper prefix comes first. |
| Paging.ListingIsDetermined | internal/store/sqlite.go:216-219 | It does not depend on how the table is stored: id breaks every tie. |
| Paging.HandleListEnvironments | internal/api/handlers.go:180-232 | The handler shows exactly the rows from the offset on, as many as asked, a hundred by default, five hundred at most, and advertises a next offset exactly when rows are left; parameters that are no numbers or negative are refused. |
| Paging.FollowingYieldsTheListing | internal/api/handlers.go:194-213 | Following the advertised offsets, with any limit on each page, yields the whole listing once and stops. |
| Paging.ListAll | cmd/ramify/client.go:126-161 | The client loop: collects page after page, failing at the first request that is not answered or after 1000 pages. |
| Paging.ClientReturnsTheListing | cmd/ramify/client.go:119-161 | On a fixed table the client returns the whole listing exactly when it needs at most 1000 pages, otherwise an error. |
| Paging.ListingGrows | internal/store/sqlite.go:216-219 | A row created after all others is appended to the listing or does not match. |
| Paging.WalkOverGrowth | cmd/ramify/client.go:126-161 | While rows are only appended, a walk that ends returned the whole listing of the moment its last page was served. |
| Labels.NormalizeIsLabel | internal/core/domain/normalize.go:30-53 | Every branch becomes a non-empty label of letters, digits and single inner dashes (section 2.1 of RFC 1123, section 2.3.4 of RFC 1035), no longer than the limit when the limit is at least 6. |
| Labels.CleanedIsOnePass | internal/core/domain/normalize.go:33-37 | Lower-casing, replacing, stripping, collapsing and trimming come to one pass over the lower-cased name: letters and digits are kept, one dash stands between two of them wherever separators lay between, all else is left out. |
| Labels.NormalizeKeeps | internal/core/domain/normalize.go:39-52 | A name that leaves nothing becomes its hash; one that fits is that pass; one that does not is its prefix, as long as hash and limit allow but for a dash that would stand double, a dash and the hash. |
| Labels.NormalizeIsIdempotent | internal/core/domain/normalize.go:30-53 | Normalizing again under the same limit changes nothing, for every limit from 6 on. |
| Labels.CutLabelsTellHashesApart | internal/core/domain/normalize.go:46-58 | Two branches that had to be cut get the same label only if their short hashes are equal. |
| ComposeRefs.RefsAreStable | providers/deploy/compose/compose.go:127-139 | The first reference is "ramify-" and a label, at most 63 characters together, and redeploying on it keeps it. |
| ComposeRefs.SharedReferences | providers/deploy/compose/compose.go:115-139 | Two environments get the same first reference exactly if their joined names normalize alike; where both fit the limit, exactly if they are cleaned to the same label; where both are cut, only if their hashes agree. |
| ComposeRefs.DashesClash | providers/deploy/compose/compose.go:115-117 | Project a with branch b-d and project a-b with branch d always share their reference. |
| ComposeRefs.ClashTakesNeighbourDown | internal/core/reconciler.go:631-678 | For such neighbours the completed teardown of one removes the deployment the row of the other still counts on. |
| ComposeRefs.ComposeKeepsRefs | providers/deploy/compose/compose.go:127-150 | The compose provider meets what the recovery and row-history results ask of deployment references. |

## Left out

- JSON payloads and the dispatch of an event by its kind: parsing and dispatch are summed up in the outcome a processing has.
- Retry.ProcessEvent: takes that outcome (done, failed transiently, failed for good) as given; what webhook deliveries do in between is Reconciler.Reconciler.ProcessPush and ProcessClose.
- CrashRecovery.PushSurvivesCrashes: is about push deliveries that start from any status but destroying, where the code refuses the deploying write, over a store that works until the crash; deployment providers must be idempotent with references decided by project, branch and previous reference, as ComposeRefs.ComposeKeepsRefs shows for compose. It takes ensuring a DNS record as one step, as the provider interface does: with Route 53 and Cloudflare a push that dies between record and tag of a free name is refused by the provider on every replay, as InterruptedEnsureIsStranded and CutEnsureCanBeAskedAgain in both ownership modules show.
- FailureRecovery.PushSurvivesFailures: the same holds of its DNS provider; it covers failures of the store too, for rows that carry the reference a first deployment would choose or none. Anchors.ReachedPushesSurvive needs no such assumption: every row reached under one naming rule is of this kind. After a change of the rule a push that loses its last write can leave a stray deployment, as FailureRecovery.EmptyAttemptStrays says.
- CloseRecovery.CloseSurvivesFailures: is about the interface contract of DNS providers, which may answer "already absent"; Route 53 refuses a repeated delete instead, and so does Cloudflare when the tag was there once. CutDeleteCanBeAskedAgain in both ownership modules says exactly when the interrupted delete of one record is so refused.
- Inbox.LeaseExclusion: speaks of webhook events; events of the API are also worked on by the request that created them.
- Drain.DrainTerminates: takes one poller with fresh snapshots whose store answers, and a finite inbox; a store that never accepts an outcome keeps an event pending.
- Quoting.CommandWords: takes the words after the assignments as they are; aliases and reserved words of the remote shell are not modelled.
- HTTP serving, headers, TLS, sockets, sessions, dashboard, CLI commands other than the listing walk, configuration, metrics, logging and the text of notifications: input, output and presentation.
- SSH, kubectl, the cloud SDKs, the ACME client, git providers and webhook signature checks: calls into code outside the repository; deployments, certificates and DNS appear through their interface contracts.
- The branch and event rules of the admission policy: one boolean per delivery, since pattern matching is library code.
- The reaper and environment expiry, pinning and rollback requests: thin loops and handlers over the operations modelled here.
- Google Cloud and DigitalOcean DNS: the first quotes TXT values that are quoted already, the second skips the ownership check for an equal value, so the registry results do not carry over.
- Random row ids: an environment is named by project and branch, which the store keeps unique; rows of environments are never deleted.
- The process lock and schema migrations; cancellation of a request's context is modelled only in the readiness polling.
- The listing of managed DNS records and the cache of hosted zone ids: looking up a zone id is part of the API call that needs it.
- Crash recovery of a destroy requested through the API, when the crash falls between its event and the destroying write: the replay tears down without that write and is refused at the last move, as CloseRecovery.UnmarkedDestroyIsRefused says exactly.
- Teardown.TeardownPass: speaks of the deployment recorded in a fresh row; a deployment whose apply never succeeded has no recorded reference and is not covered.
- Admission.NeverDestroyedWithinCeiling: speaks of webhook pushes and destroys; applies through the API create rows without the ceiling.
- Workers.NoDeadlock: takes a processing as finitely many steps between its locks; a provider call that never returns is not modelled.
- Route53.Provider.Ensure: does not model that a name with a CNAME record can hold no other type, nor escapes other than the quote that the printer writes; change batches are answered at once rather than propagated.
- CertCache.NoNeedlessObtain: takes revocation of a domain and ensuring it as not overlapping, since revocation does not take the issuance lock.
- Labels.NormalizeIsLabel: takes lower-casing and the SHA-256 hash as parameters, known only to leave label characters alone and to be six hexadecimal digits.
- Paging.WalkOverGrowth: assumes that new rows sort after old ones, as they do while the clock does not run backwards.
