# request-sudo in Dafny

A model of request-sudo, the broker that lets an unprivileged user ask for one privileged command, has a
human approve it, and runs exactly that command once; and of the SMS adapter that carries the approval.
Everything is proved by the Dafny verifier; nothing here runs the original program.

`dafny verify dfyconfig.toml` checks the whole project.

## What is modelled

**The broker** (`Broker.dfy`) is a transition system. One action is one critical section of the broker
lock, one executor call or return, a crash, or a restart that replays, rebuilds and recovers and may die
half way. Clock readings, request ids, the lane and peer of each call, the configuration of each start and
the fate of every append are inputs of the actions, so a statement about all runs is a statement about all interleavings and all
failures. Two ghost fields, the executor calls made and the appends attempted, record the past; no step
reads them.

- `BrokerSafety.dfy`: with appends that may fail before, during or after the write at any time, and even
  with repeated request ids, the executor is called at most once per request; what statuses say about calls
  is true; flights belong to distinct executing requests; what is run is what was submitted and digested.
- `BrokerAgreement.dfy`: with all-or-nothing appends, lines the replay scanner can hold and fresh ids, the
  projection equals the rebuild of the log whenever the lock is free. Each of the three hypotheses is shown
  to be exactly what is needed.
- `BrokerDurability.dfy`: in every run, whatever appends do, a file that a restart would refuse is refused
  for ever, and until then its history is what the running broker knows plus at most one event. It also
  holds the induction principle the next file uses: what survives every append, stop and reload holds of
  all runs.
- `BrokerRecovery.dfy`: in every run, whatever appends do, recovery leaves nothing executing and adds exactly
  one event per dangling execution, however often it is cut short, also inside its own appends, and rerun;
  with all-or-nothing appends no restart is refused.
- `BrokerRecords.dfy`: in every run, what each event the broker writes says, field by field, and the rules
  that were met when it was written.
- `BrokerApproval.dfy`: in every run, each executor call comes after an approval of its request that was
  written to the file, given on the review lane by an allowed peer, in time, and not in the requester's
  name; while the file is accepted there is exactly one, before the start; terminal requests never change.
- `Service.dfy`: `Service`, with the log and the projection it owns, as objects. Every method is shown to
  take exactly one step of the transition system, so the results about runs are results about it.

**The log** (`HashLog.dfy`, `Events.dfy`) is a file of lines with a tail that need not end in a newline; a
write behind such a tail fuses with it. SHA-256 over the JSON envelope is a free constructor, which gives
collision freedom and a non-empty hash without an axiom. JSON decoding of an encoded record is the
identity; timestamps are instants and details are compared as JSON values, as the hash sees them.

**The projection** (`Projection.dfy`): the state machine, its language, and the independence of requests.

**Digest and command** (`Execution.dfy`): the digest is a free constructor over the six encoded fields, so
its encoding is taken to be injective (Go's JSON encoder replaces invalid UTF-8, which this does not cover).
`filepath.Clean` is modelled by its documented rules for rooted paths.

**The adapter**: the slot set and its audit replay (`PendingSet.dfy`); the adapter as a system in which the
send loop, any number of reply handlers, sweeps and restarts interleave at every step (`Adapter.dfy`); its
two entry points as programs whose critical sections are steps of that system (`Handlers.dfy`); the log
tailer (`CanonTail.dfy`), what it loses when scans cut lines (`CanonCuts.dfy`), and the routing file: its
round trip (`Approvers.dfy`) and what any line of it means (`ApproverLines.dfy`).

`Core.dfy` and `Text.dfy` hold the records and the string functions these share.

## Where the code differs from what is written about it

- The comment on `ReplayFromAudit` (internal/twilioadapter/pending_set.go:156-160) says that entries which
  have expired since are dropped at the end. The code does not do that: replay gives the live map with its
  stale entries (`ReplayGivesTheLiveMap`, with `StaleSlotSurvivesReplay` for a run), which is the map
  without them exactly when there are none (`ReplayIsUnexpiredIff`). They are dropped lazily later.
- "At most one pending Verify per phone within TTL" (internal/twilioadapter/pending_set.go:34-36) holds of
  claims (`ClaimsAreSeparated`). Two sends can lie closer together with no release between them in two ways:
  a reply releases the first one's slot while its send is still under way (`EarlyReplyUnseparatesSends`), or
  the first slot expires, since its TTL runs from the claim and not from the send
  (`LapseUnseparatesSends`; with a TTL of 600, claims at 0 and 600 and sends at 14 and 601).
  `SendsAreSeparatedIff` shows that there is no third way.
- `Release` (internal/twilioadapter/pending_set.go:98-109) clears the slot of a phone, whoever holds it by then.
  Two replies bound to one request can both reach it, and the second can free the slot of a request nobody
  has answered (`LateReleaseFreesAnother`). `FinishFreesItsSlotIff` states when a reply frees the slot it
  was bound to. Likewise the TTL is read when a reply is bound, not when the broker is called.
- A phone is claimed so that other requests for it are blocked
  (cmd/request-sudo-twilio-adapter/main.go:168-169). After a restart the claim can block its own request: a
  new tailer has seen nothing and starts at offset 0 (internal/twilioadapter/canon_tail.go:35-41), so old
  requests are delivered again, and one whose slot was replayed is turned away as busy
  (`RestartBlocksOwnClaim`). `OwnClaimBlocksIff` states exactly when that happens, and that it takes a
  restart.
- Audit rows are best effort (internal/twilioadapter/pending_set.go:129-145). A lost release or expiry row
  only keeps a slot taken after a restart (`LostRowsOnlyKeepSlots`); a lost opening row can let a phone be
  claimed twice within a TTL (`LostOpeningUnseparatesClaims`), and nothing but a release or such a loss can
  (`CloseClaimsAreSeparated`).
- The tailer is described as picking up new lines (internal/twilioadapter/canon_tail.go:22-25). A scan that
  catches a line half-written consumes it: the scans read the lines of the file if and only if each of them
  comes at a line boundary, with or without the newline (`ScansReadTheLinesIff`), and deliver what is in the
  file if and only if no line that delivers is cut (`DeliveriesAreCompleteIff`). `HalfLineIsLost` states what
  one cut loses.

## Model

| member | source | states |
|---|---|---|
| `HashLog.Log.Open` | internal/events/log.go:22-41 | opening fails exactly when the file does not replay, with that error; otherwise the head is the hash of the last event |
| `HashLog.Log.Append` | internal/events/log.go:43-80 | the file, head and result for every way the write can end; a successful append returns what was given, with the id and time filled in if they were not, chained to the head; an all-or-nothing append extends what replay returns by it |
| `HashLog.Log.ReplayAll` | internal/events/log.go:88-126 | the loop returns the first error or all records, chained, in file order |
| `HashLog.Seal` | internal/events/log.go:47-59 | a sealed event keeps what was given, has an id and a time, and carries the hash of its own envelope and the previous head |
| `HashLog.ReplayAccepts` | internal/events/log.go:100-121 | a file is accepted exactly when every line is readable and the records form a hash chain from the empty hash, and then replay returns the records |
| `HashLog.ReplayFailsIff` | internal/events/log.go:98-124 | replay fails with an error exactly when the first line that stops it does so for that reason: undecodable, over 2 MiB, off the chain, or not its own hash |
| `HashLog.PrefixAccepted` | internal/events/log.go:88-126 | every prefix of an accepted log is accepted and holds a prefix of its events |
| `HashLog.SameHeadSameLog` | internal/events/log.go:109-120 | two accepted logs have the same head exactly when they are the same log |
| `HashLog.DifferenceSpreads` | internal/events/log.go:109-153 | if two accepted logs differ at one position, their hashes differ at every common position from there on |
| `HashLog.AppendKeepsAgreementIff` | internal/events/log.go:53-79 | file and head stay together exactly when the append is all-or-nothing and its line fits the scanner |
| `HashLog.WriteIsMonotone` | internal/events/log.go:61-76 | no write repairs a damaged file; an undamaged one has kept all its lines, and a successful append is on it |
| `HashLog.ReplayReturnsWhatWasAppended` | internal/events/log.go:22-126 | however appends and reopenings are interleaved, replay returns, in order, one event per successful append with what its caller gave, and the head is the last one's hash |
| `Projections.Projection.Apply` | internal/projection/projection.go:30-122 | the map after one event, or the error and the map unchanged |
| `Projections.Projection.Rebuild` | internal/projection/projection.go:20-28 | the fold over the history, or its first error |
| `Projections.Projection.Get` | internal/projection/projection.go:124-127 | the snapshot of the id, if there is one |
| `Projections.Projection.All` | internal/projection/projection.go:129-140 | the snapshots in the order of the sorted keys, whatever order the map is walked in |
| `Projections.RebuildIsPerRequest` | internal/projection/projection.go:20-122 | a history is accepted exactly when each request's own events are, and they alone determine its snapshot |
| `Projections.ShuffleRebuildsTheSame` | internal/projection/projection.go:20-122 | a shuffle that keeps each request's order is accepted exactly when the original is, with the same projection |
| `Projections.RebuildAcceptsLifecycles` | internal/projection/projection.go:30-122 | a history is accepted exactly when it decodes and every request's events are a prefix of created, then denied, expired, revoked, or approved and then revoked or started and one ending; with the resulting statuses |
| `Projections.RebuiltStatuses` | internal/projection/projection.go:41-115 | the status of each request, by the type of its last event |
| `Projections.RebuildGivesSnapshots` | internal/projection/projection.go:41-120 | every field of a rebuilt snapshot, read off the request's events by their position |
| `Projections.AdvanceAccepts` | internal/projection/projection.go:54-115 | which event types may follow which status, in both directions, and the status each leaves |
| `Projections.AdvanceClimbs` | internal/core/types.go:87-94 | every accepted event strictly raises the rank, keeps the request record, and never follows a terminal status |
| `Projections.AcceptedLogIsShort` | internal/projection/projection.go:30-122 | an accepted log has at most four events per created request |
| `Projections.RebuildMarks` | internal/projection/projection.go:41-112 | every event of an accepted history shows in its snapshot: the created record, a started execution, a success |
| `Projections.RebuildIsGrounded` | internal/projection/projection.go:41-112 | every snapshot has its record, its start and its success in the history |
| `Text.SortedKeysOf` | internal/broker/service.go:336-340 | sorting the keys of a map gives the same list whatever order they are collected in |
| `Text.LexOrder` | internal/execution/executor.go:78 | one string sorts before another exactly when it is a prefix of it or smaller where they first differ |
| `Text.TrimSpaceIs` | internal/twilioadapter/approvers.go:43 | trimming takes away the white space around a text and nothing else |
| `Text.SpacesAre` | internal/twilioadapter/approvers.go:43 | the characters that count as white space |
| `Execution.EnvSlice` | internal/execution/executor.go:73-84 | the environment list is the canonical one, independent of map order |
| `Execution.EnvListExact` | internal/execution/executor.go:73-84 | the list holds "key=value" once for each key, in byte order of the keys |
| `Execution.EnvListInjective` | internal/broker/service.go:336-344 | environments without '=' in a key have equal lists exactly when they are equal |
| `Execution.EqualsSignCollides` | internal/broker/service.go:342-344 | with an '=' in a key two different environments have the same list |
| `Execution.NormalizeKeepsThePlace` | internal/execution/executor.go:86-98 | a rooted directory becomes a path to the same place than which none is shorter, anything else "/" |
| `Execution.NormalizeRoot` | internal/execution/executor.go:86-98 | the root is itself, and nothing lies above it |
| `Execution.NormalizeElement` | internal/execution/executor.go:86-98 | a proper element is appended to the normalized directory |
| `Execution.NormalizeDot` | internal/execution/executor.go:86-98 | "" and "." change nothing |
| `Execution.NormalizeUp` | internal/execution/executor.go:86-98 | ".." takes away the element before it |
| `Execution.NormalizePrefixFirst` | internal/execution/executor.go:86-98 | what a path begins with may be normalized first |
| `Execution.NormalizeOthers` | internal/execution/executor.go:86-92 | a directory that is not absolute becomes the root |
| `Execution.PathIsShortest` | internal/execution/executor.go:86-98 | cleaning never lengthens a rooted path |
| `Execution.NormalizeIdempotent` | internal/execution/executor.go:86-98 | normalizing twice is normalizing once |
| `Execution.Prepare` | internal/execution/executor.go:43-51 | the command is all of the argv, the normalized directory and the environment list, or none for an empty argv |
| `Execution.DigestRequest` | internal/broker/service.go:335-362 | the digest is that of the canonical environment list and the other five fields |
| `Execution.DigestInjective` | internal/broker/service.go:335-362 | digests are equal exactly when argv, environment, directory, uid, request id and expiry are |
| `Execution.SpecDigestInjective` | internal/broker/service.go:109-121 | the same for the digests the broker writes, whose environment is fixed |
| `Execution.NormalSpecIsCovered` | internal/execution/executor.go:43-51 | a digest over a normalized spec covers the very argv, environment list and directory the executor uses |
| `BrokerSafety.RunSafe` | internal/broker/service.go:95-333 | the safety invariant holds in every world of every run, whatever appends do |
| `BrokerSafety.ExecutorCalledAtMostOnce` | internal/broker/service.go:221-298 | over all interleavings, crashes and restarts the executor is called at most once per request id |
| `BrokerSafety.StatusTellsTheTruthAboutCalls` | internal/broker/service.go:232-298 | a called request is executing, executed or failed from then on; an executed one had exactly one call, which returned the recorded result and no error |
| `BrokerSafety.CalledOnlyWhileExecuting` | internal/broker/service.go:263-275 | the call is made only for a request that is executing at that moment, with its record |
| `BrokerSafety.FlightsAreExecuting` | internal/broker/service.go:268-287 | in-flight executions belong to distinct requests, each executing |
| `BrokerSafety.GapKeepsExecuting` | internal/broker/service.go:273-287 | whatever runs in the gap of `Execute`, its request stays executing and its record the same until its own second critical section or a crash |
| `BrokerSafety.ClosingApplyIsAccepted` | internal/broker/service.go:287-295 | the closing `Apply` is never rejected |
| `BrokerSafety.RestartRebuildsSafely` | internal/broker/service.go:70-77 | what a restart rebuilds from a possibly torn file agrees with every call made before the crash |
| `BrokerSafety.ExecutorRunsWhatWasSubmitted` | internal/broker/service.go:109-121 | every request handed to the executor is, field by field, the record of some submission under the configuration then in force, is on disk as created unless the file is damaged for good, is run with the submitted argv, the normalized directory and the fixed environment, and its digest covers those |
| `BrokerAgreement.EmitAgreesIff` | internal/broker/service.go:127-138 | log and projection stay in agreement exactly when the append is all-or-nothing, fits, and `Apply` takes what landed |
| `BrokerAgreement.FreshIdIsNeeded` | internal/broker/service.go:107-138 | a submission whose line landed keeps agreement exactly when its id is unused |
| `BrokerAgreement.LogAndProjectionAgree` | internal/broker/service.go:95-333 | at every point of a clean run the file replays and rebuilds to exactly the running projection and head |
| `BrokerDurability.RunKeeps` | internal/broker/service.go:65-333 | a property that survives every append, stop and reload, and does not look at flights or calls, holds after every run |
| `BrokerDurability.LogOnlyGrows` | internal/events/log.go:61-76 | in every run the file only grows; if it is accepted it always was, with a history that has only grown, so a refused file is refused for ever |
| `BrokerDurability.EmitToAccepted` | internal/broker/service.go:127-138 | if the file is still accepted after an append that wrote anything, memory knew all of it before, and knows all of it again if the append succeeded |
| `BrokerDurability.MemoryLagsByAtMostOne` | internal/broker/service.go:65-333 | in every run, while the broker is up, the file is refused for ever or its history is what memory knows followed by at most one event |
| `BrokerRecovery.RecoverIsExact` | internal/broker/service.go:315-333 | one run of the recovery loop, complete or cut short by an append that fails in any way, leaves none executing if it completes, and adds to a file that is still accepted one recovery event each for executing requests only |
| `BrokerRecovery.RecoveryEffect` | internal/broker/service.go:315-333 | recovery events change exactly the requests they name, from executing to failed |
| `BrokerRecovery.RecoveryIsExactOverReruns` | internal/broker/service.go:70-92 | in every run, over any number of reruns that crash or fail anywhere, recovery leaves none executing; while the file is accepted it has added at most one event per dangling execution, and exactly one once the broker is up, and touched nothing else |
| `BrokerRecovery.RestartIsNeverRefused` | internal/broker/service.go:65-93 | after any clean run a restart whose appends succeed comes up, with exactly the dangling executions marked |
| `BrokerRecords.EveryEventIsJustified` | internal/broker/service.go:95-333 | in every run, each event handed to the log says what its action said, under the right name, and was allowed: creations, approvals, denials, expiries, starts, endings and recovery marks |
| `Broker.ValidApproverIff` | internal/broker/service.go:371-380 | an approver is accepted exactly when it is named and is neither the requester's user name, nor the numeral of the uid, nor that behind "uid:" |
| `Broker.NumeralIsItoa` | internal/broker/service.go:375 | the decimal numeral, read by value, is the one that is written |
| `BrokerApproval.LogIsTraced` | internal/broker/service.go:95-333 | in every run, each event of an accepted log was written by a broker that knew exactly what the log before it says |
| `BrokerApproval.EveryCallWasApproved` | internal/socket/server.go:107-153 | in every run, whatever appends do, each executor call was made after an approval of its request had been written: on the review lane, by a peer allowed by the configuration in force at the approval, by a non-empty approver who is none of the requester's three names, before expiry |
| `BrokerApproval.GrantedIsApproved` | internal/broker/service.go:157-187 | in every run, a request that is approved, executing, executed or failed has such an approval |
| `BrokerApproval.ExecutionIsPrecededByApproval` | internal/broker/service.go:157-275 | in every run whose file a restart would accept, each started execution in the log is preceded by exactly one approval of its request, which meets all those rules |
| `BrokerApproval.CallsAreInTheLog` | internal/broker/service.go:258-275 | while the file is accepted, every executor call has its start in the log and its record is the rebuilt one |
| `BrokerApproval.TerminalIsForever` | internal/broker/service.go:300-313 | in every run, a terminal request keeps its snapshot in every continuation, also if the clock steps back and whatever appends do |
| `BrokerApproval.OverdueExpires` | internal/broker/service.go:300-313 | touching an overdue pending request expires it, and changes no other |
| `BrokerService.Service.Submit` | internal/broker/service.go:95-141 | one submit step, when it succeeds, its answer or error, and every field of the record it leaves |
| `BrokerService.Service.GetStatus` | internal/broker/service.go:143-155 | one status step and its answer in every case |
| `BrokerService.Service.ExpireIfNeeded` | internal/broker/service.go:300-313 | expires exactly the overdue pending request |
| `BrokerService.Service.ReviewWith` | internal/broker/service.go:157-219 | one review step and its answer in every case: missing, not pending, overdue, unnamed or self approver, failed append, done; the reviewer and reason it records, and that nothing else changes |
| `BrokerService.Service.ExecuteBegin` | internal/broker/service.go:221-273 | the first critical section is one step; it goes ahead exactly for an approved request whose start was written, and otherwise gives the answer of each status |
| `BrokerService.Service.ExecuteEnd` | internal/broker/service.go:276-298 | the second critical section is one step; it fails only if its append does, and records the outcome |
| `BrokerService.Service.RecoverExecuting` | internal/broker/service.go:315-333 | the recovery loop computes the recovery step |
| `BrokerService.NewService` | internal/broker/service.go:65-93 | starting is one restart step; it fails exactly when that step leaves the broker down |
| `BrokerService.DispatchApprove` | internal/socket/server.go:124-131 | an approve call is one step, refused off the review lane or for a peer not allowed, and otherwise answered as a review |
| `BrokerService.DispatchDeny` | internal/socket/server.go:132-139 | a deny call is one step, refused off the review lane or for a peer not allowed, and otherwise answered as a review |
| `BrokerService.DispatchSubmit` | internal/socket/server.go:109-113 | a submit call is one step, refused off the request lane |
| `BrokerService.DispatchStatus` | internal/socket/server.go:114-118 | a status call is one step, refused off the request lane |
| `BrokerService.DispatchExecute` | internal/socket/server.go:119-123 | an execute call begins with one step, refused off the request lane |
| `PendingSets.PendingSet.OpenPending` | internal/twilioadapter/pending_set.go:62-77 | when a claim is refused, and the slots and rows it leaves, the row of an expired holder included |
| `PendingSets.PendingSet.Resolve` | internal/twilioadapter/pending_set.go:82-96 | the request holding the phone within TTL, or none and the stale slot expired |
| `PendingSets.PendingSet.Release` | internal/twilioadapter/pending_set.go:100-109 | the slot is cleared and a row written, or nothing |
| `PendingSets.PendingSet.ExpireDue` | internal/twilioadapter/pending_set.go:114-127 | exactly the slots a TTL old go, whatever order the map is walked in, each with its row, and they are counted |
| `PendingSets.PendingSet.ReplayFromAudit` | internal/twilioadapter/pending_set.go:164-251 | filter, stable sort and fold of the file's rows; a missing file changes nothing |
| `PendingSets.StableSortIsStable` | internal/twilioadapter/pending_set.go:230-233 | the sort is an ordered permutation that keeps rows of equal time in order |
| `PendingSets.RowsDecide` | internal/twilioadapter/pending_set.go:234-249 | of any rows: a phone is held by a request since a time exactly when a row opens it so and no later row opens it again or ends that request's claim |
| `PendingSets.RelevantRows` | internal/twilioadapter/pending_set.go:189-229 | replay keeps exactly the slot rows that name a phone and a request |
| `PendingSets.ReplayGivesTheLiveMap` | internal/twilioadapter/pending_set.go:62-251 | after any run, with any sweep order, other rows and restarts that may themselves have found rows missing, replaying the rows gives exactly the live map |
| `PendingSets.ReplayIsUnexpiredIff` | internal/twilioadapter/pending_set.go:152-251 | replay gives the live map without its stale entries exactly when none is stale |
| `PendingSets.StaleSlotSurvivesReplay` | internal/twilioadapter/pending_set.go:152-251 | a stale slot that replay keeps |
| `PendingSets.LostRowsOnlyKeepSlots` | internal/twilioadapter/pending_set.go:129-145 | after any run, itself with restarts that found rows missing, losing any rows but openings of a phone leaves its slot as it is; so losing release and expiry rows gives a superset that agrees with every live slot |
| `PendingSets.CloseClaimsAreSeparated` | internal/twilioadapter/pending_set.go:62-145 | two claims of a phone less than a TTL apart have a release of it between them, or a restart that missed an opening row of it |
| `PendingSets.LostOpeningUnseparatesClaims` | internal/twilioadapter/pending_set.go:129-145 | runs in which a lost opening row lets a phone be claimed twice |
| `PendingSets.ClockMustNotStepBack` | internal/twilioadapter/pending_set.go:230-249 | a run with a clock that steps back whose replay differs from the live map |
| `PendingSets.SweepLeavesTheFresh` | internal/twilioadapter/pending_set.go:117-125 | a sweep removes the stale slots it walks over and no other |
| `AdapterRuns.RunOk` | internal/twilioadapter/pending_set.go:62-127 | the slots always agree with the trace of claims, releases and expiries, and every handler with the binding and check it has passed, also across restarts |
| `AdapterRuns.ReviewsAreBound` | internal/twilioadapter/webhook_handler.go:131-208 | whatever interleaves, every review call names the request that had last opened the sender's phone when the reply was bound, less than a TTL before; every approve follows an approved check of that very reply; the request still holds the phone at the call exactly when nothing has released or expired it since |
| `AdapterRuns.PromptReviewsAreInTime` | internal/twilioadapter/webhook_handler.go:131-208 | for a reply handled as one step, the request opened the phone less than a TTL before the call and holds it |
| `AdapterRuns.FinishFreesItsSlotIff` | internal/twilioadapter/pending_set.go:98-109 | the release at the end of a reply frees the slot the reply was bound to exactly when nothing has emptied that slot since |
| `AdapterRuns.LateReleaseFreesAnother` | internal/twilioadapter/webhook_handler.go:190-205 | runs in which a reply's release frees another request's slot |
| `AdapterRuns.ClaimsAreSeparated` | internal/twilioadapter/pending_set.go:62-77 | two claims of a phone less than a TTL apart have a release of it between them, also across restarts |
| `AdapterRuns.SendsAreClaimed` | cmd/request-sudo-twilio-adapter/main.go:170-199 | every send is the only one under its claim, the last claim before it |
| `AdapterRuns.SlotEndsOnce` | internal/twilioadapter/pending_set.go:62-127 | between a claim and the next one of the phone exactly one release or expiry ends the slot, and expiry takes a full TTL |
| `AdapterRuns.SendsAreSeparatedIff` | cmd/request-sudo-twilio-adapter/main.go:156-222 | two sends to one phone have a release between them exactly when the first slot was ended by a release that did not come during its own send, or a later slot was released before the second send; with the next claim less than a TTL after the first, only an early release can prevent it |
| `AdapterRuns.SendsAreSeparated` | cmd/request-sudo-twilio-adapter/main.go:156-222 | two sends whose claims are less than a TTL apart have a release between their claims, and between the sends unless the first slot was released during its send |
| `AdapterRuns.EarlyReplyUnseparatesSends` | cmd/request-sudo-twilio-adapter/main.go:170-214 | runs in which a release during the first send leaves two sends unseparated |
| `AdapterRuns.LapseUnseparatesSends` | internal/twilioadapter/pending_set.go:62-77 | runs in which expiry leaves two sends unseparated, however close together they are |
| `AdapterRuns.OwnClaimBlocksIff` | cmd/request-sudo-twilio-adapter/main.go:168-181 | when requests are delivered once per start, a delivery is blocked by its own request exactly when an earlier claim by it is still open and less than a TTL old, and then it was made before a restart |
| `AdapterRuns.RestartBlocksOwnClaim` | internal/twilioadapter/canon_tail.go:35-41 | runs in which a request delivered again after a restart is blocked by its own claim |
| `AdapterRuns.ClaimsWereDelivered` | cmd/request-sudo-twilio-adapter/main.go:168-181 | every claim goes back to a delivery of that request to that phone at that time |
| `AdapterRuns.RollbackFreesItsOwnSlot` | cmd/request-sudo-twilio-adapter/main.go:201-213 | a rollback frees at most the slot its own request claimed |
| `AdapterRuns.ExpireDueSweeps` | internal/twilioadapter/pending_set.go:114-127 | a sweep of the adapter is a sweep of its slots |
| `AdapterHandlers.ClaimSlot` | cmd/request-sudo-twilio-adapter/main.go:168-181 | claiming is one step of the adapter system, refused exactly when the phone is busy |
| `AdapterHandlers.EndSend` | cmd/request-sudo-twilio-adapter/main.go:183-221 | the end of a send is one step from whatever state the others have left; a failure frees the phone |
| `AdapterHandlers.DeliverTo` | cmd/request-sudo-twilio-adapter/main.go:156-222 | one turn of the loop takes those two steps; what its outcome means for the slot; no other slot changes |
| `AdapterHandlers.HandlePending` | cmd/request-sudo-twilio-adapter/main.go:134-223 | the call takes the steps of its turns in order; every outcome is explained by the slots before the call; a recipient is blocked by the request itself exactly when that held the phone before the call, never by a claim of this call |
| `AdapterHandlers.BindReply` | internal/twilioadapter/webhook_handler.go:131-143 | binding a reply is one step of the adapter system, and gives the request that holds the phone within TTL |
| `AdapterHandlers.FinishReply` | internal/twilioadapter/webhook_handler.go:178-186 | the release is one step from whatever state the others have left |
| `AdapterHandlers.HandleInboundReply` | internal/twilioadapter/webhook_handler.go:131-208 | the handler takes the reply, check, review and finish steps; it calls the broker exactly for a bound reply whose code, if it approves, was approved, and names the request holding the phone |
| `CanonTail.ScansReadTheLinesIff` | internal/twilioadapter/canon_tail.go:74-112 | however the file grows, all scans together read exactly the lines of the final file if and only if each came at a line boundary, with or without the newline |
| `CanonTail.RescansEqualOneScan` | internal/twilioadapter/canon_tail.go:74-112 | however the file grows by lines, complete but for a newline, all scans together equal one scan of the final file, with the offset behind its last line |
| `CanonTail.ScanDeliversFirstAnnouncements` | internal/twilioadapter/canon_tail.go:114-145 | a scan delivers each announced id once, at its first announcement, in file order |
| `CanonTail.DeliveriesAccumulate` | internal/twilioadapter/canon_tail.go:74-112 | what was delivered before does not change what a scan adds |
| `CanonTail.OffsetKeepsUp` | internal/twilioadapter/canon_tail.go:92-103 | however the file grows, the offset is at its end, or one byte further if it does not end in a newline |
| `CanonTail.CutReads` | internal/twilioadapter/canon_tail.go:92-103 | for any line and cut, the two pieces that are read, and the whole line if only its newline was missing |
| `CanonTail.HalfLineIsLost` | internal/twilioadapter/canon_tail.go:92-103 | a line caught half-written is lost, and it alone, at its place among the deliveries |
| `CanonTail.CutIsHarmlessIff` | internal/twilioadapter/canon_tail.go:92-103 | a scan within a line loses nothing exactly when it comes before it, lacks only its newline, or the line is not one that is delivered |
| `CanonCuts.HeardIsHandled` | internal/twilioadapter/canon_tail.go:74-145 | however the file grows and lines are cut, handling what the scans read is handling the lines no scan has cut, in order |
| `CanonCuts.DeliveriesAreCompleteIff` | internal/twilioadapter/canon_tail.go:74-145 | however the file grows and however many lines are cut, all scans together deliver what one scan of the final file does if and only if no line that delivers a request was cut |
| `CanonTail.CanonTailer.Handle` | internal/twilioadapter/canon_tail.go:114-145 | marks an id seen before decoding its details, and delivers it at most once |
| `CanonTail.CanonTailer.ScanOnce` | internal/twilioadapter/canon_tail.go:74-112 | the read loop computes one scan; a missing file changes nothing |
| `Approvers.ParseApprovers` | internal/twilioadapter/approvers.go:82-200 | the policy its lines give, or the error: a line of 1 MiB or more, or neither a set nor a route |
| `ApproverLines.CommentIsIgnored` | internal/twilioadapter/approvers.go:202-209 | in any state, a line with a comment reads like the line without it |
| `ApproverLines.PadIsIgnored` | internal/twilioadapter/approvers.go:104-109 | white space at the end of a line changes nothing |
| `ApproverLines.BlankIsSkipped` | internal/twilioadapter/approvers.go:105-107 | a blank or comment line is passed over |
| `ApproverLines.HeaderMeans` | internal/twilioadapter/approvers.go:112-129 | a header at the left margin begins its section, or an unknown one |
| `ApproverLines.ScalarMeans` | internal/twilioadapter/approvers.go:133-136 | another setting at the left margin ends the section |
| `ApproverLines.SetLineMeans` | internal/twilioadapter/approvers.go:139-150 | what any other line does among the sets |
| `ApproverLines.ApproverLineMeans` | internal/twilioadapter/approvers.go:151-171 | what any other line does among the approvers |
| `ApproverLines.RoutingLineMeans` | internal/twilioadapter/approvers.go:172-190 | what any other line does in the routing |
| `Approvers.TrimQuotesIs` | internal/twilioadapter/approvers.go:147 | quotes around a value, and only those, are taken away |
| `Approvers.PrintedFileParses` | tests/integration/helpers.go:82-107 | parsing the printed file recovers the approver set, the phones and the route |
| `ApproverLines.DecoratedFileParses` | internal/twilioadapter/approvers.go:100-200 | the same of a printed file with white space and comments added to any lines, and blank or comment lines between them |
| `Approvers.WriterWrites` | tests/integration/helpers.go:82-107 | the lines of the printed file: two spaces for each level, and phones between double quotes |
| `Approvers.RoutedUserReachesEveryPhone` | internal/twilioadapter/approvers.go:30-52 | on the parsed result, the routed user's recipients are the first-seen union of the printed phones |
| `Approvers.FirstSeenIsUnion` | internal/twilioadapter/approvers.go:39-51 | the union holds each candidate exactly once and nothing else |
| `Approvers.FirstSeenKeepsOrder` | internal/twilioadapter/approvers.go:39-51 | it is in the order of first occurrence |
| `Approvers.LookupRecipients` | internal/twilioadapter/approvers.go:30-52 | the nested loops compute that union, without duplicates; a phone is in it exactly when it is the non-empty trimmed form of one listed for a member of the routed set |
| `Approvers.CandidatesJoin` | internal/twilioadapter/approvers.go:41-42 | the members are walked in order |

## Left out

- AdapterHandlers.DeliverTo: composes its two sections with nothing between them; what others do in the gap is covered by `ClaimSlot` and `EndSend`, each for any state, and by the results on adapter runs. The same holds of `HandlePending` and `HandleInboundReply`.
- CanonTail.CutIsHarmlessIff: is about one cut line; `DeliveriesAreCompleteIff` is about any number, for ids that are announced once. Both are for decoders that take no part of a line for an announcement.
- AdapterRuns.RunOk: and the other results on adapter runs assume that every audit row is written; lost rows are covered for the slot set alone, in `PendingSets`.
- Approvers.PrintedFileParses: names have no '#', newline, or white space or quote at an end, and phones are printable ASCII without '#', quote or backslash, where Go's `%q` prints them as they are; an empty map, for which the writer prints a placeholder, is not covered.
- Socket listening, peer credentials and JSON wire encoding: operating-system calls; lane and peer are inputs of the actions.
- Running the child process and capturing its output: an arbitrary result.
- The Twilio HTTP clients and the webhook signature: arbitrary answers, and an accepted signature.
- SHA-256, JSON and random ids as algorithms.
- `ParseReplyIntent`, `ParseReply`, `MaskPhone`, the country guard, env-file loading and request summaries: small string functions that would add only easy members; a reply's intent and a phone's country are inputs.
- A revoke operation: the projection accepts the event, and the language results cover it, but no broker method writes it.
- Mutual exclusion itself: the broker mutex is the granularity of the actions; Go's memory model is not modelled.
- Designs the code does not implement: RFC 8785 encoding, sequence numbers, boot ids, the HEAD file, the install witness, monthly rotation, output truncation, execution timeouts.
- Command-line tools, install scripts and the systemd unit.
