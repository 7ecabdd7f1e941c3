# Verified model of the spot player backend

The backend sends play and stop commands to speaker nodes over WebSockets, plays a rotating
sequence of spots by itself, enrolls nodes, follows whether they are alive, and guards the
administrator's login. This project models the parts of it that are state machines or codecs
and proves what they promise, and, where a promise fails, exactly when it holds.

Where the server changes things step by step, so does the model: `ConnectionManager`,
`SchedulerService`, `LoginRateLimiter` and `Database` are classes whose methods follow the
code branch by branch, and each method is proved against a specification function. The
theorems are about those functions over whole runs: every interleaving at the places where the
server awaits.

| file | models |
|---|---|
| `Manager.dfy` | the connection manager: sockets, pending acknowledgements, futures |
| `Playback.dfy`, `PlaybackReports.dfy`, `PlaybackLaws.dfy`, `PlaybackService.dfy` | bulk play and stop, what a report is worth, and what its statuses mean |
| `Gateway.dfy`, `Attribution.dfy`, `Takeovers.dfy` | one node's WebSocket session: HELLO, messages, clean-up; and whole runs of sessions and dispatches |
| `Scheduler.dfy`, `SchedulerRuns.dfy`, `SchedulerHistory.dfy`, `SchedulerLaws.dfy`, `Autoplay.dfy` | autoplay: configuration, timer job, ticks; its runs; and the service object |
| `RateLimiter.dfy`, `RateLimits.dfy` | the login rate limiter and the window it enforces |
| `Records.dfy`, `Nodes.dfy`, `Enrollments.dfy`, `RegistryRuns.dfy`, `RegistryLaws.dfy`, `Expiry.dfy`, `NodeService.dfy`, `EnrollmentService.dfy` | node and enrollment tables, what happens to their rows, all runs of that, and the two services |
| `Texts.dfy`, `Protocol.dfy`, `Base64Url.dfy`, `Security.dfy` | protocol versions, base64url, signed tokens, stored secrets |
| `Arithmetic.dfy`, `Wrappers.dfy` | division and remainder; Option and Result |

## How concurrency and time appear

- Between two awaits the code is atomic. One dispatch sees everything else on the event loop --
  other dispatches, incoming messages, sockets coming and going -- as a trace of manager events
  with non-decreasing integer times, and consumes it whenever it awaits. A session and a tick
  likewise take turns with arbitrary events of the rest of the server. All theorems quantify
  over these traces.
- Request ids are fresh: no other dispatch uses the id of this one, and no key is sent twice.
- Every call of a synchronous service is one atomic step, also where the server runs it in a
  thread pool.
- An event at the very instant of a deadline counts as in time. After a future is settled, any
  number of events of that same instant may run before the dispatch resumes.
- A tick chooses its spot and its dispatch looks it up in two database sessions; threads of the
  server, such as the retention sweep, may get between them. The dispatch raises, before it sends
  anything, exactly if the spot is inactive then.
- The autoplay job is an optional time; arming replaces it, firing consumes it, and a fire more
  than 30 seconds late is dropped. The clock does not go back.
- Tokens are compared directly in the node table: only the token that was hashed verifies
  against its hash, which `Security.SecretVerifiesIff` reduces to the key derivation being
  injective.

## What turned out not to hold, and exactly when it does

- The manager forgets by node id, not by socket, so the end of a replaced session takes the
  node's newer connection down. The newest socket stays registered if and only if no disconnect
  of the node follows it (`Manager.NewestSocketStaysIff`); a session finds its own socket still
  registered at its clean-up if and only if no other session of the node has connected or cleaned
  up since its HELLO (`Gateway.OwnSocketStaysIff`; a run in which it is not is
  `Takeovers.OlderSessionTakesNewerDown`).
- The timer stays armed throughout a run if and only if no job is noticed more than 30 seconds
  late with no tick in flight, and no chosen spot is inactive at the look-up of its dispatch with
  autoplay on and the timer not re-armed meanwhile (`SchedulerRuns.ArmedThroughoutIff`; a run in
  which the latter happens is `SchedulerRuns.DeactivatedSpotStalls`). A restart keeps autoplay
  going if and only if it comes no later than 30 seconds after the stored deadline; otherwise
  autoplay is over until somebody intervenes, although it still counts as enabled
  (`SchedulerRuns.RestartKeepsAutoplayIff`, `SchedulerRuns.LateRestartStops`).
- The rate limiter keeps every closed window at or below the limit in all runs if and only if
  the limit is at least one and the lockout is longer than the window
  (`RateLimits.EnforcedIff`).
- A disconnected node stays offline until it speaks again if and only if no sweep comes while its
  last heartbeat is young (`RegistryRuns.HungUpStaysOfflineIff`); such a sweep can make it a target
  of autoplay again (`Nodes.SweepRevivesTarget`). Status and playback messages do not count as
  heartbeats (`Nodes.OnlyBeatsCount`).
- Encoding what was decoded gives back the text if and only if the text has no stray characters
  and no surplus bits (`Base64Url.EncodingIff`).
- A live CSRF token verifies for its user if and only if the user's name is ASCII; otherwise
  the comparison raises (`Security.CsrfVerifiesIff`).

## Model

| member | source | states |
|---|---|---|
| Manager.StepRefines | backend/app/websocket/manager.py:22-77 | every atomic action of the manager keeps the table of futures and a ledger without futures in agreement, and the pending-table invariant |
| Manager.RunRefines | backend/app/websocket/manager.py:22-77 | the same over every interleaving in which no key is sent twice |
| Manager.PendingTable | backend/app/websocket/manager.py:29-77 | in every reachable table: a pending key's node is connected and its own, unresolved future is registered; every pending future is registered; no two futures share a key |
| Manager.SettledForever | backend/app/websocket/manager.py:29-77 | once a future is done, no event of any kind ever changes it |
| Manager.FirstDecisiveEventWins | backend/app/websocket/manager.py:29-77 | over every interleaving a future ends as the first message, disconnect, deadline or withdrawal after its creation left it, and is pending if there was none |
| Manager.RegisteredIff | backend/app/websocket/manager.py:22-38 | over every run a socket is a node's connection exactly if it was registered and the node has seen neither a connect nor a disconnect since |
| Manager.NewestSocketStaysIff | backend/app/websocket/manager.py:22-38 | the newest socket of a node stays registered exactly if no disconnect of that node follows, from whichever socket; otherwise the node is not connected at all |
| Manager.ConnectionManager.Connect | backend/app/websocket/manager.py:22-27 | registers the socket and hands back the different one it displaced |
| Manager.ConnectionManager.WithdrawPending | backend/app/websocket/manager.py:32-38 | the loop removes exactly the keys of that node and cancels exactly their unsettled futures |
| Manager.ConnectionManager.Disconnect | backend/app/websocket/manager.py:29-38 | the node is gone and everything waiting on it is withdrawn |
| Manager.ConnectionManager.CreateAckFuture | backend/app/websocket/manager.py:53-59 | a fresh pending future is registered under the key |
| Manager.ConnectionManager.ResolveAck | backend/app/websocket/manager.py:61-72 | the key is removed, and its future resolved unless it was done |
| Manager.ConnectionManager.CancelAck | backend/app/websocket/manager.py:74-77 | the key is removed, and its future cancelled unless it was done |
| Manager.ConnectionManager.ExpireFuture | backend/app/services/playback_service.py:269-272 | the deadline of a wait cancels the future and leaves the table alone |
| Playback.Unique | backend/app/services/playback_service.py:82 | order-preserving de-duplication |
| Playback.SendTo | backend/app/services/playback_service.py:126-149 | future first, then the send, then withdrawal if it failed; nothing else of the table changes but by the rest of the server |
| Playback.VisitNode | backend/app/services/playback_service.py:97-151 | missing, disabled (play only), offline, failed send or sent, as its specification says at the moment of the visit |
| Playback.SendAll | backend/app/services/playback_service.py:92-162 | the immediate results, the log and the futures to wait on agree with the plan, under every interleaving |
| Playback.WaitFor | backend/app/services/playback_service.py:268-281 | one wait ends with the verdict of the first decisive event if that comes by the deadline, and otherwise as a timeout at the deadline; afterwards the key is gone |
| Playback.CollectAll | backend/app/services/playback_service.py:261-331 | collecting in order gives the results and the finishing time of the recurrence, and leaves no key of the request |
| Playback.Dispatch | backend/app/services/playback_service.py:71-172 | for every environment the report equals a pure function of it; no pending key of the request remains; everything outside the request is as if the dispatch had not run |
| PlaybackService.DispatchPlay | backend/app/services/playback_service.py:71-179 | the same, plus: every status says truly why its node was or was not sent to; an inactive spot raises and changes nothing; and the autoplay timer is reset exactly for an administrator's play of an active spot for which some node's PLAYBACK_STARTED came first and in time |
| PlaybackService.DispatchStop | backend/app/services/playback_service.py:181-256 | the same for stop, which also goes to disabled nodes |
| PlaybackLaws.ReportIsExplained | backend/app/services/playback_service.py:96-162 | for each node of a request: missing if unknown, disabled only for play, offline if its last connect or disconnect before its turn was not a connect, failed if the send failed, and logged exactly if the command went out |
| PlaybackLaws.PlanIsExplained | backend/app/services/playback_service.py:96-162 | each command went out to one of the nodes, when its turn came |
| PlaybackLaws.ResultMeans | backend/app/services/playback_service.py:308-350 | which reply, coming first and in time, is reported as started, stopped, failed with which text, or acknowledged; anything else is a timeout |
| PlaybackLaws.SomeStartedIff | backend/app/services/playback_service.py:166-172 | some result is a start exactly if some awaited node's first decisive event is a PLAYBACK_STARTED by its deadline |
| PlaybackReports.ResultsAccountForEveryNode | backend/app/services/playback_service.py:82-164 | the result ids are a permutation of the de-duplicated request, once each, and the nodes logged as sent to, once each, are exactly those with an awaited result |
| PlaybackReports.DedupKeepsOrder | backend/app/services/playback_service.py:82 | the de-duplicated ids stand in the order of their first occurrences |
| PlaybackReports.CollectTakesRecurrence | backend/app/services/playback_service.py:261-331 | each wait's result and end, by a recurrence on arrival times alone |
| PlaybackReports.ReportedFromFirstMessage | backend/app/services/playback_service.py:261-350 | a node's result comes from the first message or disconnect after its command went out if that is a message arriving by the deadline of its wait, and is a timeout otherwise |
| PlaybackReports.SilenceTimesOut | backend/app/services/playback_service.py:268-281 | a node that is never decided times out |
| PlaybackReports.EndBounds | backend/app/services/playback_service.py:261-284 | k waits end within k timeouts of the start |
| PlaybackReports.SilenceAddsUp | backend/app/services/playback_service.py:261-284 | k silent nodes take exactly k timeouts |
| PlaybackReports.NobodyTimesOutIff | backend/app/services/playback_service.py:261-350 | nobody is reported as timed out exactly if each wait is settled by a message, not a disconnect, that arrives within one timeout of the latest one before it; then the dispatch ends with the latest message |
| PlaybackReports.PromptMessagesOverlap | backend/app/services/playback_service.py:261-350 | if every node's message comes within one timeout of the end of the sends, nobody is reported as timed out and the dispatch ends with the latest message |
| PlaybackReports.DispatchEndsInTime | backend/app/services/playback_service.py:164 | a dispatch ends within one timeout per awaited node after its last send |
| Gateway.HandleIncomingMessage | backend/app/websocket/handlers.py:9-49 | identity check, database update, then acknowledgement under the session's own id; a refused message changes nothing |
| Gateway.NodeWebsocket | backend/app/websocket/endpoint.py:17-106 | a whole session, interleaved with anything else, does to both tables exactly what its specification trace says; an authenticated one leaves its node with no connection and no waiting command, offline and idle |
| Gateway.SpeaksOnlyForItself | backend/app/websocket/endpoint.py:22-106 | a session acts for nobody before a HELLO with right credentials, and afterwards only in the name of that node, whatever it is sent |
| Gateway.OwnSocketStaysIff | backend/app/websocket/endpoint.py:102-106 | just before a session's clean-up its own socket is still the node's connection exactly if since its HELLO no other session has registered a socket for the node or cleaned up |
| Takeovers.OlderSessionTakesNewerDown | backend/app/websocket/endpoint.py:102-106 | a run of two sessions of one node, from an empty server, in which the older one's clean-up disconnects the node while the newer one is open |
| Gateway.OpenIsKnown | backend/app/websocket/handlers.py:14-29 | the node of an open session is always in the node table |
| Gateway.OpensExactlyOn | backend/app/websocket/endpoint.py:24-40 | a session opens exactly on a HELLO, as its first message, with a known node's token, and then greets it and registers the socket; anything else ends it with nothing done |
| Gateway.EndsExactlyOn | backend/app/websocket/endpoint.py:71-101 | an open session ends exactly on a lost socket, a refused message, a message in another name or a second HELLO, and how; every other message is served: report first, then acknowledgement |
| Gateway.AcknowledgementArrived | backend/app/websocket/handlers.py:43-49 | every acknowledgement passed on is a message that the session received, in its own name and under that request id |
| Attribution.MessagesAreAuthentic | backend/app/websocket/handlers.py:43-49 | in a run made of any number of sessions, every message that reaches a key of a node was sent in a session opened earlier with that node's credentials |
| Attribution.ReportsAreAuthentic | backend/app/services/playback_service.py:261-350 | end to end: a node reported as started, stopped, failed or acknowledged has sent the message that says so, under this request id and since the dispatch began, in a session opened with its credentials at any time before |
| Autoplay.SchedulerService.Initialize | backend/app/services/scheduler_service.py:66-75 | an enabled scheduler is armed at its stored deadline, or at a new one if it has none |
| Autoplay.SchedulerService.UpdateConfig | backend/app/services/scheduler_service.py:100-146 | it succeeds exactly if the expected revision is the present one and every spot is known; then all settings are the new ones, the revision is one more, the place in the rotation is kept, and the timer matches |
| Autoplay.SchedulerService.StartAutoplay | backend/app/services/scheduler_service.py:148-162 | enabled, and armed one interval ahead |
| Autoplay.SchedulerService.StopAutoplay | backend/app/services/scheduler_service.py:164-178 | disabled, no deadline, no job; interval, sequence, place, revision and ticks are kept |
| SchedulerRuns.StopStops | backend/app/services/scheduler_service.py:164-178 | after a stop, whatever follows but an update or a start, autoplay stays off, nothing is dispatched, no tick is logged and the place is kept |
| SchedulerRuns.OnUntilStopped | backend/app/services/scheduler_service.py:122-162 | after a start, or an update that says so, autoplay is on until a stop or another update |
| Autoplay.SchedulerService.ResetAfterManualPlay | backend/app/services/scheduler_service.py:180-194 | one interval ahead again if enabled |
| Autoplay.SchedulerService.Begin | backend/app/services/scheduler_service.py:244-282 | the first phase of a tick: with the lock free, autoplay on and some configured spot active it takes the lock and chooses the active entry in turn; with none active it waits another interval |
| Scheduler.ActiveInOrder | backend/app/services/scheduler_service.py:308-319 | the active sequence is the configured one at the increasing positions of its active entries, every repeat included |
| Scheduler.SpotInTurn | backend/app/services/scheduler_service.py:270-271 | the chosen spot is the active configured entry before which index mod n active ones stand, n being the number of them all |
| Scheduler.OneInTurn | backend/app/services/scheduler_service.py:270-271 | there is only one such entry |
| Autoplay.SchedulerService.LookUp | backend/app/services/playback_service.py:84-90 | the dispatch raises, and the tick ends without re-arming, exactly if the chosen spot is no longer active |
| Autoplay.SchedulerService.Complete | backend/app/services/scheduler_service.py:284-306 | the last phase: lock released; if autoplay is still on, the tick is logged, the place moves on among the entries active now, and the timer is set one interval ahead |
| Autoplay.SchedulerService.AutoplayTick | backend/app/services/scheduler_service.py:244-306 | a whole tick with anything landing inside it; it raises exactly if the spot it chose is not active when looked up |
| SchedulerRuns.RunIsSound | backend/app/services/scheduler_service.py:100-306 | every run keeps: disabled means no job and no deadline, enabled means a deadline, a job is at that deadline, one tick at most holds the lock, and every dispatch is logged at most once |
| SchedulerRuns.ReachableIsSound | backend/app/services/scheduler_service.py:81-306 | so all of it holds in every state reachable from a fresh installation |
| SchedulerRuns.TicksOwnIndex | backend/app/services/scheduler_service.py:284-306 | between any two points of a run the tick log only grows, and while it stands still so does the stored index |
| SchedulerRuns.ArmedUnlessStranded | backend/app/services/scheduler_service.py:208-306 | from a good state a step leaves the timer unarmed exactly if a job is noticed too late with nothing in flight, or the chosen spot is inactive at its look-up with autoplay on and nobody having re-armed |
| SchedulerRuns.ArmedThroughoutIff | backend/app/services/scheduler_service.py:208-306 | the timer is armed at every point of a run exactly if neither of the two ever happens |
| SchedulerRuns.ReachableArmedIff | backend/app/services/scheduler_service.py:81-306 | the same for every run of a fresh installation |
| SchedulerRuns.DeactivatedSpotStalls | backend/app/services/playback_service.py:84-90 | a run from a fresh installation in which deactivating the chosen spot leaves autoplay on with nothing that could ever fire |
| SchedulerRuns.StalledForGood | backend/app/services/scheduler_service.py:244-282 | a stranded scheduler never plays again by itself |
| SchedulerRuns.RestartKeepsAutoplayIff | backend/app/services/scheduler_service.py:66-75 | autoplay survives a restart exactly if the server is back within the grace time of the stored deadline |
| SchedulerRuns.LateRestartStops | backend/app/services/scheduler_service.py:208-215 | after a late restart nothing is played, also after further restarts, until somebody intervenes |
| SchedulerRuns.NoPlayBefore | backend/app/services/scheduler_service.py:180-306 | once the timer is set to d nothing is played before d, barring an update or a start |
| SchedulerRuns.ArmingSpacing | backend/app/services/scheduler_service.py:124-306 | whatever set the timer -- manual play, start, update, a finished or an empty tick -- nothing is played within the interval then in force, barring a later update or start |
| SchedulerRuns.RoundRobin | backend/app/services/scheduler_service.py:270-292 | while n spots are active, whichever they are, the j-th completed tick plays position (i + j) mod n, from any stored index |
| SchedulerRuns.RoundRobinOfSpots | backend/app/services/scheduler_service.py:270-292 | while the very same spots are active, it plays the spot at that position |
| SchedulerHistory.FairRotation | backend/app/services/scheduler_service.py:270-292 | while n spots are active, whichever they are, any n consecutive completed ticks play every position once, and counts never differ by more than one |
| SchedulerHistory.RevisionCountsUpdates | backend/app/services/scheduler_service.py:103-123 | the revision counts the successful updates of any run |
| SchedulerHistory.RevisionOwnsSettings | backend/app/services/scheduler_service.py:103-123 | while the revision stands still, so do interval and sequence |
| SchedulerHistory.OneWinnerPerRevision | backend/app/services/scheduler_service.py:104-111 | of all updates expecting the same revision at most one succeeds |
| SchedulerHistory.OverwritesWhatWasRead | backend/app/services/scheduler_service.py:104-123 | an update that succeeds overwrites the very settings its author had read |
| SchedulerHistory.UndisturbedTickDeadline | backend/app/services/scheduler_service.py:274-306 | an undisturbed tick's next deadline lies an interval after its own dispatch is reported on, so between interval and interval plus one timeout per node the command went out to, sends aside |
| RateLimiter.LoginRateLimiter.Prune | backend/app/services/auth_service.py:41-43 | popping in place is the pruning function |
| RateLimiter.LoginRateLimiter.RegisterFailure | backend/app/services/auth_service.py:55-68 | both buckets and both lockouts after a failure |
| RateLimiter.LoginRateLimiter.Authenticate | backend/app/services/auth_service.py:111-137 | turned away exactly if a lockout of the address or of the user name has not passed, and then unchanged; otherwise by the credentials, and a success clears all four entries |
| RateLimits.PruneIsFilter | backend/app/services/auth_service.py:41-43 | on a sorted bucket, popping from the front is filtering by age |
| RateLimits.TablesShowHistory | backend/app/services/auth_service.py:41-74 | over all runs each bucket is the filter of the failures since the last success or lockout, sorted and shorter than the limit, and the lockout is that of the last clearing |
| RateLimits.RunsAreSpaced | backend/app/services/auth_service.py:45-74 | with a lockout longer than the window, limit + 1 consecutive failures never fit into one window |
| RateLimits.WindowEnforced | backend/app/services/auth_service.py:45-74 | then no closed window ever holds more than the limit of evaluated failures |
| RateLimits.SpanEnforced | backend/app/services/auth_service.py:45-74 | and a span D holds at most limit * (D / window + 1) |
| RateLimits.EnforcedIff | backend/app/services/auth_service.py:45-74 | the window is enforced in all runs if and only if the limit is at least one and the lockout exceeds the window |
| NodeService.ProvisionNodeWithToken | backend/app/services/node_service.py:62-97 | the node has the new token, name and switches; a new one is offline and idle, an old one goes on with what it does, and no other changes |
| NodeService.ResetRuntimeState | backend/app/services/node_service.py:99-104 | the loop leaves every node offline and idle |
| NodeService.HandleHello | backend/app/services/node_service.py:106-150 | accepts exactly the right token; the node is online and its latest approved enrollment is complete |
| NodeService.HandleMessage | backend/app/services/node_service.py:152-286 | column by column what each kind of message leaves: online, seen now, its state, its spot, its last error, and what stays |
| NodeService.MarkDisconnected | backend/app/services/node_service.py:322-339 | offline and idle, if the node exists |
| NodeService.SweepLiveness | backend/app/services/node_service.py:341-380 | every node ever heard of is offline, stale or online by the age of its reference time, with nothing else changed but what going offline clears; exactly those moved are returned, and a second sweep at the same time would move none |
| Nodes.AutoplayTargets | backend/app/services/node_service.py:382-388 | the targets of autoplay are exactly the enabled, selected nodes that are online |
| Nodes.ChangedExactly | backend/app/services/node_service.py:341-380 | the ids returned are exactly the nodes whose connection state changed |
| Nodes.StaleIsSeenIff | backend/app/services/node_service.py:349-365 | stale occurs exactly if its threshold is below the one for offline |
| EnrollmentService.RequestEnrollment | backend/app/services/enrollment_service.py:48-102 | refused for known nodes; otherwise the node's pending row, or a new one if it has none, with the new code, name and expiry time, and no other row changed |
| EnrollmentService.GetEnrollment | backend/app/services/enrollment_service.py:120-132 | reading marks an overdue request as expired, and stores that |
| EnrollmentService.ListEnrollments | backend/app/services/enrollment_service.py:104-118 | the loop lists exactly the rows of that status, latest first, and marks the overdue ones among them |
| EnrollmentService.ApproveEnrollment | backend/app/services/enrollment_service.py:134-178 | succeeds exactly if the row is pending and its expiry time has not passed; then the node has the token and settings and the row keeps the token, and otherwise it was only looked at |
| EnrollmentService.RejectEnrollment | backend/app/services/enrollment_service.py:180-209 | succeeds exactly if the row is pending and its expiry time has not passed; then it is rejected with its reason |
| Expiry.ExpiresExactly | backend/app/services/enrollment_service.py:41-46 | an operation makes a row expired exactly if the row is pending and the operation looks at it later than its expiry time |
| Expiry.ExpiryHasItsCause | backend/app/services/enrollment_service.py:41-46 | from an empty server, whatever is expired was looked at too late while pending |
| Expiry.DecidableExactlyUntil | backend/app/services/enrollment_service.py:48-209 | a request made or refreshed at t can be approved or rejected at every moment up to t plus its time to live and at none after, whatever happens in between |
| EnrollmentService.GetStatusForNode | backend/app/services/enrollment_service.py:211-228 | only the right pairing code sees the row, and its first look at an approval claims it |
| RegistryRuns.StepSound | backend/app/services/enrollment_service.py:41-228 | every operation of both services keeps the four invariants, and never rewrites a claim |
| RegistryRuns.StepTakesEdges | backend/app/services/enrollment_service.py:41-228 | one operation moves an enrollment at most along one edge -- pending to approved, rejected or expired, approved to enrolled -- and adds only pending ones |
| RegistryRuns.RunSound | backend/app/services/enrollment_service.py:41-228 | so does every run: granted enrollments have their node, a token is stored exactly while approved, a claim is never rewritten, offline means idle |
| RegistryRuns.OneEnrollmentAtATime | backend/app/services/enrollment_service.py:48-102 | in every state reachable from an empty server each node has at most one pending, approved or enrolled row |
| RegistryRuns.CutOffApprovalCanBeRepeated | backend/app/services/enrollment_service.py:155-176 | an approval cut off after its first commit can be repeated with full effect |
| RegistryRuns.ClosedForGood | backend/app/services/enrollment_service.py:41-46 | a rejected or expired enrollment never changes status again and holds neither token nor claim |
| RegistryRuns.IssuedTokenOpensTheSession | backend/app/services/node_service.py:106-150 | after an approval and any run without manual provisioning of that node, exactly the token it handed out opens a session, which completes the enrollment and wipes the token |
| RegistryRuns.SilenceOnlyFades | backend/app/services/node_service.py:341-380 | over any run without a word from a node it stands where the latest sweep put it by its last heartbeat, wherever it stood before, and only fades from any state no worse than that heartbeat deserved |
| RegistryRuns.HungUpStaysOfflineIff | backend/app/services/node_service.py:322-380 | a node that has hung up stays offline until it speaks again exactly if no sweep comes while its last heartbeat is young |
| Base64Url.RoundTrip | backend/app/core/security.py:15-21 | decoding an encoding gives back the bytes, for all byte strings |
| Base64Url.GroupIsOneNumber | backend/app/core/security.py:15-16 | three bytes are one 24-bit number in four six-bit digits, most significant first |
| Base64Url.DigitsAreTheAlphabet | backend/app/core/security.py:15-16 | the digits are those of the URL-safe alphabet of RFC 4648 |
| Base64Url.PaddingRestored | backend/app/core/security.py:19-21 | the padding put back is the padding that was stripped |
| Base64Url.EncodeInjective | backend/app/core/security.py:15-16 | different bytes have different encodings, of letters, digits, `-` and `_` only |
| Base64Url.DecodesIff | backend/app/core/security.py:19-21 | text of that alphabet decodes exactly if its length is not 1 mod 4 |
| Base64Url.EncodingIff | backend/app/core/security.py:15-21 | a text is the encoding of some bytes, and is restored by encoding what it decodes to, exactly if it is plain, not 1 mod 4 long, and has no surplus bits |
| Security.SignedRoundTrip | backend/app/core/security.py:60-80 | parsing a built token recovers its payload |
| Security.ParsesOnlySigned | backend/app/core/security.py:66-80 | a token parses exactly if it is a dot-free text with its own signature, and to what that text says |
| Security.SessionLasts | backend/app/core/security.py:83-100 | a session token speaks for its non-empty user name through its expiry second, and for nobody after |
| Security.CsrfVerifiesIff | backend/app/core/security.py:103-119 | when a CSRF token verifies, and when the comparison raises |
| Security.KindsApart | backend/app/core/security.py:93-119 | neither kind of token passes for the other |
| Security.SecretVerifiesIff | backend/app/core/security.py:24-44 | a secret verifies against a stored one exactly if the derived digests agree |
| Security.StoredForm | backend/app/core/security.py:24-29 | a stored secret is its work factor, salt and digest, in that order |
| Texts.ShowRead | backend/app/websocket/protocol.py:46-49 | a printed integer is read back |
| Texts.ReadDigitsIff | backend/app/websocket/protocol.py:47-49 | exactly digits with single underscores between two of them are read, at their value in base ten |
| Texts.ReadIff | backend/app/websocket/protocol.py:47-49 | an integer is such a numeral, perhaps after one sign |
| Texts.ReadIgnoresBlanks | backend/app/websocket/protocol.py:47-49 | blank space around it makes no difference |
| Protocol.VersionRoundTrip | backend/app/websocket/protocol.py:40-56 | every pair of integers survives formatting and parsing |
| Protocol.VersionsAreDistinct | backend/app/websocket/protocol.py:53-56 | different versions are written differently |
| Protocol.WrittenAsNumberIff | backend/app/websocket/protocol.py:53-56 | a version goes out as a number exactly if its minor part is zero |
| Protocol.ReadAroundFirstDot | backend/app/websocket/protocol.py:43-49 | text is read as two integers around its first dot, or as one; text with two dots is refused |
| Protocol.PeerPassesIff | backend/app/websocket/protocol.py:68-77 | a peer passes the gate exactly if its major version is the server's and its minor is not negative |

## Left out

- Interleavings finer than one service call: synchronous calls in the thread pool are atomic here, so two of them racing on one row are not modelled.
- The window between a future being settled and the dispatch resuming in which the wait's own deadline also passes: the settled future wins.
- Errors of the database itself, which could end a tick or a session anywhere.
- Cancellation of the task that runs a dispatch, and a negative acknowledgement timeout.
- Two autoplay ticks started by the job library at once: its limit of one instance leaves the same state as the tick's own early return on the lock.
- Key derivation, signatures and JSON are parameters, with the hypotheses named in `Security.Faithful`; hashing failures on malformed stored secrets, payloads that are not objects and members of unexpected types are not modelled.
- SQLite's naive timestamps: the sweep subtracts a stored time from an aware one, which can raise there; times are integers here. `created_at` order is the order of creation.
- Integers in non-ASCII digits and Python's limit of 4300 digits. A version given as a number with a fraction is modelled by its printed form.
- Platform, application version and device model of nodes; the actor fields of enrollments; the contents of event logs other than the command-sent and tick events.
- The PLAY and STOP messages themselves, and those that a session sends out, sync payloads, `request_sync`, routes, cookies, settings, migrations, spot files, retention and download links.
- Pairing codes and tokens are inputs; nothing is proved about their randomness.
