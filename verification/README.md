# A model of rttx's client side, with proofs

rttx is a terminal client that keeps its panes in a daemon, local or reached over SSH. This
project models the parts of it whose correctness spans functions and runs:

- **The endpoint actor** (`Endpoint*.dfy`): one per daemon, it owns the transport, the
  workspaces it tracks, the reconnect counter with its circuit breaker, the heartbeat and the
  correlation of requests with responses. `EndpointSpec` gives every handler as a function of
  the actor's state, together with the steps its loop can take and the runs they form;
  `EndpointActor` is the actor itself, a class whose methods update its fields and are proved
  against those functions; `EndpointInvariant`, `EndpointBreaker`, `EndpointBackoff`,
  `EndpointHeartbeat`, `EndpointStream`, `EndpointReach`, `EndpointOutcomes` and `EndpointLoss`
  prove what holds of every step and every run. `EndpointAccounts`, `EndpointOpen`,
  `EndpointTraffic`, `EndpointReconnect` and `EndpointDelivery` read the log in three columns
  (requests written, messages handed on, everything else told) and prove what each step puts
  into them from the daemon's replies alone; `EndpointTransport` proves which steps lose the
  transport.
- **The window state** (`WindowSpec`, `WindowState` and the `*Laws` files, over `Layout`): how
  endpoint events keep layouts, the reverse pane index, recovered and dismissed runtimes and
  names in step with the daemon's tree. `LayoutShape` tells the shape of a layout by where any
  two of its terminals part.
- **Wire framing** (`Framing`): the length-prefixed codec under incremental reads, across the
  raw handshake and the split of a connection.
- **Smaller cores**: the heartbeat over timed traces (`Heartbeat`), request ids under
  concurrency (`RequestIds`), scrollback paging against a growing log (`Scrollback`) and shell
  quoting against sections 2.2 and 2.6.7 of the POSIX.1-2017 Shell Command Language
  (`Quoting`).

What the daemon, the network and the clock do is a parameter: a handler receives the outcome
of its connection attempt and, for each request it may make, the outcome of the write, the
messages that arrive and how the stream goes on. Statements for all parameters are statements
for every behaviour of the daemon. Effects of the actor are collected in a ghost log. The
order in which it walks its hash map is a parameter too, or, where every workspace is told the
same, one effect for the set of them.

## What the proofs turned up

Each of these follows the code; where a comment or a test name suggests otherwise, the code
decided.

- A connection attempt that fails transiently inside a Reconnect neither ramps the delay nor
  moves towards the breaker, however often it happens
  (`EndpointBackoff.TransientConnectFailuresNeverRamp`).
- The first failure of that kind, before anything is tracked, strands the actor: it announces
  a retry, but the Reconnect finds nothing tracked and returns with the counter above zero, and
  every later command takes that for a retry under way (`EndpointBreaker.FirstFailureStrands`,
  and the exact set of such states in `EndpointBreaker.WayBackUnlessDoomed`).
- A pane command on a connection that only an inventory request has used, or on one made for
  that very command, is never sent: it fails as disconnected and drops the connection
  (`EndpointReach.AwaitingCommandReachesDaemonIffSplit`).
- Terminations untrack a workspace only if it is bound under the canonical spelling of the
  runtime id (`EndpointStream.OtherSpellingsStayTracked`).
- While a request waits, messages other than pongs do not count as a sign of life
  (`EndpointStream.ResponseConservesTheStream`), and a stream overflow is forwarded instead of
  being answered by a resync (`EndpointStream.AwaitedOverflowIsNotAnswered`; when one is
  answered, `EndpointStream.OverflowIsAnsweredIffBound`).
- A handshake timeout tells only the workspace being opened; every other loss of the transport
  is told to all (`EndpointLoss.LossIsToldIff`).
- The comment on fire-and-forget commands names four, the code lists six
  (`RequestIds.BuildClientEnvelope`).
- Closing the last pane reports a removal and keeps the pane (`PaneIdentityLaws.LastPaneStays`).
- Closing the zoomed pane leaves the zoom on a name that is no leaf, and so can an adopted tree
  (`PaneIdentityLaws.PaneClosedRemovesOnlyThatLeaf`, `WorkspaceRunLaws.ZoomedThroughoutIff`).
  An adopted tree can leave recipes for terminals it does not show
  (`WorkspaceRunLaws.WellFormedThroughoutIff`).
- The index is rebuilt after an open without a tree, where it never changes; the other rebuilds
  are needed under the exact conditions of `IndexRebuildLaws`.
- Dismissals are forgotten by inventories of other endpoints
  (`RecoveryLaws.OtherEndpointForgetsDismissal`).
- Recovered workspaces need not have distinct names: two endpoints of one host can recover one
  runtime under the same name, and one endpoint can recover it again after its workspace was
  terminated or reopened under another runtime (`RecoveryLaws.SameHostRecoversSameName`,
  `RecoveryLaws.OneEndpointRecoversSameName`; when they stay distinct,
  `RecoveryLaws.NamesStayDistinctIffFree`).
- A repaired name need not settle: a daemon without a name is never repaired, and an empty
  repair leaves it without one (`NamingLaws.UnnamedDaemonIsNotRepaired`, and the exact condition
  in `NamingLaws.AttachRepairAttachConverges`).
- Parameter names are put into an environment block unquoted, so a name with a blank, a quote, a
  `=` or a character that asks for an expansion where it stands is not read back
  (`Quoting.EnvBlockReadsBack`). The reader
  takes words apart and does not ask whether the shell accepts a name as an identifier.
- The end of a stream inside a frame is reported as a clean end, and its bytes are lost
  (`Framing.CleanEndIffPartial`, `Framing.TruncatedFrameEndsCleanly`).

## Model

| member | source | states |
|---|---|---|
| EndpointInvariant.NextKeeps | clients/rttx/src/daemon_bridge.rs:644-712 | every command, inbound message, closed connection and heartbeat tick keeps the invariant: reader present iff writer; never a connection beside a writer; transport up implies counter 0; at most one Reconnect outstanding, and then the transport is down with 1 <= counter <= cap + 2; an unsplit connection implies nothing tracked; something tracked on a down transport implies a Reconnect outstanding or the breaker open; the log only grows and a workspace is newly bound only together with a report that it was opened |
| EndpointInvariant.RunKeeps | clients/rttx/src/daemon_bridge.rs:644-703 | the same over every run of enabled steps |
| EndpointInvariant.NothingTrackedIsAbandoned | clients/rttx/src/daemon_bridge.rs:1993-2059 | for every run of a new actor: no tracked workspace is silently abandoned, there is at most one pending retry, it always finds the transport down, and the counter never exceeds cap + 3 |
| EndpointInvariant.TrackedWasReportedOpened | clients/rttx/src/daemon_bridge.rs:841-848 | for every run of a new actor: whatever is tracked was reported to the window as opened under the very runtime it is tracked with |
| EndpointInvariant.ReconnectKeeps | clients/rttx/src/daemon_bridge.rs:1346-1438 | a Reconnect, which zeroes the counter for a while and connects with workspaces tracked, still ends in the invariant |
| EndpointInvariant.OpenKeeps | clients/rttx/src/daemon_bridge.rs:776-868 | opening a workspace keeps the invariant on every outcome, the handshake timeout included |
| EndpointInvariant.ResolveAndAttachResolves | clients/rttx/src/daemon_bridge.rs:1746-1804 | resolving and attaching ends refused in a coherent state, or else has changed nothing but what pushes, pongs and ids change, and then names a runtime id that parses |
| EndpointInvariant.FailedConnectEnds | clients/rttx/src/daemon_bridge.rs:1366-1380 | a Reconnect whose connection attempt fails transiently leaves the counter; a permanent failure raises it by one and retries unless the breaker opens |
| EndpointInvariant.ConnectedCycleEnds | clients/rttx/src/daemon_bridge.rs:1381-1438 | a Reconnect that connects is stable (up, counter 0) iff no reattachment failed transiently; otherwise it is down again with the counter raised by one, unless nothing is tracked any more |
| EndpointBreaker.InertWhilePending | clients/rttx/src/daemon_bridge.rs:1541-1550 | for any sequence of steps other than Reconnect with the transport down and the counter above 0: no connection tried, no timer, nothing sent, nobody told Blocked; transport, counter and outstanding Reconnects unchanged; exactly the forgotten workspaces untracked |
| EndpointBreaker.BreakerIsFinal | clients/rttx/src/daemon_bridge.rs:2030-2047 | once the breaker is open no later run connects, schedules or is up again |
| EndpointBreaker.WayBackUnlessDoomed | clients/rttx/src/daemon_bridge.rs:1346-1354 | a reachable state has a run that leads to a connection iff it is not down with a counter above 0 and either no Reconnect outstanding or nothing tracked |
| EndpointBreaker.WayBack | clients/rttx/src/daemon_bridge.rs:1384-1437 | otherwise one step with a willing daemon brings the transport up with every tracked workspace still tracked |
| EndpointBreaker.FirstFailureStrands | clients/rttx/src/daemon_bridge.rs:1346-1354 | a connection attempt outside a Reconnect that fails transiently announces a retry and leaves a state no run leaves: the retry finds nothing tracked and returns early |
| EndpointBackoff.CounterCountsFailures | clients/rttx/src/daemon_bridge.rs:2027-2029 | along any run that stays down after a retry was scheduled, whatever commands come in between, the counter equals its start plus the permanent connect failures and lost reattachments, saturating at 2^32 - 1; transient connect failures do not count |
| EndpointBackoff.BreakerOpensIffFailuresExceedLimit | clients/rttx/src/daemon_bridge.rs:2034-2047 | hence the breaker is open iff those failures exceed the limit, which needs cap + 2 < 2^32 - 1 |
| EndpointBackoff.FailedReattachesRamp | clients/rttx/src/daemon_bridge.rs:2023-2028 | over a closed connection followed by reconnects that only fail to reattach: at most cap + 2 reconnects, counter = reconnects + 1, a retry pending iff fewer than cap + 2, delays summing to the ramp min(1,cap) + min(2,cap) + ... |
| EndpointBackoff.FailedReattachesUntilBreaker | clients/rttx/src/daemon_bridge.rs:2027-2059 | such a run opens the breaker iff it has made exactly cap + 2 reconnects, and the delays then total cap(cap+1)/2 + 2 cap seconds |
| EndpointBackoff.FailedReattachesHappen | clients/rttx/src/daemon_bridge.rs:1384-1433 | from every split transport with something tracked there is such a run of each length up to cap + 2 reconnects |
| EndpointBackoff.RampInClosedForm | clients/rttx/src/daemon_bridge.rs:2023-2025 | the sum of the first n delays in closed form, below and above the cap |
| EndpointBackoff.TransientConnectFailuresNeverRamp | clients/rttx/src/daemon_bridge.rs:1372-1374 | any number of Reconnects whose connection attempt fails transiently leave the counter where it was, wait min(1,cap) seconds each and never open the breaker, although the comment at 2030-2032 speaks of too many consecutive failures |
| EndpointStream.ResponseConservesTheStream | clients/rttx/src/daemon_bridge.rs:736-772 | for every inbound sequence: the answer is the first envelope with the awaited id; those before it are forwarded exactly once in order, minus pongs and, when one is expected, terminations; each forwarded termination untracks exactly the workspaces bound to that runtime; only a pong with the pending nonce clears the heartbeat; nothing else changes |
| EndpointStream.OtherSpellingsStayTracked | clients/rttx/src/daemon_bridge.rs:765-772 | a workspace bound under a non-canonical spelling of its runtime id survives every termination read while waiting |
| EndpointStream.ReconnectCoversEveryWorkspace | clients/rttx/src/daemon_bridge.rs:1384-1437 | one connected Reconnect asks exactly once, in walk order, to attach each workspace tracked at its start; each ends recovered, missing, blocked or transiently failed and is told exactly that; it stays tracked unless its termination was forwarded; at most one new Reconnect is scheduled, and none if no reattachment failed transiently |
| EndpointStream.ReattachAllWalks | clients/rttx/src/daemon_bridge.rs:1395-1426 | the walk itself, for any order and any answers of the daemon |
| EndpointStream.UnsplitRequestSkipsTheRest | clients/rttx/src/daemon.rs:315-331 | before the split the answer is the first envelope that carries the id drawn; everything before it is forwarded to nobody and leaves tracking and heartbeat alone; the next request draws the next id |
| EndpointStream.LoopForwardsIff | clients/rttx/src/daemon_bridge.rs:1902-1956 | a message the loop takes is forwarded, once, iff it is neither a pong nor an overflow; it untracks exactly the workspaces whose runtime it says has terminated and changes nothing else but the heartbeat |
| EndpointAccounts.ActiveRequestTalks | clients/rttx/src/daemon_bridge.rs:1806-1900 | on either transport a request is written with the very id its answer is awaited under, the answer is the first envelope with that id, and what is handed on meanwhile is all it tells and untracks by |
| EndpointAccounts.DiallingAdds | clients/rttx/src/daemon_bridge.rs:1541-1594 | a connection is tried iff the transport is down and no retry is pending; what is told for each outcome, delays included, and the state it leaves |
| EndpointAccounts.ErrorAdds | clients/rttx/src/daemon_bridge.rs:2096-2112 | a failed request on an established transport: a missing session is told as that; anything else as an error that blocks, followed, iff it is an input/output failure or a disconnection, by the loss told to all and a first retry after min(1,cap) seconds |
| EndpointOpen.OpenFollowsReplies | clients/rttx/src/daemon_bridge.rs:776-868 | an open, from any state that has or gets a transport and for every sequence of replies: the requests it writes, with their ids, the messages it hands on, all it tells, in order, and what is tracked afterwards, each told from the replies alone |
| EndpointOpen.UnreachedOpenAsksNothing | clients/rttx/src/daemon_bridge.rs:788-799 | without a transport an open asks for nothing, and reports an error iff connecting was tried and failed for good |
| EndpointOpen.LeaseIsSeizedIff | clients/rttx/src/daemon_bridge.rs:1754-1761 | the write lease is seized iff that is asked for and the existing runtime id parses, by the first request of the open, for that runtime, and by no other |
| EndpointOpen.SeizureIsReportedIff | clients/rttx/src/daemon_bridge.rs:1831-1856 | a takeover is reported iff it was asked for and the response to its own request says it is completed |
| EndpointOpen.OpenedIff | clients/rttx/src/daemon_bridge.rs:1762-1804 | a runtime is reported opened iff it is the known one and its attachment is answered by that snapshot, or the one the daemon created instead and its own attachment is |
| EndpointTraffic.AwaitingCommandFollowsReply | clients/rttx/src/daemon_bridge.rs:869-1247 | on a split transport a pane, detach or terminate command writes one request, hands on what precedes its reply, tells exactly the accepted outcome or the error in the reply, and untracks iff it is an accepted ending |
| EndpointTraffic.ConnectedIffPaneNamed | clients/rttx/src/daemon_bridge.rs:904-919 | a pane command reports its workspace connected iff the reply to its own request names the new pane, a creation as created and a split as split |
| EndpointTraffic.UnaskedCommandTells | clients/rttx/src/daemon_bridge.rs:869-1247 | without a split transport or with an id that does not parse such a command writes nothing and tells exactly why; pane commands connect before they parse, endings parse first |
| EndpointTraffic.InputIsWrittenIffSplit | clients/rttx/src/daemon_bridge.rs:1248-1300 | input and resizes are written, once, iff their ids parse and the transport is split; nothing connects for them, a failed write is told as an error, and a written one changes nothing |
| EndpointTraffic.NoticeIsWrittenIffSplit | clients/rttx/src/daemon_bridge.rs:1439-1499 | renames and persistence flags connect first and are written iff their ids parse and the transport was split before; a failed write is told to nobody |
| EndpointTraffic.RefreshLoadsTheAnswer | clients/rttx/src/daemon_bridge.rs:1301-1345 | an inventory is asked for once, on either transport, and what is loaded is the list in the response to that request; any other reply is told as its error |
| EndpointTraffic.ResyncReportsTheAnswer | clients/rttx/src/daemon_bridge.rs:1500-1533 | a resync is asked for iff its id parses and the transport is split, is reported iff its response is a snapshot, with that snapshot, and a failure is told to nobody and loses nothing |
| EndpointReconnect.ReattachAllFollows | clients/rttx/src/daemon_bridge.rs:1395-1426 | the walk over the tracked workspaces: one request each with consecutive ids, and for each the verdict and all that is told is what the reply to its own request says, snapshot or error |
| EndpointReconnect.ReconnectFollowsReplies | clients/rttx/src/daemon_bridge.rs:1381-1438 | a connected Reconnect: everything asked, handed on and told, in order, what stays tracked, and that the connection is kept iff no reply was a lost transport; a loss is told with the attempt after the saved one, its delay, and the retry or the open breaker |
| EndpointReconnect.FailedReconnectTells | clients/rttx/src/daemon_bridge.rs:1366-1380 | a Reconnect without a connection asks nothing; a transient failure is retried after min(1,cap) seconds, a permanent one after cap seconds unless the breaker opens |
| EndpointDelivery.StepDelivers | clients/rttx/src/daemon_bridge.rs:644-712 | every step hands on exactly the messages it heard, each kind of step told apart, and leaves tracked exactly what was tracked less what those messages ended, what was forgotten and what an accepted ending names, plus what an open bound |
| EndpointDelivery.RunDelivers | clients/rttx/src/daemon_bridge.rs:644-712 | over every run the window is handed exactly the messages the loop took and those that passed a waiting request on a split transport, each once and in the order they arrived |
| EndpointDelivery.TickAdds | clients/rttx/src/daemon_bridge.rs:1974-1991 | a tick tells of a loss or sends one ping, under the transport's own id and with the nonce then pending; a ping that cannot be written is followed by the loss |
| EndpointTransport.TransportIsLostIff | clients/rttx/src/daemon_bridge.rs:644-712 | an established transport is lost by exactly these steps: its end, a ninth unanswered tick or a failed ping, a write or response lost, a handshake not over in time, and a command that needs a split before there is one |
| EndpointTransport.SplitStartsUnpinged | clients/rttx/src/daemon_bridge.rs:705-717 | a transport a step has split starts without a pending ping, whatever was pending before |
| EndpointReach.AwaitingCommandReachesDaemonIffSplit | clients/rttx/src/daemon_bridge.rs:869-1247 | creating, splitting or closing a pane, detaching and terminating write to the daemon iff the ids parse and the transport was split before; otherwise, with ids that parse, the transport is down afterwards: a connection not yet split, even one made for the command, is dropped |
| EndpointReach.HandshakeTimeoutTellsOnlyTheOpener | clients/rttx/src/daemon_bridge.rs:812-836 | a handshake timeout drops the transport, schedules one retry and tells only the opening workspace, whatever else is tracked |
| EndpointLoss.LossIsToldIff | clients/rttx/src/daemon_bridge.rs:1993-2017 | whatever step loses the transport, every workspace still tracked is told that it is lost, unless the step is an open whose handshake times out: then iff nothing but the opener is tracked |
| EndpointLoss.TimeoutTellsTheOpener | clients/rttx/src/daemon_bridge.rs:812-836 | over the whole open command that times out, takeover and attach requests included, the opener is told of the loss and nobody else is |
| EndpointLoss.LossClearsPing | clients/rttx/src/daemon_bridge.rs:1993-2004 | every loss but such a timeout clears the pending ping |
| EndpointStream.OverflowIsAnsweredIffBound | clients/rttx/src/daemon_bridge.rs:1919-1950 | an overflow the loop takes is answered by a self-sent resync iff its runtime id is well-formed and some workspace is bound to it, and then of such a workspace |
| EndpointStream.AwaitedOverflowIsNotAnswered | clients/rttx/src/daemon_bridge.rs:747-762 | an overflow read while a request waits is forwarded and asks for no resync |
| EndpointOutcomes.CommandsNameTheirParts | clients/rttx/src/daemon_bridge.rs:869-1499 | the operation each command's errors are reported under, a split as a creation, and exactly which of its ids must parse |
| EndpointOutcomes.OutcomeComesFromOwnResponse | clients/rttx/src/daemon_bridge.rs:736-763 | on a split transport an outcome is reported iff the response that carries the request's own id is one the command accepts |
| EndpointOutcomes.PaneIsReportedAsAnswered | clients/rttx/src/daemon_bridge.rs:904-918 | a pane is reported created under an id iff the daemon's own answer names it, a creation answered as created and a split as split |
| EndpointOutcomes.PaneIsReportedClosedIfGone | clients/rttx/src/daemon_bridge.rs:1072-1101 | a pane is reported closed iff the daemon answers that it closed it or does not know it |
| EndpointOutcomes.EndingUntracksAsAnswered | clients/rttx/src/daemon_bridge.rs:1144-1222 | a detach may be answered by a detachment or a termination, a terminate only by a termination; each is reported as what it is and untracks the workspace |
| EndpointTypes.Classify | clients/rttx/src/runtime.rs:236-270 | exactly input/output failures and disconnections are problems the actor retries by itself |
| EndpointTypes.ErrorsByProblem | clients/rttx/src/runtime.rs:236-270 | which errors are a missing session, an ownership conflict, an incompatible version, a missing installation or a protocol failure, each iff |
| EndpointHeartbeat.HeartbeatEndsConnectionIffNineTicks | clients/rttx/src/daemon_bridge.rs:1974-1991 | over every run of a new actor a tick whose ping can be written ends the connection iff at least eight ticks precede it since the last step that left no ping pending, so iff it is at least the ninth |
| EndpointHeartbeat.ActorCountsTicks | clients/rttx/src/daemon_bridge.rs:559-598 | over every run the actor's monitor counts exactly the ticks since a step last left no ping pending; no command, message or disconnect does more than clear it |
| EndpointHeartbeat.PingIsClearedIff | clients/rttx/src/daemon_bridge.rs:1902-1991 | outside commands a pending ping is cleared by a message the loop takes iff it is no pong or the answer, by a closed connection always, and by a tick iff that loses the transport |
| EndpointHeartbeat.TickPings | clients/rttx/src/daemon_bridge.rs:560-573 | the ping a tick sends carries the nonce the tick leaves pending |
| EndpointHeartbeat.AnsweredPingKeepsTheConnection | clients/rttx/src/daemon_bridge.rs:1974-1991 | over every run of a new actor a tick whose ping can be written keeps a connection if the loop has taken a pong of the last ping sent, read off the pings written and the messages taken |
| EndpointSpec.EnsureConnected | clients/rttx/src/daemon_bridge.rs:1541-1594 | a problem is returned iff the transport is down afterwards; hence the connection expected at line 1329, reached without a problem and without a writer, is always there |
| EndpointActorModel.EndpointActor.ReadResponse | clients/rttx/src/daemon_bridge.rs:736-763 | the loop over inbound messages equals the function ResponseConservesTheStream is about |
| EndpointActorModel.EndpointActor.UnsplitRequest | clients/rttx/src/daemon.rs:315-331 | before the split the reply is the first envelope with the drawn id, and every other message is skipped |
| EndpointActorModel.EndpointActor.ReattachTracked | clients/rttx/src/daemon_bridge.rs:1395-1426 | the loop equals the fold ReattachAllWalks is about, and reports whether any verdict was transient |
| EndpointActorModel.EndpointActor.HandleCommand | clients/rttx/src/daemon_bridge.rs:774-1539 | each command keeps the invariant and is the step function the run theorems are about |
| EndpointActorModel.EndpointActor.HandleRuntimeMessage | clients/rttx/src/daemon_bridge.rs:1902-1956 | each inbound message keeps the invariant and is forwarded iff it is neither a pong nor an overflow; an overflow asks for the resync of a workspace bound to that runtime |
| EndpointActorModel.EndpointActor.HandleHeartbeatTick | clients/rttx/src/daemon_bridge.rs:1974-1991 | a tick keeps the invariant; a lost heartbeat or a failed ping disconnects; ping ids come from the transport's own generator |
| Heartbeat.HeartbeatMonitor.OnTick | clients/rttx/src/daemon_bridge.rs:560-573 | the new monitor state and the action, saturation of nonce and miss count included; a ping carries the nonce pending afterwards |
| Heartbeat.HeartbeatMonitor.ObservePong | clients/rttx/src/daemon_bridge.rs:1958-1967 | only the pending nonce clears |
| Heartbeat.HeartbeatMonitor.Reset | clients/rttx/src/daemon_bridge.rs:594-597 | clears the pending ping and the miss count, not the nonce counter |
| Heartbeat.MonitorCountsTicks | clients/rttx/src/daemon_bridge.rs:559-598 | over every trace the monitor's state is read off the number of ticks since the last clearing event, saturating at 255 |
| Heartbeat.LostIffNineTicks | clients/rttx/src/daemon_bridge.rs:558-573 | a tick declares the connection lost iff at least HEARTBEAT_MISS_LIMIT + 1 ticks have come since the last clearing event |
| Heartbeat.LatePongIsStale | clients/rttx/src/daemon_bridge.rs:1958-1967 | the answer to a ping from before a clearing event never clears a later one, until the nonce saturates |
| Heartbeat.LostOnlyAfterSixteenSeconds | clients/rttx/src/daemon_bridge.rs:553-558 | a connection is never declared lost before the pending ping has been unanswered for sixteen seconds, pauses for backpressure not counted as ticks |
| RequestIds.RequestIdGenerator.NextId | protocols/rttx-proto/src/v3_envelope.rs:30-34 | one or two atomic steps; never returns zero |
| RequestIds.IdsAreUniqueUnderConcurrency | protocols/rttx-proto/src/v3_envelope.rs:30-34 | for every interleaving of threads over at most 2^64 atomic steps, wrap-around included, returned ids are non-zero and pairwise distinct |
| RequestIds.OneMoreStepRepeatsAnId | protocols/rttx-proto/src/v3_envelope.rs:30-34 | the bound is exact: one step more repeats an id |
| RequestIds.ActorIdInClosedForm | clients/rttx/src/daemon_bridge.rs:635-642 | the k-th id of the actor's own counter in closed form |
| RequestIds.ActorIdsRepeatWithPeriod | clients/rttx/src/daemon_bridge.rs:635-642 | the actor's ids are never zero and two agree iff a multiple of 2^64 - 1 lies between them |
| RequestIds.GeneratorAgreesWithActor | clients/rttx/src/daemon.rs:161-164 | used sequentially, the atomic generator issues the ids the actor's counter issues |
| RequestIds.BuildClientEnvelope | protocols/rttx-proto/src/v3_envelope.rs:62-68 | a fire-and-forget command has id 0 and leaves the generator alone; any other draws one |
| RequestIds.CorrelatedIdsIgnoreFireAndForget | protocols/rttx-proto/src/v3_envelope.rs:45-68 | over any list of commands a correlated one is numbered by the correlated ones before it |
| Framing.EncodeFrame | protocols/rttx-proto/src/lib.rs:98-112 | appends the length prefix and the payload, or fails over the size limit and leaves the buffer alone |
| Framing.LengthIsLittleEndian | protocols/rttx-proto/src/lib.rs:98-112 | the prefix is four bytes, the first counting ones and each later one 256 times the one before |
| Framing.FailuresAreTold | protocols/rttx-proto/src/lib.rs:119-134 | a stream that fails inside a frame is an input/output error, and a length over 16 MiB is refused with that length, each iff |
| Framing.DecodeFrame | protocols/rttx-proto/src/lib.rs:119-134 | decodes the first frame of the buffer and drops exactly it; incomplete input leaves the buffer as it was; a payload error still drops the frame |
| Framing.HeadIsStable | protocols/rttx-proto/src/lib.rs:119-134 | what a prefix of a stream decides about its first frame, no further byte changes |
| Framing.DaemonConnection.RecvEnvelope | clients/rttx/src/daemon.rs:299-311 | the loop over reads answers as if the whole stream were there at once, and leaves exactly the rest |
| Framing.DaemonConnection.ReadRawFrame | clients/rttx/src/daemon.rs:380-403 | takes the first frame raw, prefix included, and leaves exactly the rest |
| Framing.DaemonConnection.IntoSplit | clients/rttx/src/daemon.rs:273-278 | the reading half starts with the buffered bytes and the socket of the connection |
| Framing.DaemonReader.Recv | clients/rttx/src/daemon.rs:707-719 | the reading half answers by the same function of the whole stream |
| Framing.MessagesComeFirst | protocols/rttx-proto/src/lib.rs:98-134 | on a link that holds the frames of some messages and then any other bytes, in any chunking and with any part buffered, a reader gets the first message and leaves the others and the rest |
| Framing.FramesReadInOrder | protocols/rttx-proto/src/lib.rs:98-134 | on a link that holds the frames of a list of messages alone a reader gets them one by one and then the end of the stream |
| Framing.CleanEndIffPartial | clients/rttx/src/daemon.rs:299-311 | a reader reports a clean end iff the stream closes before it holds a whole frame or an oversized length, and then leaves every byte it had behind |
| Framing.TruncatedFrameEndsCleanly | clients/rttx/src/daemon.rs:299-311 | so a stream cut anywhere inside a frame is reported as a clean end |
| Framing.BadPayloadKeepsFraming | protocols/rttx-proto/src/lib.rs:126-133 | a payload the decoder rejects leaves the stream at the next frame boundary |
| Framing.ReadSession | clients/rttx/src/daemon.rs:273-403 | a whole session: raw handshake reply, some messages before the split and the others after it; every message arrives, in order, for every chunking and every moment of the split |
| Scrollback.SliceScrollback | protocols/rttx-proto/src/v3_scrollback.rs:97-106 | the page holds the bytes from the offset, at most the limit, and is last iff it reaches the end |
| Scrollback.Page | protocols/rttx-proto/src/v3_scrollback.rs:399-417 | for any positive capped limits and any appends between requests the collected bytes are a prefix of the current log, and on a last page equal the log of that request |
| Scrollback.FixedLogPageCount | protocols/rttx-proto/src/v3_scrollback.rs:418-439 | on a fixed log of n bytes with limit L paging ends with the whole log after exactly max(1, ceil(n/L)) pages |
| Scrollback.ZeroLimitNeverEnds | protocols/rttx-proto/src/v3_scrollback.rs:26-28 | with a limit of 0 a non-empty log is never finished |
| Scrollback.CompletenessFlagsAgree | protocols/rttx-proto/src/v3_snapshot.rs:39-54 | the flag computed by truncation and the one computed from the lengths agree, and say that the tail is the log |
| Scrollback.PagesAndTailRebuild | protocols/rttx-proto/src/v3_snapshot.rs:185-197 | pages that cover the bytes before the snapshot's tail, fetched while output keeps arriving, rebuild the log together with it |
| Quoting.QuotingReadsBack | clients/rttx/src/commands.rs:165-167 | either quoted form, before any text, lexes as the value followed by whatever continues the word |
| Quoting.QuotedValueIsOneWord | clients/rttx/src/lib.rs:33-35 | alone or before a word break a quoted value is one word, and its quote removal is the value iff the value holds no NUL |
| Quoting.RenderEnvBlock | clients/rttx/src/commands.rs:188-200 | the loop builds the export lines in order and the body with one final newline |
| Quoting.EnvBlockReadsBack | clients/rttx/src/commands.rs:188-200 | for all parameters: given their number a quote-aware reader recovers every name, every value and the body up to one final newline iff every name consists of characters that stand for themselves where they are, none of them =, and no value holds a NUL |
| Quoting.BadNameIsMisread | clients/rttx/src/commands.rs:188-200 | a single parameter with any other name is not read back, whatever its value and the body |
| Layout.ContainsIffLeaf | clients/rttx/src/workspace/layout.rs:114-121 | a terminal is contained iff it is one of the leaves |
| Layout.ReplaceRekeysOneLeaf | clients/rttx/src/workspace/layout.rs:123-138 | re-keying replaces the first leaf of that name in place and reports whether there was one |
| Layout.RekeyInPlace | clients/rttx/src/workspace/layout.rs:123-138 | among distinct leaves a fresh name replaces exactly one position and distinctness stays |
| Layout.RemoveDropsOneName | clients/rttx/src/workspace/layout.rs:241-262 | removal drops the leaves of that name, keeps the order of the others and yields nothing iff none is left |
| Layout.SetCwdSetsOneLeaf | clients/rttx/src/workspace/layout.rs:321-351 | among distinct leaves setting a directory sets that of one leaf and no other |
| Layout.SetCwdReadsBack | clients/rttx/src/workspace/layout.rs:321-351 | in every layout a directory set under a name that is shown reads back under that name, and under any other name nothing changes |
| Layout.AdoptedLeavesAreTreeLeaves | clients/rttx/src/workspace/tree.rs:31-75 | the layout of a server tree shows exactly its well-formed panes in order and exists iff there is one |
| LayoutShape.AdoptedPartsAsTree | clients/rttx/src/workspace/tree.rs:31-75 | any two panes part in the adopted layout where they part in the tree: the same panes on either side, vertical iff the axis is, in the node's ratio, kept within [0.05, 0.95] |
| LayoutShape.SetCwdKeepsShape | clients/rttx/src/workspace/layout.rs:321-351 | a new working directory changes neither where any two terminals part nor anything else of any terminal |
| LayoutShape.RekeyKeepsShape | clients/rttx/src/workspace/layout.rs:123-138 | nor does a new name |
| LayoutShape.RemovalKeepsTerminals | clients/rttx/src/workspace/layout.rs:241-262 | the terminals that a removal leaves are as they were, in their order |
| LayoutShape.RemovalKeepsPartings | clients/rttx/src/workspace/layout.rs:241-262 | any two of them part where they did, the same way and in the same ratio, at a node that spans what stays of its own |
| WindowStateModel.WindowState.RebuildPaneReverseIndex | clients/rttx/src/workspace/state.rs:331-344 | the index maps every leaf of every managed workspace to its last owner |
| WindowStateModel.WindowState.ApplyManagedPaneCreated | clients/rttx/src/workspace_state.rs:423-448 | the new window state: binding, re-keyed leaf, recipe, focus, zoom and rebuilt index |
| WindowStateModel.WindowState.ApplyManagedPaneClosed | clients/rttx/src/workspace_state.rs:450-463 | the new window state, the last pane included |
| WindowStateModel.WindowState.AdoptServerTree | clients/rttx/src/workspace_state.rs:469-534 | for a snapshot that carries a tree: the new window state, the restores, the old leaves and the name repair |
| WindowStateModel.WindowState.ApplyManagedWorkspaceOpened | clients/rttx/src/workspace_state.rs:537-573 | the new window state and the reported removals and creations |
| WindowStateModel.WindowState.RecoverManagedWorkspacesFromInventory | clients/rttx/src/workspace_state.rs:302-339 | the loop appends exactly the recovered workspaces of the specification, and rebuilds the index if there are any |
| WindowStateModel.WindowState.ReconcileEndpointEvent | clients/rttx/src/workspace_state.rs:156-299 | every event is the transition function the run theorems are about |
| PaneIndexLaws.RunKeepsIndexCurrent | clients/rttx/src/workspace_state.rs:156-299 | over any sequence of events from a current index the index stays what a full rebuild would make it |
| PaneIndexLaws.LookupEqualsScan | clients/rttx/src/workspace_state.rs:408-415 | after any run looking a pane up equals a linear scan by endpoint key and pane id, given panes unique on that endpoint key |
| PaneIndexLaws.ScanAgreesIffUnique | clients/rttx/src/workspace_state.rs:408-415 | the index agrees with the scan for every pane iff no pane is shown twice on the endpoint |
| PaneIndexLaws.CompositeKeyIsInjective | clients/rttx/src/workspace/state.rs:323-325 | the NUL-separated key determines both parts when the pane id holds no NUL |
| PaneIndexLaws.TerminationNeedsNoRebuild | clients/rttx/src/workspace_state.rs:254-266 | a termination leaves the index current without a rebuild |
| PaneIndexLaws.StaleIffOwnerChanges | clients/rttx/src/workspace/state.rs:331-344 | the index of one list of workspaces is stale for another iff some pane of some endpoint has changed its last owner |
| IndexRebuildLaws.CreatedNeedsRebuildIff | clients/rttx/src/workspace_state.rs:423-448 | the rebuild after an acknowledged pane is needed iff the acknowledgement changes a name and the workspace decides on a name it loses (the old one, if it stood for one leaf) or gains (the new one, if it was not shown) |
| IndexRebuildLaws.ClosedNeedsRebuildIff | clients/rttx/src/workspace_state.rs:450-463 | the rebuild after a close is needed iff the closed pane was shown, is not the last one, and the workspace decides on it |
| IndexRebuildLaws.AdoptedNeedsRebuildIff | clients/rttx/src/workspace_state.rs:469-534 | the rebuild after adopting a tree is needed iff the workspace decides on a pane that only the old layout or only the tree shows |
| IndexRebuildLaws.TreelessOpenNeedsNoRebuild | clients/rttx/src/workspace_state.rs:556-563 | the rebuild after an open without a tree is never needed |
| IndexRebuildLaws.RecoveryNeedsRebuildIff | clients/rttx/src/workspace_state.rs:334-336 | the rebuild after a recovery is needed iff some pane is listed by an entry yet to be recovered and its owner so far, if any, bears another name than the last such entry gets |
| IndexRebuildLaws.FreshRecoveryNeedsRebuild | clients/rttx/src/workspace_state.rs:334-336 | as long as no name is taken that a missing runtime would be recovered under, that is iff a listed runtime is neither known nor dismissed |
| PaneIdentityLaws.PaneCreatedRekeysInPlace | clients/rttx/src/workspace_state.rs:423-448 | an acknowledged pane replaces one leaf in place; its recipe, focus and zoom follow the new id and the others stay; every other workspace is untouched |
| PaneIdentityLaws.PaneCreatedMovesRecipes | clients/rttx/src/workspace_state.rs:423-448 | a terminal has a recipe afterwards iff it had one before, under its old name |
| ShapeLaws.PaneCreatedKeepsShape | clients/rttx/src/workspace_state.rs:423-448 | an acknowledged pane changes nothing else of its workspace, not the shape of the layout nor what its terminals have beside their names |
| ShapeLaws.PaneClosedKeepsTheRest | clients/rttx/src/workspace_state.rs:450-463 | a close changes nothing else of its workspace, and leaves every other terminal as it was |
| ShapeLaws.PaneClosedKeepsPartings | clients/rttx/src/workspace_state.rs:450-463 | the panes that stay part where they did |
| PaneIdentityLaws.NewIdRoutesToItself | clients/rttx/src/workspace_state.rs:347-358 | afterwards the new id routes to itself through the acknowledged runtime and the old id nowhere |
| PaneIdentityLaws.ReplayIsNoOpIffSingleLeaf | clients/rttx/src/workspace_state.rs:423-448 | delivering an acknowledgement twice equals delivering it once iff the old name stood for a single leaf |
| PaneIdentityLaws.PaneClosedRemovesOnlyThatLeaf | clients/rttx/src/workspace_state.rs:450-463 | closing removes that leaf and its recipe and nothing else, the layout stays non-empty, focus stays on a leaf and moves only if it was there; zoom does not move, so a shown zoom stays a leaf iff it was not the closed pane |
| PaneIdentityLaws.LastPaneStays | clients/rttx/src/workspace_state.rs:450-463 | closing the last pane reports a removal and changes nothing |
| PaneIdentityLaws.RunKeepsWellFormed | clients/rttx/src/workspace_state.rs:423-463 | over every run of creations with fresh ids and closes: distinct leaves, a focused leaf, recipes for leaves only |
| WorkspaceRunLaws.EventSurvives | clients/rttx/src/workspace_state.rs:156-299 | of any one event: focus stays on a leaf; distinct leaves, recipes for leaves only and a zoom on a leaf each survive iff the event is not of the kind that breaks it, told from the state before |
| WorkspaceRunLaws.RunKeepsFocus | clients/rttx/src/workspace_state.rs:156-299 | over every run of all events every workspace keeps a focused leaf |
| WorkspaceRunLaws.WellFormedThroughoutIff | clients/rttx/src/workspace_state.rs:156-299 | over every run of all events every workspace has distinct leaves, a focused leaf and recipes for leaves only throughout iff no step acknowledges a taken name, adopts a tree or recovers an entry that lists a pane twice, or adopts a tree that leaves out a terminal with a recipe |
| WorkspaceRunLaws.ZoomedThroughoutIff | clients/rttx/src/workspace_state.rs:156-299 | over every run of all events a zoomed terminal stays a leaf throughout iff no step closes it or adopts a tree without it |
| WorkspaceRunLaws.NamedApartThroughoutIff | clients/rttx/src/workspace_state.rs:156-299 | over every run of all events the workspaces bear distinct names throughout iff no inventory recovers one under a name that is taken |
| AdoptionLaws.AdoptionFollowsTheSnapshot | clients/rttx/src/workspace_state.rs:469-534 | with a tree the layout and the restores depend on the snapshot alone, and the leaves are the tree's in order |
| ShapeLaws.AdoptedLayoutMirrorsTree | clients/rttx/src/workspace_state.rs:469-534 | whatever was shown before, and with the carried directories: the adopted layout has the tree's panes in order, any two part as in the tree, and its terminals have nothing but their names and directories |
| AdoptionLaws.OpenTouchesOnly | clients/rttx/src/workspace_state.rs:469-573 | an attach changes nothing of a workspace but runtime, layout, focus and name; a name is taken over, kept or repaired by whether the daemon has one and whose choice either is; without a tree layout and focus stay |
| AdoptionLaws.AdoptionFocusesALeaf | clients/rttx/src/workspace_state.rs:496-520 | focus lands on the daemon's pane if shown, else the old one if shown, else the first leaf |
| AdoptionLaws.RestoresNameShownPanes | clients/rttx/src/workspace_state.rs:576-607 | restores name exactly the snapshot's panes that the layout shows, in its order |
| AdoptionLaws.RestoresCarryPanes | clients/rttx/src/workspace_state.rs:576-607 | one restore for each shown snapshot pane, in order, with its title, directory, output number, tail, completeness and modes, and its size modulo 2^16 |
| AdoptionLaws.AdoptedTerminalsCarryDaemonCwds | clients/rttx/src/workspace_state.rs:469-534 | each adopted terminal carries the last directory the snapshot reports for it |
| AdoptionLaws.MissingAccountsForAll | clients/rttx/src/workspace_state.rs:537-573 | of each old leaf name the reported removals hold every occurrence or none, by whether it is still shown |
| AdoptionLaws.OpenAccountsForEveryPane | clients/rttx/src/workspace_state.rs:537-573 | an attach with a tree asks for no pane, reports exactly old leaves minus new ones in order, and leaves other workspaces alone |
| AdoptionLaws.ReopenIsNoOp | clients/rttx/src/workspace_state.rs:166-209 | the same attach repeated changes nothing and removes nothing |
| RecoveryLaws.InventoryRecoversExactlyTheMissing | clients/rttx/src/workspace_state.rs:302-339 | an inventory only appends; the recovered runtimes are pairwise distinct, not known, not dismissed; afterwards every well-formed listed runtime is known on the endpoint or dismissed |
| RecoveryLaws.SecondPassRecoversNothing | clients/rttx/src/workspace_state.rs:302-339 | the same inventory again recovers nothing |
| RecoveryLaws.RecoveredLayoutListsPanes | clients/rttx/src/workspace_state.rs:646-671 | a recovered layout lists the inventory's panes in order, with minted names only for malformed ids |
| ShapeLaws.RecoveredLayoutStacksPanes | clients/rttx/src/workspace_state.rs:646-671 | any two of its panes part in a horizontal, even split, the later one against all before it |
| ShapeLaws.RecoveredTerminals | clients/rttx/src/workspace_state.rs:660-671 | each of its terminals has the directory and the title the inventory has, if any |
| RecoveryLaws.RecoveredMirrorEntries | clients/rttx/src/workspace_state.rs:610-644 | each recovered workspace takes its name, mark, policy, runtime and layout from an entry, and starts managed, unzoomed, focused on its first terminal, with an empty recipe for each |
| RecoveryLaws.RecoveredAreEntries | clients/rttx/src/workspace_state.rs:302-339 | a pass recovers, in order, exactly the first entry of every listed runtime that is neither known nor dismissed |
| RecoveryLaws.EntriesDistinctIff | clients/rttx/src/workspace_state.rs:646-658 | the recovered workspaces show distinct leaves iff none of those entries lists a pane twice |
| RecoveryLaws.DismissalSurvivesIffAlwaysListed | clients/rttx/src/workspace_state.rs:267-287 | over any run a dismissal survives iff every inventory loaded in it lists the runtime, whichever endpoint it is of |
| RecoveryLaws.DismissedIsNotResurrected | clients/rttx/src/workspace_state.rs:267-339 | while it survives, no event of the run recovers the runtime |
| RecoveryLaws.OtherEndpointForgetsDismissal | clients/rttx/src/workspace_state.rs:267-287 | one inventory of another endpoint that does not list the runtime is enough to bring it back |
| RecoveryLaws.NamesStayDistinctIffFree | clients/rttx/src/workspace_state.rs:610-644 | distinct workspace names stay distinct over an inventory iff no workspace bears the name that a listed runtime, neither known nor dismissed, would be recovered under |
| RecoveryLaws.LostRuntimeIsRecoveredAgain | clients/rttx/src/workspace_state.rs:302-339 | a workspace that no longer is bound to the runtime it was recovered for is recovered a second time under its name |
| RecoveryLaws.OneEndpointRecoversSameName | clients/rttx/src/workspace_state.rs:254-266 | on one endpoint: an inventory, a termination of the recovered workspace or its reopening under another runtime, and the same inventory again leave two workspaces of one name |
| RecoveryLaws.SameHostRecoversSameName | clients/rttx/src/workspace_state.rs:642-644 | on two endpoints of one host that differ in their daemon binary one runtime is recovered twice under one workspace name |
| NamingLaws.UserNamesYieldOnlyToUserNames | clients/rttx/src/workspace_state.rs:63-84 | across any snapshots the user-renamed mark never falls and a user's name is replaced only by a user's name |
| NamingLaws.MarkedNamesWereChosen | clients/rttx/src/workspace_state.rs:63-84 | over any run of client and daemon, renames by this client's user and by others included, no mark falls and every marked name, and every name under way, was chosen by some user |
| NamingLaws.AttachRepairAttachConverges | clients/rttx/src/daemon_bridge.rs:201-208 | for a workspace bound to a runtime, from any state: attaching, delivering the repairs and attaching again makes both sides agree with no repair left iff a condition on the names, marks and repairs before it holds |
| NamingLaws.UnnamedDaemonIsNotRepaired | clients/rttx/src/workspace_state.rs:63-84 | a daemon record without a name is ignored and never repaired |
| NamingLaws.DeliveryMarksTheDaemon | services/rttx-server/src/workspace.rs:462-523 | delivering the repairs leaves the daemon with a marked name that later automatic names do not replace |
| TransitionLaws.EveryChangeIsReported | clients/rttx/src/workspace_state.rs:156-299 | of any event: existing workspaces keep their places and names, recovered ones follow them, and every pane a workspace no longer shows or newly shows is reported, as removed, renamed or rebuilt |
| TransitionLaws.CreatedAsks | clients/rttx/src/workspace_state.rs:211-238 | an acknowledged pane is connected, recovered and announced under its new name, which is shown, and renamed iff the names differ; if its terminal is not shown nothing happens at all |
| TransitionLaws.ClosedAsks | clients/rttx/src/workspace_state.rs:239-249 | a close reports the removal, and rebuilds the workspace iff it exists and the pane is not its last |
| TransitionLaws.OpenedAsks | clients/rttx/src/workspace_state.rs:166-210 | an attach asks to rebuild its workspace, restore exactly the snapshot panes it shows, remember, and repair the name iff a user's here meets none there |
| TransitionLaws.InventoryAsks | clients/rttx/src/workspace_state.rs:267-287 | an inventory announces each recovered workspace as connecting, in order, and asks to remember iff there is one |
| TransitionLaws.ResyncAsks | clients/rttx/src/workspace_state.rs:289-292 | a resync changes no workspace and restores exactly the snapshot panes the one it names shows |
| TransitionLaws.EndingAsks | clients/rttx/src/workspace_state.rs:250-266 | a termination unbinds the runtime of the workspace it names and nothing else, a detach nothing; either is a disconnection |

## Left out

- GTK widgets, dialogs, preferences and the event poller: no model-level state.
- Sockets, SSH, process spawning and auto-starting a daemon: a connection attempt is its outcome, which may be any error.
- Real time and task scheduling: timers are outstanding Reconnects, heartbeat deadlines are milliseconds of a trace, and a request that never settles is told apart only where the source times it out.
- Protobuf and serde encoding: a codec is any pair of functions that reads back what it writes; malformed ids inside messages are absent values.
- Parsing of uuid text: an id is canonical, another spelling of a uuid, or malformed.
- Event and command channels never overflow: the source drops what does not fit, which the no-abandonment results exclude for the timer's own Reconnect.
- Shutdown and the end of the command channel: a run is any prefix of what the loop does.
- The heartbeat deadline and the backpressure pause inside the actor's runs: they are part of the traces of `Heartbeat`; in a run, a tick is any tick the loop takes.
- Names, policies, sizes, colours and directories that commands merely carry to the daemon, and error detail texts.
- The order in which the actor tells its tracked workspaces the same statuses: one effect for the set of them.
- Renamed-workspace pushes, clipboard, diagnostics and the other builders that only copy fields.
- NaN ratios in a server tree: ratios are real numbers.
- Version and capability negotiation, the hello messages' contents and `advance_connection_status`, which ignores its current state.
- The daemon's own state but for the name record that `NamingLaws` needs.
- Interactive splits, swaps, rotation and navigation of layouts, and the command library's filters and reordering: easy members.
- Persistence of the window state and of saved commands.
- EndpointHeartbeat.ActorCountsTicks: which of the pongs read while a command waits answers the pending ping is left to the monitor's state; for messages the loop takes, closes, ticks and losses the clearing is told from the step.
- Quoting.BadNameIsMisread: an unquoted `*`, `?` or `[` in a name counts as a pattern, whose expansion depends on the files that are there; the case of a `[` that nothing closes, and of a pattern that matches no file, is not told apart.
- Quoting.EnvBlockReadsBack: the same patterns in names count as not read back.
