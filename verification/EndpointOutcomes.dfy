// What the window is told when a command that awaits a response succeeds.
module EndpointOutcomes {
  import opened Wrappers
  import opened EndpointTypes
  import opened EndpointSpec
  import opened EndpointInvariant
  import opened EndpointReach
  import opened EndpointStream
  import Ids = RequestIds

  // The operation a command's errors are reported under, a split under that of a creation,
  // and the ids that have to parse.
  lemma CommandsNameTheirParts(command: Command)
    ensures OperationOf(command).OpCreatePane? <==> command.CreatePane? || command.SplitPane?
    ensures OperationOf(command).OpClosePane? <==> command.ClosePane?
    ensures OperationOf(command).OpDetach? <==> command.DetachWorkspace?
    ensures OperationOf(command).OpTerminate? <==> command.TerminateWorkspace?
    ensures OperationOf(command).OpSendInput? <==> command.SendInput?
    ensures OperationOf(command).OpResizePane? <==> command.ResizePane?
    ensures OperationOf(command).OpRename? <==> command.RenameWorkspace?
    ensures OperationOf(command).OpSetNoPersist? <==> command.SetPaneNoPersist?
    ensures forall runtime ::
              IdsParse(runtime, command)
              <==> && runtime.Parse().Some? && (command.SplitPane? ==> command.target.Parse().Some?)
                   && (command.ClosePane? || command.SendInput? || command.ResizePane? || command.SetPaneNoPersist?
                       ==> command.pane.Parse().Some?)
  {
  }

  // The payload that answers the next request of a split transport, if one arrives: the one
  // of the first envelope that carries the request's own id.
  function Response(a: Actor, x: Exchange): Option<Payload> {
    var k := AwaitedAt(x.inbound, a.nextId);
    if x.sendError.None? && k < |x.inbound| then Some(x.inbound[k].payload) else None
  }

  predicate IsOutcome(event: Event) {
    event.PaneWasCreated? || event.PaneWasClosed? || event.WorkspaceWasDetached? || event.WorkspaceWasTerminated?
  }

  ghost predicate Reported(a: Actor, b: Actor, event: Event) {
    exists i :: |a.log| <= i < |b.log| && b.log[i] == Emit(event)
  }

  // The log has grown, but by no outcome.
  ghost predicate NoOutcome(a: Actor, b: Actor) {
    a.log <= b.log && forall i | |a.log| <= i < |b.log| && b.log[i].Emit? :: !IsOutcome(b.log[i].event)
  }

  function Emitted(events: seq<Event>): seq<Effect> {
    seq(|events|, i requires 0 <= i < |events| => Emit(events[i]))
  }

  lemma {:induction false} EmitAllAppends(a: Actor, events: seq<Event>)
    ensures EmitAll(a, events) == a.(log := a.log + Emitted(events))
    decreases |events|
  {
    if events == [] {
      assert a.log + Emitted(events) == a.log;
    } else {
      EmitAllAppends(a.Log(Emit(events[0])), events[1..]);
      assert Emitted(events) == [Emit(events[0])] + Emitted(events[1..]);
      assert a.log + [Emit(events[0])] + Emitted(events[1..]) == a.log + ([Emit(events[0])] + Emitted(events[1..]));
    }
  }

  lemma ErrorsAreNoOutcome(a: Actor, workspace: WorkspaceId, operation: Operation, error: DaemonError)
    ensures NoOutcome(a, CommandError(a, workspace, operation, error))
  {
    var b := EmitError(a, workspace, operation, Classify(error));
    assert NoOutcome(a, b);
    assert NoOutcome(b, HandleDisconnect(b));
  }

  lemma RequestIsNoOutcome(a: Actor, kind: RequestKind, runtime: Option<Uuid>, expectTerminated: bool, x: Exchange)
    requires a.writer && a.reader
    ensures var (b, reply) := SendAndRead(a, kind, runtime, expectTerminated, x);
            && NoOutcome(a, b)
            && Response(a, x) == (if reply.Answered? then Some(reply.envelope.payload) else None)
            && SameTransport(a, b)
  {
    var c := a.(nextId := Ids.ActorSuccessor(a.nextId)).Log(Requested(a.nextId, kind, runtime));
    ResponseConservesTheStream(c, a.nextId, expectTerminated, x.inbound, x.ending);
    ForwardsAreMessages(x.inbound[..AwaitedAt(x.inbound, a.nextId)], expectTerminated);
  }

  // The command accepts the response, and the event is among those it then brings.
  predicate Brings(command: Command, payload: Payload, event: Event) {
    Accepted(command, payload).Some? && event in Accepted(command, payload).value
  }

  // What an answered command reports, given what its response is accepted as.
  lemma FinishReports(a: Actor, command: Command, workspace: WorkspaceId, reply: Reply, event: Event)
    requires IsOutcome(event)
    ensures Reported(a, FinishPaneCommand(a, command, workspace, reply), event)
            <==> reply.Answered? && Brings(command, reply.envelope.payload, event)
  {
    var b := FinishPaneCommand(a, command, workspace, reply);
    match reply
    case Waiting =>
    case Broken(error) => ErrorsAreNoOutcome(a, workspace, OperationOf(command), error);
    case Answered(envelope) =>
      match Accepted(command, envelope.payload)
      case None => ErrorsAreNoOutcome(a, workspace, OperationOf(command), ReplyError(envelope.payload));
      case Some(events) =>
        EmitAllAppends(if EndsTracking(command) then a.(tracked := a.tracked - {workspace}) else a, events);
        assert b.log == a.log + Emitted(events);
        if event in events {
          var i :| 0 <= i < |events| && events[i] == event;
          assert b.log[|a.log| + i] == Emit(event);
        }
  }

  lemma ReportedLater(a: Actor, b: Actor, c: Actor, event: Event)
    requires NoOutcome(a, b) && b.log <= c.log && IsOutcome(event)
    ensures Reported(a, c, event) <==> Reported(b, c, event)
  {
    if Reported(a, c, event) {
      var i :| |a.log| <= i < |c.log| && c.log[i] == Emit(event);
      assert b.log == c.log[..|b.log|];
    }
  }

  // On a split transport, with ids that parse, an outcome is reported exactly when the
  // command accepts the response that carries the request's own id.
  lemma OutcomeComesFromOwnResponse(a: Actor, command: Command, s: Script, event: Event)
    requires Inv(a) && a.writer && IsAwaiting(command) && IdsParse(command.runtime, command) && IsOutcome(event)
    ensures var response := Response(a, s.exchange);
            Reported(a, Handle(a, command, s), event)
            <==> response.Some? && Brings(command, response.value, event)
  {
    var w := command.workspace;
    var kind := PaneRequest(OperationOf(command));
    var (b, reply) := SendAndRead(a, kind, command.runtime.Parse(), EndsTracking(command), s.exchange);
    RequestIsNoOutcome(a, kind, command.runtime.Parse(), EndsTracking(command), s.exchange);
    FinishIsSilent(b, command, w, reply);
    var c := FinishPaneCommand(b, command, w, reply);
    assert Handle(a, command, s) == c;
    FinishReports(b, command, w, reply, event);
    ReportedLater(a, b, c, event);
  }

  // A pane is reported created exactly when the daemon's own answer names it; a split is
  // answered by another message than a creation.
  lemma PaneIsReportedAsAnswered(a: Actor, command: Command, s: Script, pane: Uuid)
    requires Inv(a) && a.writer && (command.CreatePane? || command.SplitPane?) && IdsParse(command.runtime, command)
    ensures var event := PaneWasCreated(command.workspace, command.terminal, command.runtime, pane);
            Reported(a, Handle(a, command, s), event)
            <==> var answer := if command.CreatePane? then PaneCreated(Some(pane)) else PaneSplit(Some(pane));
                 Response(a, s.exchange) == Some(answer)
  {
    OutcomeComesFromOwnResponse(a, command, s,
                                PaneWasCreated(command.workspace, command.terminal, command.runtime, pane));
  }

  predicate IsUnknownPane(payload: Payload) { payload.ErrorReply? && payload.kind.PaneNotFound? }

  // A pane is reported closed exactly when the daemon has closed it or does not know it.
  lemma PaneIsReportedClosedIfGone(a: Actor, command: Command, s: Script)
    requires Inv(a) && a.writer && command.ClosePane? && IdsParse(command.runtime, command)
    ensures var response := Response(a, s.exchange);
            Reported(a, Handle(a, command, s),
                     PaneWasClosed(command.workspace, command.terminal, command.runtime, command.pane))
            <==> response.Some? && (response.value.PaneClosed? || IsUnknownPane(response.value))
  {
    OutcomeComesFromOwnResponse(a, command, s,
                                PaneWasClosed(command.workspace, command.terminal, command.runtime, command.pane));
  }

  // A detach may be answered by a termination as well; a terminate only by one. Either
  // answer, reported as what it is, untracks the workspace.
  lemma EndingUntracksAsAnswered(a: Actor, command: Command, s: Script, reason: nat)
    requires Inv(a) && a.writer && EndsTracking(command) && IdsParse(command.runtime, command)
    ensures var b := Handle(a, command, s);
            var response := Response(a, s.exchange);
            var (w, r) := (command.workspace, command.runtime);
            && (Reported(a, b, WorkspaceWasDetached(w, r))
                <==> command.DetachWorkspace? && response == Some(WorkspaceDetached))
            && (Reported(a, b, WorkspaceWasTerminated(w, r, reason))
                <==> response.Some? && response.value.Terminated? && response.value.reason == reason)
            && (response.Some? && Accepted(command, response.value).Some? ==> w !in b.tracked)
  {
    var w, r := command.workspace, command.runtime;
    OutcomeComesFromOwnResponse(a, command, s, WorkspaceWasDetached(w, r));
    OutcomeComesFromOwnResponse(a, command, s, WorkspaceWasTerminated(w, r, reason));
    AcceptedEndingUntracks(a, command, s);
  }

  lemma AcceptedEndingUntracks(a: Actor, command: Command, s: Script)
    requires Inv(a) && a.writer && EndsTracking(command) && IdsParse(command.runtime, command)
    ensures var response := Response(a, s.exchange);
            response.Some? && Accepted(command, response.value).Some?
            ==> command.workspace !in Handle(a, command, s).tracked
  {
    var kind := PaneRequest(OperationOf(command));
    var (b, reply) := SendAndRead(a, kind, command.runtime.Parse(), true, s.exchange);
    RequestIsNoOutcome(a, kind, command.runtime.Parse(), true, s.exchange);
    if reply.Answered? && Accepted(command, reply.envelope.payload).Some? {
      EmitAllAppends(b.(tracked := b.tracked - {command.workspace}), Accepted(command, reply.envelope.payload).value);
    }
  }
}
