// Which commands of the window reach the daemon at all.
module EndpointReach {
  import opened Wrappers
  import opened EndpointTypes
  import opened EndpointSpec
  import opened EndpointInvariant
  import Ids = RequestIds

  predicate IsAwaiting(command: Command) {
    command.CreatePane? || command.SplitPane? || command.ClosePane? || EndsTracking(command)
  }

  // A request has been written since `before`.
  ghost predicate AskedSince(before: Actor, after: Actor) {
    exists i :: |before.log| <= i < |after.log| && after.log[i].Requested?
  }

  ghost predicate GrewSilently(a: Actor, b: Actor) {
    a.log <= b.log && !AskedSince(a, b)
  }

  lemma CommandErrorIsSilent(a: Actor, workspace: WorkspaceId, operation: Operation, error: DaemonError)
    ensures GrewSilently(a, CommandError(a, workspace, operation, error))
  {
    var b := EmitError(a, workspace, operation, Classify(error));
    assert GrewSilently(a, b);
    DisconnectIsSilent(b);
    SilenceComposes(a, b, HandleDisconnect(b));
  }

  lemma DisconnectIsSilent(a: Actor)
    ensures GrewSilently(a, HandleDisconnect(a))
  {
  }

  lemma SilenceComposes(a: Actor, b: Actor, c: Actor)
    requires GrewSilently(a, b) && GrewSilently(b, c)
    ensures GrewSilently(a, c)
  {
    assert forall i | |a.log| <= i < |b.log| :: c.log[i] == b.log[i];
  }

  lemma {:induction false} EmitAllIsSilent(a: Actor, events: seq<Event>)
    ensures GrewSilently(a, EmitAll(a, events))
    decreases |events|
  {
    if events != [] {
      var b := a.Log(Emit(events[0]));
      assert GrewSilently(a, b);
      EmitAllIsSilent(b, events[1..]);
      SilenceComposes(a, b, EmitAll(b, events[1..]));
    }
  }

  lemma FinishIsSilent(a: Actor, command: Command, workspace: WorkspaceId, reply: Reply)
    ensures GrewSilently(a, FinishPaneCommand(a, command, workspace, reply))
  {
    match reply
    case Waiting =>
    case Broken(error) => CommandErrorIsSilent(a, workspace, OperationOf(command), error);
    case Answered(envelope) =>
      match Accepted(command, envelope.payload)
      case None => CommandErrorIsSilent(a, workspace, OperationOf(command), ReplyError(envelope.payload));
      case Some(events) =>
        EmitAllIsSilent(if EndsTracking(command) then a.(tracked := a.tracked - {workspace}) else a, events);
  }

  lemma EnsureConnectedIsSilent(a: Actor, workspace: WorkspaceId, connect: Option<DaemonError>)
    ensures GrewSilently(a, EnsureConnected(a, workspace, connect).0)
  {
  }

  // With a writer the request is written; without one the command fails as disconnected.
  lemma SplitRequestIsAsked(a: Actor, command: Command, workspace: WorkspaceId, runtime: Option<Uuid>,
                            expectTerminated: bool, x: Exchange)
    requires a.writer
    ensures var (b, reply) := SendAndRead(a, PaneRequest(OperationOf(command)), runtime, expectTerminated, x);
            AskedSince(a, FinishPaneCommand(b, command, workspace, reply))
  {
    var kind := PaneRequest(OperationOf(command));
    var (b, reply) := SendAndRead(a, kind, runtime, expectTerminated, x);
    var c := a.(nextId := Ids.ActorSuccessor(a.nextId)).Log(Requested(a.nextId, kind, runtime));
    ReadResponseShrinks(c, a.nextId, expectTerminated, x.inbound, x.ending);
    assert c.log <= b.log;
    FinishIsSilent(b, command, workspace, reply);
    assert FinishPaneCommand(b, command, workspace, reply).log[|a.log|] == Requested(a.nextId, kind, runtime);
  }

  lemma UnsplitRequestIsLost(a: Actor, command: Command, workspace: WorkspaceId, runtime: Option<Uuid>,
                             expectTerminated: bool, x: Exchange)
    requires a.connection && !a.writer && a.tracked == map[]
    ensures var (b, reply) := SendAndRead(a, PaneRequest(OperationOf(command)), runtime, expectTerminated, x);
            var c := FinishPaneCommand(b, command, workspace, reply);
            GrewSilently(a, c) && !c.Up() && c.attempt == a.attempt
  {
    var (b, reply) := SendAndRead(a, PaneRequest(OperationOf(command)), runtime, expectTerminated, x);
    assert reply == Broken(Disconnected) && b.log == a.log;
    FinishIsSilent(b, command, workspace, reply);
  }

  // A command on a pane, a detach or a termination is written to the daemon exactly when
  // its ids parse and the transport was split before; on a connection that is not split yet,
  // also one made for this very command, it fails, and the connection is dropped.
  lemma AwaitingCommandReachesDaemonIffSplit(a: Actor, command: Command, s: Script)
    requires Inv(a) && IsAwaiting(command)
    ensures var b := Handle(a, command, s);
            && (AskedSince(a, b) <==> a.writer && IdsParse(command.runtime, command))
            && (!a.writer && IdsParse(command.runtime, command) ==> !b.Up())
  {
    var w, r := command.workspace, command.runtime;
    var (b, problem) := EnsureConnected(a, w, s.connect);
    EnsureConnectedKeeps(a, w, s.connect);
    EnsureConnectedIsSilent(a, w, s.connect);
    var expectTerminated := EndsTracking(command);
    if problem.Some? {
      ReportIsSilent(b, command, problem.value);
      SilenceComposes(a, b, ReportUnlessTransient(b, w, OperationOf(command), problem.value));
    } else if a.writer {
      SplitRequestIsAsked(a, command, w, r.Parse(), expectTerminated, s.exchange);
    } else {
      UnsplitRequestIsLost(b, command, w, r.Parse(), expectTerminated, s.exchange);
      var (c, reply) := SendAndRead(b, PaneRequest(OperationOf(command)), r.Parse(), expectTerminated, s.exchange);
      SilenceComposes(a, b, FinishPaneCommand(c, command, w, reply));
    }
  }

  lemma ReportIsSilent(a: Actor, command: Command, problem: Problem)
    requires IsAwaiting(command)
    ensures var b := ReportUnlessTransient(a, command.workspace, OperationOf(command), problem);
            GrewSilently(a, b) && b.Up() == a.Up()
  {
  }

  // An open that times out drops the transport and schedules a retry, but of all the
  // workspaces it may have been carrying it tells only the one being opened.
  lemma HandshakeTimeoutTellsOnlyTheOpener(a: Actor, w: WorkspaceId)
    requires Inv(a) && a.Up()
    ensures var b := HandshakeTimeout(a, w);
            && !b.Up() && b.outstanding == 1 && b.attempt == 1 && b.tracked == a.tracked
            && a.log <= b.log
            && (forall i | |a.log| <= i < |b.log| ::
                  !b.log[i].EmitEach? && (b.log[i].Emit? ==> TellsOnly(b.log[i].event, w)))
  {
    assert a.attempt == 0 && a.outstanding == 0;
  }

  predicate TellsOnly(event: Event, w: WorkspaceId) {
    (event.StatusChanged? || event.WorkspaceError?) && event.workspace == w
  }
}
