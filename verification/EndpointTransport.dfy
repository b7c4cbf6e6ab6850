// When an endpoint actor loses its transport, and how a new one begins.
module EndpointTransport {
  import opened Wrappers
  import opened EndpointTypes
  import opened EndpointSpec
  import opened EndpointInvariant
  import opened EndpointReach
  import opened EndpointStream
  import opened EndpointAccounts
  import opened EndpointOpen
  import opened EndpointTraffic
  import opened EndpointReconnect
  import opened EndpointBackoff
  import EndpointOutcomes

  // ---------------------------------------------------------------- losing the transport

  // What costs an established transport: its end, a ninth unanswered tick or a failed ping,
  // a write or response that fails as lost, a handshake that is not over in time, and a
  // command that needs a split transport before there is one.
  predicate Loses(a: Actor, step: Step) {
    match step
    case Message(_, _) => false
    case Closed => true
    case Tick(sendError) => (a.heartbeat.pending.Some? && a.heartbeat.missed >= 7) || sendError.Some?
    case Do(command, s) => CommandLoses(a, command, s)
  }

  predicate CommandLoses(a: Actor, command: Command, s: Script) {
    match command
    case OpenWorkspace(_, _, _, _) =>
      var o := OpeningOf(a, command, s);
      o.Opened().None? && (o.Last().1.Waiting? || IsLostReply(o.Last().1))
    case SendInput(_, _, _) => InputLoses(a, command, s)
    case ResizePane(_, _, _) => InputLoses(a, command, s)
    case RefreshInventory => IsLostReply(ReplyTo(RequestId(a), s.exchange))
    case _ =>
      && IsAwaiting(command) && IdsParse(command.runtime, command)
      && (!a.writer || IsLostReply(ReplyTo(a.nextId, s.exchange)))
  }

  predicate InputLoses(a: Actor, command: Command, s: Script)
    requires command.SendInput? || command.ResizePane?
  {
    && IdsParse(command.runtime, command) && a.writer
    && (s.exchange.sendError == Some(Io) || s.exchange.sendError == Some(Disconnected))
  }

  lemma AwaitingLosesIff(a: Actor, command: Command, s: Script)
    requires Inv(a) && a.Up() && IsAwaiting(command)
    ensures LosesIff(a, Handle(a, command, s), CommandLoses(a, command, s))
  {
    if IdsParse(command.runtime, command) {
      HandlesOnTransport(a, command, s);
      if a.writer {
        var kind, expectTerminated := PaneRequest(OperationOf(command)), EndsTracking(command);
        var (b, reply) := SendAndRead(a, kind, command.runtime.Parse(), expectTerminated, s.exchange);
        SplitRequestTalks(a, kind, command.runtime.Parse(), expectTerminated, s.exchange);
        FinishLosesIff(b, command, command.workspace, reply);
      } else {
        AwaitingCommandReachesDaemonIffSplit(a, command, s);
      }
    }
  }

  lemma FinishLosesIff(a: Actor, command: Command, workspace: WorkspaceId, reply: Reply)
    ensures LosesIff(a, FinishPaneCommand(a, command, workspace, reply), IsLostReply(reply))
  {
    if reply.Answered? && Accepted(command, reply.envelope.payload).Some? {
      var b := if EndsTracking(command) then a.(tracked := a.tracked - {workspace}) else a;
      EndpointOutcomes.EmitAllAppends(b, Accepted(command, reply.envelope.payload).value);
    } else if !reply.Waiting? {
      var error := Refusal(PaneRequest(OperationOf(command)), reply);
      RejectionIsError(a, command, workspace, reply);
      ErrorLosesIff(a, workspace, OperationOf(command), error);
    }
  }

  lemma InputLosesIff(a: Actor, command: Command, s: Script)
    requires command.SendInput? || command.ResizePane?
    ensures LosesIff(a, Handle(a, command, s), InputLoses(a, command, s))
  {
    var w, r := command.workspace, command.runtime;
    assert Handle(a, command, s) == HandleInput(a, command, w, r, s);
    if IdsParse(r, command) && a.writer {
      SplitInput(a, command, w, r, s);
      if s.exchange.sendError.Some? {
        ErrorLosesIff(a.Log(Notified(PaneRequest(OperationOf(command)))), w, OperationOf(command),
                      s.exchange.sendError.value);
      }
    }
  }

  lemma RefreshLosesIff(a: Actor, s: Script)
    requires Inv(a) && a.Up()
    ensures LosesIff(a, HandleRefresh(a, s), IsLostReply(ReplyTo(RequestId(a), s.exchange)))
  {
    var (b, reply) := ActiveRequest(a, ListRequest, None, s.exchange);
    ActiveRequestTalks(a, ListRequest, None, s.exchange);
    ListAnswers(reply);
    if ListOutcome(reply).Failed? {
      ErrorLosesIff(b, INVENTORY_WORKSPACE, OpRefreshInventory, ListOutcome(reply).error);
    }
  }

  lemma CommandLosesIff(a: Actor, command: Command, s: Script)
    requires Inv(a) && a.Up() && !command.Reconnect?
    ensures Handle(a, command, s).Up() <==> !CommandLoses(a, command, s)
  {
    if IsAwaiting(command) {
      AwaitingLosesIff(a, command, s);
    } else {
      match command
      case OpenWorkspace(_, _, _, _) => OpenLosesIff(a, command, s);
      case SendInput(_, _, _) => InputLosesIff(a, command, s);
      case ResizePane(_, _, _) => InputLosesIff(a, command, s);
      case RefreshInventory => RefreshLosesIff(a, s);
      case ResyncWorkspace(_, _) => ResyncReportsTheAnswer(a, command, s);
      case _ =>
    }
  }

  // An established transport is lost by exactly these steps.
  lemma TransportIsLostIff(a: Actor, step: Step)
    requires Inv(a) && Enabled(a, step) && a.Up()
    ensures !Next(a, step).Up() <==> Loses(a, step)
  {
    match step
    case Do(command, s) => CommandLosesIff(a, command, s);
    case Message(_, _) =>
    case Closed => LossDrops(a);
    case Tick(sendError) => TickLosesIff(a, sendError);
  }

  lemma TickLosesIff(a: Actor, sendError: Option<DaemonError>)
    requires a.heartbeat.InRange() && a.writer
    ensures !HandleTick(a, sendError).Up() <==> Loses(a, Tick(sendError))
  {
  }

  // ---------------------------------------------------------------- new transports

  lemma OnlyTheseSplit(a: Actor, command: Command, s: Script)
    requires Inv(a) && !a.writer && !command.OpenWorkspace? && !command.Reconnect?
    ensures !Handle(a, command, s).writer
  {
    if IsAwaiting(command) {
      AwaitingNeverSplits(a, command, s);
    } else {
      match command
      case SendInput(_, _, _) => InputLosesIff(a, command, s);
      case ResizePane(_, _, _) => InputLosesIff(a, command, s);
      case RefreshInventory => RefreshNeverSplits(a, s);
      case ResyncWorkspace(_, _) => ResyncReportsTheAnswer(a, command, s);
      case _ =>
    }
  }

  lemma AwaitingNeverSplits(a: Actor, command: Command, s: Script)
    requires Inv(a) && !a.writer && IsAwaiting(command)
    ensures !Handle(a, command, s).writer
  {
    AwaitingCommandReachesDaemonIffSplit(a, command, s);
    DiallingAdds(a, command.workspace, s);
  }

  lemma RefreshNeverSplits(a: Actor, s: Script)
    requires Inv(a) && !a.writer
    ensures !HandleRefresh(a, s).writer
  {
    DiallingAdds(a, INVENTORY_WORKSPACE, s);
    EnsureConnectedKeeps(a, INVENTORY_WORKSPACE, s.connect);
    if Reaches(a, s) {
      RefreshLosesIff(EnsureConnected(a, INVENTORY_WORKSPACE, s.connect).0, s);
    }
  }

  lemma CycleStartsUnpinged(a: Actor, s: Script)
    requires Retrying(a) && Covers(a, s)
    ensures HandleReconnect(a, s).writer ==> HandleReconnect(a, s).heartbeat.pending.None?
  {
    if a.tracked != map[] {
      if s.connect.Some? {
        FailedConnectEnds(a, s);
      } else {
        ReattachedShrinks(a, s);
        CycleEnds(a, s);
        LossDrops(Reattached(a, s).0.(attempt := a.attempt));
      }
    }
  }

  lemma ReconnectStartsUnpinged(a: Actor, s: Script)
    requires Inv(a) && Enabled(a, Do(Reconnect, s))
    ensures Handle(a, Reconnect, s).writer ==> Handle(a, Reconnect, s).heartbeat.pending.None?
  {
    ReconnectIsCycle(a, Do(Reconnect, s));
    CycleStartsUnpinged(a.(outstanding := 0), s);
  }

  // A transport that a step has split starts without a pending ping, whatever was pending
  // when the one before was lost.
  lemma SplitStartsUnpinged(a: Actor, step: Step)
    requires Inv(a) && Enabled(a, step) && !a.writer && Next(a, step).writer
    ensures Next(a, step).heartbeat.pending.None?
  {
    var command, s := step.command, step.script;
    if command.OpenWorkspace? {
      if Reaches(a, s) {
        OpenLosesIff(a, command, s);
      } else {
        UnreachedOpenStaysDown(a, command, s);
      }
    } else if command.Reconnect? {
      ReconnectStartsUnpinged(a, s);
    } else {
      OnlyTheseSplit(a, command, s);
    }
  }

  lemma UnreachedOpenStaysDown(a: Actor, command: Command, s: Script)
    requires Inv(a) && command.OpenWorkspace? && !Reaches(a, s)
    ensures !Handle(a, command, s).Up()
  {
    OpenDials(a, command.workspace, s);
  }
}
