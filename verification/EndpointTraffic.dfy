// What passes between an endpoint actor, its daemon and its window, command by command and
// over whole runs.
module EndpointTraffic {
  import opened Wrappers
  import opened EndpointTypes
  import opened EndpointSpec
  import opened EndpointInvariant
  import opened EndpointReach
  import opened EndpointStream
  import opened EndpointOutcomes
  import opened EndpointAccounts
  import opened EndpointOpen
  import Ids = RequestIds

  // ---------------------------------------------------------------- commands that await one response

  // What the reply to a command tells, with these workspaces tracked.
  function ReplyTells(command: Command, workspace: WorkspaceId, reply: Reply, tracked: set<WorkspaceId>, cap: nat):
    seq<Effect>
  {
    if reply.Waiting? then []
    else if reply.Answered? && Accepted(command, reply.envelope.payload).Some?
    then Emitted(Accepted(command, reply.envelope.payload).value)
    else ErrorTells(workspace, OperationOf(command), Refusal(PaneRequest(OperationOf(command)), reply), tracked, cap)
  }

  lemma EmittedAreNotices(events: seq<Event>)
    requires forall event | event in events :: !event.WorkspaceMessage?
    ensures forall e | e in Emitted(events) :: ColumnOf(e) == Notices
  {
  }

  lemma AcceptedAreNotices(command: Command, payload: Payload)
    requires Accepted(command, payload).Some?
    ensures forall event | event in Accepted(command, payload).value :: !event.WorkspaceMessage?
  {
  }

  lemma AcceptedTells(a: Actor, command: Command, workspace: WorkspaceId, envelope: Envelope)
    requires Accepted(command, envelope.payload).Some?
    ensures var b := FinishPaneCommand(a, command, workspace, Answered(envelope));
            && Adds(a, b, [], [], Emitted(Accepted(command, envelope.payload).value))
            && b.tracked == (if EndsTracking(command) then a.tracked - {workspace} else a.tracked)
  {
    var events := Accepted(command, envelope.payload).value;
    var c := if EndsTracking(command) then a.(tracked := a.tracked - {workspace}) else a;
    EmitAllAppends(c, events);
    AcceptedAreNotices(command, envelope.payload);
    EmittedAreNotices(events);
    AddsNotices(a, EmitAll(c, events), Emitted(events));
  }

  // What is tracked once the reply has been handled.
  function TrackedAfter(command: Command, workspace: WorkspaceId, reply: Reply, tracked: map<WorkspaceId, IdText>):
    map<WorkspaceId, IdText>
  {
    if EndsTracking(command) && reply.Answered? && Accepted(command, reply.envelope.payload).Some?
    then tracked - {workspace} else tracked
  }

  lemma RejectionIsError(a: Actor, command: Command, workspace: WorkspaceId, reply: Reply)
    requires reply.Broken? || (reply.Answered? && Accepted(command, reply.envelope.payload).None?)
    ensures FinishPaneCommand(a, command, workspace, reply)
            == CommandError(a, workspace, OperationOf(command), Refusal(PaneRequest(OperationOf(command)), reply))
  {
  }

  lemma FinishTells(a: Actor, command: Command, workspace: WorkspaceId, reply: Reply)
    requires a.attempt == 0
    ensures var b := FinishPaneCommand(a, command, workspace, reply);
            && Adds(a, b, [], [], ReplyTells(command, workspace, reply, a.tracked.Keys, a.cap))
            && b.tracked == TrackedAfter(command, workspace, reply, a.tracked)
  {
    if reply.Waiting? {
      AddsNotices(a, a, []);
    } else if reply.Answered? && Accepted(command, reply.envelope.payload).Some? {
      AcceptedTells(a, command, workspace, reply.envelope);
    } else {
      var error := Refusal(PaneRequest(OperationOf(command)), reply);
      RejectionIsError(a, command, workspace, reply);
      ErrorAdds(a, workspace, OperationOf(command), error);
      ErrorTracks(a, workspace, OperationOf(command), error);
    }
  }

  // On a split transport, with ids that parse: the one request a command writes, what is
  // handed on while it waits, what its reply tells, and what stays tracked.
  ghost predicate FollowsReply(a: Actor, b: Actor, command: Command, s: Script)
    requires IsAwaiting(command)
  {
    var w := command.workspace;
    var request := Requested(a.nextId, PaneRequest(OperationOf(command)), command.runtime.Parse());
    var heard := HeardFor(true, a.nextId, EndsTracking(command), s.exchange);
    var reply := ReplyTo(a.nextId, s.exchange);
    var survivors := Survivors(a.tracked, heard);
    && Adds(a, b, [request], heard, ReplyTells(command, w, reply, survivors.Keys, a.cap))
    && b.tracked == TrackedAfter(command, w, reply, survivors)
  }

  lemma AwaitingCommandFollowsReply(a: Actor, command: Command, s: Script)
    requires Inv(a) && a.writer && IsAwaiting(command) && IdsParse(command.runtime, command)
    ensures FollowsReply(a, Handle(a, command, s), command, s)
  {
    var w := command.workspace;
    var kind := PaneRequest(OperationOf(command));
    var expectTerminated := EndsTracking(command);
    var (b, reply) := SendAndRead(a, kind, command.runtime.Parse(), expectTerminated, s.exchange);
    SplitRequestTalks(a, kind, command.runtime.Parse(), expectTerminated, s.exchange);
    FinishTells(b, command, w, reply);
    var c := FinishPaneCommand(b, command, w, reply);
    assert Handle(a, command, s) == c;
    var asked := [Requested(a.nextId, kind, command.runtime.Parse())];
    var heard := HeardFor(true, a.nextId, expectTerminated, s.exchange);
    var told := ReplyTells(command, w, reply, b.tracked.Keys, a.cap);
    AddsCompose(a, b, c, asked, heard, [], [], [], told);
    assert asked + [] == asked && heard + [] == heard && [] + told == told;
  }

  // The payload is an answer that names the pane asked for.
  predicate NamesItsPane(command: Command, payload: Payload) {
    || (command.CreatePane? && payload.PaneCreated? && payload.pane.Some?)
    || (command.SplitPane? && payload.PaneSplit? && payload.pane.Some?)
  }

  lemma AcceptedConnects(command: Command, payload: Payload)
    requires IsAwaiting(command) && Accepted(command, payload).Some?
    ensures StatusChanged(command.workspace, Connected) in Accepted(command, payload).value
            <==> NamesItsPane(command, payload)
  {
  }

  lemma ReplyConnects(command: Command, reply: Reply, tracked: set<WorkspaceId>, cap: nat)
    requires IsAwaiting(command)
    ensures Emit(StatusChanged(command.workspace, Connected)) in ReplyTells(command, command.workspace, reply, tracked,
            cap)
            <==> reply.Answered? && NamesItsPane(command, reply.envelope.payload)
  {
    if reply.Answered? && Accepted(command, reply.envelope.payload).Some? {
      var events := Accepted(command, reply.envelope.payload).value;
      AcceptedConnects(command, reply.envelope.payload);
      assert forall event :: Emit(event) in Emitted(events) <==> event in events by {
        assert forall i | 0 <= i < |events| :: Emitted(events)[i] == Emit(events[i]);
      }
    }
  }

  lemma FollowingReplyConnects(a: Actor, b: Actor, command: Command, s: Script)
    requires IsAwaiting(command) && FollowsReply(a, b, command, s)
    ensures var reply := ReplyTo(a.nextId, s.exchange);
            Tells(a, b, StatusChanged(command.workspace, Connected))
            <==> reply.Answered? && NamesItsPane(command, reply.envelope.payload)
  {
    var heard := HeardFor(true, a.nextId, EndsTracking(command), s.exchange);
    var reply := ReplyTo(a.nextId, s.exchange);
    var told := ReplyTells(command, command.workspace, reply, Survivors(a.tracked, heard).Keys, a.cap);
    ReplyConnects(command, reply, Survivors(a.tracked, heard).Keys, a.cap);
    AddedIsLogged(a, b, [Requested(a.nextId, PaneRequest(OperationOf(command)), command.runtime.Parse())], heard, told,
                  Emit(StatusChanged(command.workspace, Connected)));
  }

  // On a split transport a pane command reports its workspace connected exactly if the reply
  // to its own request names the new pane.
  lemma ConnectedIffPaneNamed(a: Actor, command: Command, s: Script)
    requires Inv(a) && a.writer && IsAwaiting(command) && IdsParse(command.runtime, command)
    ensures var reply := ReplyTo(a.nextId, s.exchange);
            Tells(a, Handle(a, command, s), StatusChanged(command.workspace, Connected))
            <==> reply.Answered? && NamesItsPane(command, reply.envelope.payload)
  {
    AwaitingCommandFollowsReply(a, command, s);
    FollowingReplyConnects(a, Handle(a, command, s), command, s);
  }

  // ---------------------------------------------------------------- commands that ask nothing

  function ParseFailure(command: Command, workspace: WorkspaceId): seq<Effect> {
    [Emit(WorkspaceError(workspace, OperationOf(command), ProtocolFailure("Invalid runtime UUID")))]
  }

  // No transport: an error only if connecting failed for good.
  function UnreachedTells(a: Actor, workspace: WorkspaceId, operation: Operation, s: Script): seq<Effect>
    requires !Reaches(a, s)
  {
    DialTells(a, workspace, s.connect)
    + if a.attempt == 0 && s.connect.value != Io && s.connect.value != Disconnected
      then BlockedBy(workspace, operation, Classify(s.connect.value)) else []
  }

  lemma UnreachedAdds(a: Actor, workspace: WorkspaceId, operation: Operation, s: Script)
    requires Inv(a) && !Reaches(a, s)
    ensures var (b, problem) := EnsureConnected(a, workspace, s.connect);
            && problem.Some?
            && var c := ReportUnlessTransient(b, workspace, operation, problem.value);
               Adds(a, c, [], [], UnreachedTells(a, workspace, operation, s)) && c.tracked == a.tracked
  {
    var (b, problem) := EnsureConnected(a, workspace, s.connect);
    DiallingAdds(a, workspace, s);
    var told := DialTells(a, workspace, s.connect);
    if problem.value.IsTransient() {
      assert told + [] == told;
    } else {
      EmitErrorAdds(b, workspace, operation, problem.value);
      AddsCompose(a, b, EmitError(b, workspace, operation, problem.value), [], [], told, [], [],
                  BlockedBy(workspace, operation, problem.value));
    }
  }

  // A command that needs a split transport and finds none, or carries an id that does not
  // parse. Pane commands connect before they parse; detaching and terminating parse first.
  function UnaskedTells(a: Actor, command: Command, s: Script): seq<Effect>
    requires IsAwaiting(command)
  {
    var w := command.workspace;
    if EndsTracking(command) && command.runtime.Parse().None? then ParseFailure(command, w)
    else if !Reaches(a, s) then UnreachedTells(a, w, OperationOf(command), s)
    else
      DialTells(a, w, s.connect)
      + if IdsParse(command.runtime, command) then ErrorTells(w, OperationOf(command), Disconnected, {}, a.cap)
        else ParseFailure(command, w)
  }

  lemma ParseFailureAdds(a: Actor, command: Command, workspace: WorkspaceId)
    ensures Adds(a, ParseError(a, workspace, OperationOf(command)), [], [], ParseFailure(command, workspace))
  {
    AddsNotices(a, ParseError(a, workspace, OperationOf(command)), ParseFailure(command, workspace));
  }

  lemma UnsplitCommandFails(a: Actor, command: Command, s: Script)
    requires IsAwaiting(command) && !a.writer && a.attempt == 0 && a.tracked == map[]
    ensures var w := command.workspace;
            var kind := PaneRequest(OperationOf(command));
            var (b, reply) := SendAndRead(a, kind, command.runtime.Parse(), EndsTracking(command), s.exchange);
            var c := FinishPaneCommand(b, command, w, reply);
            && Adds(a, c, [], [], ErrorTells(w, OperationOf(command), Disconnected, {}, a.cap))
            && c.tracked == map[]
  {
    var w := command.workspace;
    var b := a.(nextId := Ids.ActorSuccessor(a.nextId));
    ErrorAdds(b, w, OperationOf(command), Disconnected);
    ErrorTracks(b, w, OperationOf(command), Disconnected);
    assert a.tracked.Keys == {};
  }

  lemma DialledFirst(a: Actor, b: Actor, c: Actor, workspace: WorkspaceId, s: Script, told: seq<Effect>)
    requires Adds(a, b, [], [], DialTells(a, workspace, s.connect)) && Adds(b, c, [], [], told)
    ensures Adds(a, c, [], [], DialTells(a, workspace, s.connect) + told)
  {
    AddsCompose(a, b, c, [], [], DialTells(a, workspace, s.connect), [], [], told);
  }

  // What a command that awaits a response does once there is a transport.
  function OnTransport(a: Actor, command: Command, s: Script): Actor
    requires IsAwaiting(command)
  {
    if IdsParse(command.runtime, command) then
      var kind := PaneRequest(OperationOf(command));
      var (b, reply) := SendAndRead(a, kind, command.runtime.Parse(), EndsTracking(command), s.exchange);
      FinishPaneCommand(b, command, command.workspace, reply)
    else ParseError(a, command.workspace, OperationOf(command))
  }

  lemma HandlesOnTransport(a: Actor, command: Command, s: Script)
    requires IsAwaiting(command) && (EndsTracking(command) ==> command.runtime.Parse().Some?)
    requires EnsureConnected(a, command.workspace, s.connect).1.None?
    ensures Handle(a, command, s) == OnTransport(EnsureConnected(a, command.workspace, s.connect).0, command, s)
  {
  }

  lemma OnTransportTells(a: Actor, b: Actor, command: Command, s: Script)
    requires Inv(a) && IsAwaiting(command) && !(a.writer && IdsParse(command.runtime, command)) && Reaches(a, s)
    requires EndsTracking(command) ==> command.runtime.Parse().Some?
    requires b == Dialled(a).(log := b.log) && Adds(a, b, [], [], DialTells(a, command.workspace, s.connect))
    ensures Adds(a, OnTransport(b, command, s), [], [], UnaskedTells(a, command, s))
    ensures OnTransport(b, command, s).tracked == a.tracked
  {
    var w := command.workspace;
    if IdsParse(command.runtime, command) {
      UnsplitCommandFails(b, command, s);
      DialledFirst(a, b, OnTransport(b, command, s), w, s,
                   ErrorTells(w, OperationOf(command), Disconnected, {}, a.cap));
    } else {
      ParseFailureAdds(b, command, w);
      DialledFirst(a, b, OnTransport(b, command, s), w, s, ParseFailure(command, w));
    }
  }

  lemma ReachedCommandTells(a: Actor, command: Command, s: Script)
    requires Inv(a) && IsAwaiting(command) && !(a.writer && IdsParse(command.runtime, command)) && Reaches(a, s)
    requires EndsTracking(command) ==> command.runtime.Parse().Some?
    ensures Adds(a, Handle(a, command, s), [], [], UnaskedTells(a, command, s))
    ensures Handle(a, command, s).tracked == a.tracked
  {
    var b := EnsureConnected(a, command.workspace, s.connect).0;
    DiallingAdds(a, command.workspace, s);
    HandlesOnTransport(a, command, s);
    OnTransportTells(a, b, command, s);
  }

  lemma HandlesUnreached(a: Actor, command: Command, s: Script)
    requires IsAwaiting(command) && (EndsTracking(command) ==> command.runtime.Parse().Some?)
    requires EnsureConnected(a, command.workspace, s.connect).1.Some?
    ensures var (b, problem) := EnsureConnected(a, command.workspace, s.connect);
            Handle(a, command, s) == ReportUnlessTransient(b, command.workspace, OperationOf(command), problem.value)
  {
  }

  lemma UnreachedCommandTells(a: Actor, command: Command, s: Script)
    requires Inv(a) && IsAwaiting(command) && !Reaches(a, s)
    requires EndsTracking(command) ==> command.runtime.Parse().Some?
    ensures Adds(a, Handle(a, command, s), [], [], UnreachedTells(a, command.workspace, OperationOf(command), s))
    ensures Handle(a, command, s).tracked == a.tracked
  {
    UnreachedAdds(a, command.workspace, OperationOf(command), s);
    HandlesUnreached(a, command, s);
  }

  lemma MalformedEndingTells(a: Actor, command: Command, s: Script)
    requires EndsTracking(command) && command.runtime.Parse().None?
    ensures Adds(a, Handle(a, command, s), [], [], ParseFailure(command, command.workspace))
    ensures Handle(a, command, s).tracked == a.tracked
  {
    ParseFailureAdds(a, command, command.workspace);
  }

  lemma UnaskedCommandTells(a: Actor, command: Command, s: Script)
    requires Inv(a) && IsAwaiting(command) && !(a.writer && IdsParse(command.runtime, command))
    ensures Adds(a, Handle(a, command, s), [], [], UnaskedTells(a, command, s))
    ensures Handle(a, command, s).tracked == a.tracked
  {
    if EndsTracking(command) && command.runtime.Parse().None? {
      MalformedEndingTells(a, command, s);
    } else if Reaches(a, s) {
      ReachedCommandTells(a, command, s);
    } else {
      UnreachedCommandTells(a, command, s);
    }
  }

  function WrittenInputTells(a: Actor, command: Command, workspace: WorkspaceId, s: Script): seq<Effect> {
    var notified := Notified(PaneRequest(OperationOf(command)));
    match s.exchange.sendError
    case None => [notified]
    case Some(error) => [notified] + ErrorTells(workspace, OperationOf(command), error, a.tracked.Keys, a.cap)
  }

  // Input and resizes are written exactly if their ids parse and the transport is split;
  // nothing connects for them, and a failed write is an error.
  function InputTells(a: Actor, command: Command, s: Script): seq<Effect>
    requires command.SendInput? || command.ResizePane?
  {
    if !IdsParse(command.runtime, command) then ParseFailure(command, command.workspace)
    else if a.writer then WrittenInputTells(a, command, command.workspace, s)
    else []
  }

  lemma NotifyingAdds(a: Actor, kind: RequestKind)
    ensures Adds(a, a.Log(Notified(kind)), [], [], [Notified(kind)])
  {
    AddsNotices(a, a.Log(Notified(kind)), [Notified(kind)]);
  }

  lemma FailedInputTells(a: Actor, workspace: WorkspaceId, operation: Operation, error: DaemonError)
    requires a.attempt == 0
    ensures var notified := Notified(PaneRequest(operation));
            var b := CommandError(a.Log(notified), workspace, operation, error);
            && Adds(a, b, [], [], [notified] + ErrorTells(workspace, operation, error, a.tracked.Keys, a.cap))
            && b.tracked == a.tracked
  {
    var notified := Notified(PaneRequest(operation));
    var b := a.Log(notified);
    NotifyingAdds(a, PaneRequest(operation));
    ErrorAdds(b, workspace, operation, error);
    ErrorTracks(b, workspace, operation, error);
    AddsCompose(a, b, CommandError(b, workspace, operation, error), [], [], [notified], [], [],
                ErrorTells(workspace, operation, error, a.tracked.Keys, a.cap));
  }

  lemma SplitInput(a: Actor, command: Command, workspace: WorkspaceId, runtime: IdText, s: Script)
    requires a.writer && IdsParse(runtime, command)
    ensures HandleInput(a, command, workspace, runtime, s)
            == var b := a.Log(Notified(PaneRequest(OperationOf(command))));
               if s.exchange.sendError.None? then b
               else CommandError(b, workspace, OperationOf(command), s.exchange.sendError.value)
  {
  }

  lemma SplitInputTells(a: Actor, command: Command, workspace: WorkspaceId, runtime: IdText, s: Script)
    requires a.attempt == 0 && a.writer && IdsParse(runtime, command)
    ensures var b := HandleInput(a, command, workspace, runtime, s);
            && Adds(a, b, [], [], WrittenInputTells(a, command, workspace, s)) && b.tracked == a.tracked
            && (s.exchange.sendError.None? ==> b == a.(log := b.log))
  {
    SplitInput(a, command, workspace, runtime, s);
    if s.exchange.sendError.None? {
      NotifyingAdds(a, PaneRequest(OperationOf(command)));
    } else {
      FailedInputTells(a, workspace, OperationOf(command), s.exchange.sendError.value);
    }
  }

  lemma InputIsWrittenIffSplit(a: Actor, command: Command, s: Script)
    requires Inv(a) && (command.SendInput? || command.ResizePane?)
    ensures var b := Handle(a, command, s);
            && Adds(a, b, [], [], InputTells(a, command, s)) && b.tracked == a.tracked
            && (s.exchange.sendError.None? ==> b == a.(log := b.log))
  {
    var w, r := command.workspace, command.runtime;
    assert Handle(a, command, s) == HandleInput(a, command, w, r, s);
    if !IdsParse(r, command) {
      ParseFailureAdds(a, command, w);
    } else if a.writer {
      SplitInputTells(a, command, w, r, s);
    } else {
      AddsNotices(a, a, []);
    }
  }

  // A rename or a persistence flag connects first, and is written exactly if its ids parse
  // and the transport was split before.
  function NoticeTells(a: Actor, command: Command, s: Script): seq<Effect>
    requires command.RenameWorkspace? || command.SetPaneNoPersist?
  {
    if !IdsParse(command.runtime, command) then ParseFailure(command, command.workspace)
    else if a.writer then [Notified(PaneRequest(OperationOf(command)))]
    else DialTells(a, command.workspace, s.connect)
  }

  lemma UnsplitNoticeAdds(a: Actor, command: Command, workspace: WorkspaceId, runtime: IdText, s: Script)
    requires Inv(a) && !a.writer && IdsParse(runtime, command)
    ensures var b := HandleNotice(a, command, workspace, runtime, s);
            Adds(a, b, [], [], DialTells(a, workspace, s.connect)) && b.tracked == a.tracked
  {
    DiallingAdds(a, workspace, s);
    var b := EnsureConnected(a, workspace, s.connect).0;
    assert !b.writer;
  }

  lemma SplitNotice(a: Actor, command: Command, workspace: WorkspaceId, runtime: IdText, s: Script)
    requires a.writer && IdsParse(runtime, command)
    ensures HandleNotice(a, command, workspace, runtime, s) == a.Log(Notified(PaneRequest(OperationOf(command))))
  {
  }

  lemma NoticeIsWrittenIffSplit(a: Actor, command: Command, s: Script)
    requires Inv(a) && (command.RenameWorkspace? || command.SetPaneNoPersist?)
    ensures var b := Handle(a, command, s);
            Adds(a, b, [], [], NoticeTells(a, command, s)) && b.tracked == a.tracked
  {
    var w, r := command.workspace, command.runtime;
    assert Handle(a, command, s) == HandleNotice(a, command, w, r, s);
    if !IdsParse(r, command) {
      ParseFailureAdds(a, command, w);
    } else if a.writer {
      SplitNotice(a, command, w, r, s);
      NotifyingAdds(a, PaneRequest(OperationOf(command)));
    } else {
      UnsplitNoticeAdds(a, command, w, r, s);
    }
  }

  // ---------------------------------------------------------------- inventory and resync

  function ListTells(reply: Reply, tracked: set<WorkspaceId>, cap: nat): seq<Effect> {
    if reply.Waiting? then []
    else if reply.Answered? && reply.envelope.payload.WorkspaceList? then
      [Emit(InventoryLoaded(reply.envelope.payload.content))]
    else ErrorTells(INVENTORY_WORKSPACE, OpRefreshInventory, Refusal(ListRequest, reply), tracked, cap)
  }

  lemma ListAnswers(reply: Reply)
    ensures match ListOutcome(reply)
            case Elapsed => reply.Waiting?
            case Done(content) => reply.Answered? && reply.envelope.payload == WorkspaceList(content)
            case Failed(error) => && !reply.Waiting? && error == Refusal(ListRequest, reply)
                                  && !(reply.Answered? && reply.envelope.payload.WorkspaceList?)
  {
  }

  lemma ListAdds(a: Actor, reply: Reply)
    requires a.attempt == 0
    ensures var b := match ListOutcome(reply)
                     case Elapsed => a
                     case Failed(error) => CommandError(a, INVENTORY_WORKSPACE, OpRefreshInventory, error)
                     case Done(content) => a.Log(Emit(InventoryLoaded(content)));
            Adds(a, b, [], [], ListTells(reply, a.tracked.Keys, a.cap)) && b.tracked == a.tracked
  {
    ListAnswers(reply);
    match ListOutcome(reply)
    case Elapsed => AddsNotices(a, a, []);
    case Failed(error) =>
      ErrorAdds(a, INVENTORY_WORKSPACE, OpRefreshInventory, error);
      ErrorTracks(a, INVENTORY_WORKSPACE, OpRefreshInventory, error);
    case Done(content) => AddsNotices(a, a.Log(Emit(InventoryLoaded(content))), [Emit(InventoryLoaded(content))]);
  }

  // An inventory asks once, on either transport, and what it loads is the daemon's own answer.
  ghost predicate Refreshes(a: Actor, b: Actor, s: Script) {
    var id := RequestId(Dialled(a));
    var reply := ReplyTo(id, s.exchange);
    var heard := HeardFor(a.writer, id, false, s.exchange);
    var survivors := Survivors(a.tracked, heard);
    && Adds(a, b, [Requested(id, ListRequest, None)], heard,
            DialTells(a, INVENTORY_WORKSPACE, s.connect) + ListTells(reply, survivors.Keys, a.cap))
    && b.tracked == survivors
  }

  lemma ConnectedRefresh(a: Actor, s: Script)
    requires Inv(a) && a.Up()
    ensures Refreshes(a, HandleRefresh(a, s), s)
  {
    var id := RequestId(a);
    var (b, reply) := ActiveRequest(a, ListRequest, None, s.exchange);
    ActiveRequestTalks(a, ListRequest, None, s.exchange);
    ListAdds(b, reply);
    var heard := HeardFor(a.writer, id, false, s.exchange);
    AddsCompose(a, b, HandleRefresh(a, s), [Requested(id, ListRequest, None)], heard, [], [], [],
                ListTells(reply, b.tracked.Keys, a.cap));
    assert heard + [] == heard;
  }

  lemma RefreshLoadsTheAnswer(a: Actor, s: Script)
    requires Inv(a)
    ensures var b := Handle(a, RefreshInventory, s);
            if Reaches(a, s) then Refreshes(a, b, s)
            else && Adds(a, b, [], [], UnreachedTells(a, INVENTORY_WORKSPACE, OpRefreshInventory, s))
                 && b.tracked == a.tracked
  {
    if !Reaches(a, s) {
      UnreachedAdds(a, INVENTORY_WORKSPACE, OpRefreshInventory, s);
    } else if a.Up() {
      ConnectedRefresh(a, s);
    } else {
      var b := EnsureConnected(a, INVENTORY_WORKSPACE, s.connect).0;
      DiallingAdds(a, INVENTORY_WORKSPACE, s);
      EnsureConnectedKeeps(a, INVENTORY_WORKSPACE, s.connect);
      ConnectedRefresh(b, s);
      RefreshAfterDialling(a, b, HandleRefresh(a, s), s);
    }
  }

  lemma RefreshAfterDialling(a: Actor, b: Actor, c: Actor, s: Script)
    requires !a.Up() && b == Dialled(a).(log := b.log) && Refreshes(b, c, s)
    requires Adds(a, b, [], [], DialTells(a, INVENTORY_WORKSPACE, s.connect))
    ensures Refreshes(a, c, s)
  {
    var id := RequestId(b);
    var heard := HeardFor(b.writer, id, false, s.exchange);
    var told := ListTells(ReplyTo(id, s.exchange), Survivors(a.tracked, heard).Keys, a.cap);
    assert [] + told == told;
    AddsCompose(a, b, c, [], [], DialTells(a, INVENTORY_WORKSPACE, s.connect), [Requested(id, ListRequest, None)],
                heard, told);
  }

  // A resync is asked for only on a split transport, reports the snapshot that answers it,
  // and says nothing of a failure.
  ghost predicate Resyncs(a: Actor, b: Actor, workspace: WorkspaceId, runtime: IdText, s: Script) {
    var reply := ReplyTo(a.nextId, s.exchange);
    var heard := HeardFor(true, a.nextId, false, s.exchange);
    && Adds(a, b, [Requested(a.nextId, ResyncRequest, runtime.Parse())], heard,
            if reply.Answered? && reply.envelope.payload.SnapshotReply?
            then [Emit(WorkspaceResynced(workspace, runtime, reply.envelope.payload.snapshot))] else [])
    && SameTransport(a, b) && b.tracked == Survivors(a.tracked, heard)
  }

  lemma ResyncReportsTheAnswer(a: Actor, command: Command, s: Script)
    requires Inv(a) && command.ResyncWorkspace?
    ensures var b := Handle(a, command, s);
            if a.writer && command.runtime.Parse().Some? then Resyncs(a, b, command.workspace, command.runtime, s)
            else b == a.(nextId := b.nextId)
  {
    var w, r := command.workspace, command.runtime;
    if a.writer && r.Parse().Some? {
      var (b, reply) := SendAndRead(a, ResyncRequest, r.Parse(), false, s.exchange);
      SplitRequestTalks(a, ResyncRequest, r.Parse(), false, s.exchange);
      if reply.Answered? && reply.envelope.payload.SnapshotReply? {
        var told := [Emit(WorkspaceResynced(w, r, reply.envelope.payload.snapshot))];
        AddsNotices(b, b.(log := b.log + told), told);
        var heard := HeardFor(true, a.nextId, false, s.exchange);
        AddsCompose(a, b, b.(log := b.log + told), [Requested(a.nextId, ResyncRequest, r.Parse())], heard, [], [], [],
                    told);
        assert heard + [] == heard;
      }
    }
  }
}
