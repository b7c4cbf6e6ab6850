// Who is told when the transport of an endpoint actor is lost, step by step.
module EndpointLoss {
  import opened Wrappers
  import opened EndpointTypes
  import opened EndpointSpec
  import opened EndpointInvariant
  import opened EndpointReach
  import Ids = RequestIds

  predicate TellsLost(e: Effect, w: WorkspaceId) {
    (e.EmitEach? && w in e.workspaces && Lost in e.statuses) || e == Emit(StatusChanged(w, Lost))
  }

  ghost predicate ToldLost(a: Actor, b: Actor, w: WorkspaceId) {
    exists i :: |a.log| <= i < |b.log| && TellsLost(b.log[i], w)
  }

  // Up still, or everyone still tracked has been told and no ping is pending.
  ghost predicate UpOrTold(a: Actor, b: Actor) {
    && a.log <= b.log
    && (b.Up() || (b.heartbeat.pending.None? && forall w | w in b.tracked :: ToldLost(a, b, w)))
  }

  lemma ToldLater(a: Actor, b: Actor, c: Actor)
    requires a.log <= b.log && UpOrTold(b, c)
    ensures UpOrTold(a, c)
  {
    forall w | w in c.tracked && ToldLost(b, c, w)
      ensures ToldLost(a, c, w)
    {
      var i :| |b.log| <= i < |c.log| && TellsLost(c.log[i], w);
      assert |a.log| <= i;
    }
  }

  lemma ShrunkIsUp(a: Actor, b: Actor)
    requires OnlyShrank(a, b) && a.Up()
    ensures UpOrTold(a, b) && b.Up()
  {
  }

  // ---------------------------------------------------------------- losses that tell everyone

  lemma DisconnectTells(a: Actor)
    ensures UpOrTold(a, HandleDisconnect(a))
  {
    var b := HandleDisconnect(a);
    forall w | w in b.tracked
      ensures ToldLost(a, b, w)
    {
      assert b.log[|a.log|].statuses[0] == Lost;
      assert TellsLost(b.log[|a.log|], w);
    }
  }

  lemma CommandErrorTells(a: Actor, workspace: WorkspaceId, operation: Operation, error: DaemonError)
    requires a.Up()
    ensures UpOrTold(a, CommandError(a, workspace, operation, error))
  {
    var b := EmitError(a, workspace, operation, Classify(error));
    assert UpOrTold(a, b);
    DisconnectTells(b);
    ToldLater(a, b, HandleDisconnect(b));
  }

  lemma ErrorAfterShrinkingTells(a: Actor, b: Actor, workspace: WorkspaceId, operation: Operation, error: DaemonError)
    requires a.Up() && OnlyShrank(a, b)
    ensures UpOrTold(a, CommandError(b, workspace, operation, error))
  {
    CommandErrorTells(b, workspace, operation, error);
    ToldLater(a, b, CommandError(b, workspace, operation, error));
  }

  // ---------------------------------------------------------------- opening a workspace

  // A refusal has told everyone if it has lost the transport; anything else only shrank.
  ghost predicate ResolvesTold(a: Actor, r: (Actor, Resolution)) {
    if r.1.Refused? then UpOrTold(a, r.0) else OnlyShrank(a, r.0)
  }

  lemma ResolvesToldLater(a: Actor, b: Actor, r: (Actor, Resolution))
    requires OnlyShrank(a, b) && ResolvesTold(b, r)
    ensures ResolvesTold(a, r)
  {
    if r.1.Refused? {
      ToldLater(a, b, r.0);
    } else {
      ShrinkingComposes(a, b, r.0);
    }
  }

  lemma AttachNewTells(a: Actor, workspace: WorkspaceId, uuid: Uuid, s: Script)
    requires a.Up()
    ensures var (b, attached) := ActiveRequest(a, AttachRequest, Some(uuid), s.attachNew);
            match AttachOutcome(attached)
            case Elapsed => ResolvesTold(a, (b, TimedOut))
            case Failed(error) => ResolvesTold(a, (CommandError(b, workspace, OpOpenWorkspace, error), Refused))
            case Done(snapshot) => ResolvesTold(a, (b, Resolved(Canonical(uuid), snapshot)))
  {
    var (b, attached) := ActiveRequest(a, AttachRequest, Some(uuid), s.attachNew);
    ActiveRequestShrinks(a, AttachRequest, Some(uuid), s.attachNew);
    match AttachOutcome(attached)
    case Failed(error) => ErrorAfterShrinkingTells(a, b, workspace, OpOpenWorkspace, error);
    case _ =>
  }

  lemma CreateAndAttachTells(a: Actor, workspace: WorkspaceId, s: Script)
    requires a.Up()
    ensures ResolvesTold(a, CreateAndAttach(a, workspace, s))
  {
    var (b, created) := ActiveRequest(a, CreateRequest, None, s.create);
    ActiveRequestShrinks(a, CreateRequest, None, s.create);
    match CreateOutcome(created)
    case Elapsed =>
    case Failed(error) => ErrorAfterShrinkingTells(a, b, workspace, OpOpenWorkspace, error);
    case Done(uuid) =>
      AttachNewTells(b, workspace, uuid, s);
      ResolvesToldLater(a, b, CreateAndAttach(a, workspace, s));
  }

  lemma AttachExistingTells(a: Actor, workspace: WorkspaceId, runtime: IdText, uuid: Uuid, s: Script)
    requires a.Up()
    ensures ResolvesTold(a, AttachExisting(a, workspace, runtime, uuid, s))
  {
    var (b, attached) := ActiveRequest(a, AttachRequest, Some(uuid), s.attach);
    ActiveRequestShrinks(a, AttachRequest, Some(uuid), s.attach);
    match AttachOutcome(attached)
    case Failed(error) =>
      ErrorAfterShrinkingTells(a, b, workspace, OpOpenWorkspace, error);
      CreateAndAttachTells(b, workspace, s);
      ResolvesToldLater(a, b, CreateAndAttach(b, workspace, s));
      assert UpOrTold(a, b.Tell(workspace, SessionMissing));
    case _ =>
  }

  lemma ResolveAndAttachTells(a: Actor, workspace: WorkspaceId, existing: Option<IdText>, takeOver: bool, s: Script)
    requires a.Up()
    ensures ResolvesTold(a, ResolveAndAttach(a, workspace, existing, takeOver, s))
  {
    if existing.None? || existing.value.Parse().None? {
      CreateAndAttachTells(a, workspace, s);
    } else if !takeOver {
      AttachExistingTells(a, workspace, existing.value, existing.value.Parse().value, s);
    } else {
      var uuid := existing.value.Parse().value;
      var (b, seized) := ActiveRequest(a, TakeoverRequest, Some(uuid), s.takeover);
      ActiveRequestShrinks(a, TakeoverRequest, Some(uuid), s.takeover);
      match TakeoverOutcome(seized)
      case Elapsed =>
      case Failed(error) => ErrorAfterShrinkingTells(a, b, workspace, OpOpenWorkspace, error);
      case Done(_) =>
        var c := b.Log(Emit(WorkspaceTakenOver(workspace, existing.value)));
        assert OnlyShrank(b, c);
        ShrinkingComposes(a, b, c);
        AttachExistingTells(c, workspace, existing.value, uuid, s);
        ResolvesToldLater(a, c, AttachExisting(c, workspace, existing.value, uuid, s));
    }
  }

  // The state in which an open on an established transport ends its requests.
  ghost function Opening(a: Actor, step: Step): (Actor, Resolution)
    requires step.Do? && step.command.OpenWorkspace?
  {
    var command := step.command;
    ResolveAndAttach(a.Tell(command.workspace, Connecting), command.workspace, command.existing, command.takeOver,
                     step.script)
  }

  // The handshake of an open on an established transport does not finish in time.
  ghost predicate OpenTimesOut(a: Actor, step: Step) {
    step.Do? && step.command.OpenWorkspace? && a.Up() && Opening(a, step).1.TimedOut?
  }

  lemma TimelyOpenTells(a: Actor, step: Step)
    requires step.Do? && step.command.OpenWorkspace? && a.Up() && !OpenTimesOut(a, step)
    ensures UpOrTold(a, Handle(a, step.command, step.script))
  {
    var command := step.command;
    var told := a.Tell(command.workspace, Connecting);
    var (b, resolution) := Opening(a, step);
    ResolveAndAttachTells(told, command.workspace, command.existing, command.takeOver, step.script);
    var c := ConcludeOpen(b, command.workspace, command.placeholder, resolution);
    assert Handle(a, command, step.script) == c;
    assert UpOrTold(told, c);
    ToldLater(a, told, c);
  }

  // A handshake that times out tells the opener, and nobody else.
  lemma TimeoutTellsTheOpener(a: Actor, step: Step, w: WorkspaceId)
    requires Inv(a) && OpenTimesOut(a, step)
    ensures ToldLost(a, Handle(a, step.command, step.script), w) <==> w == step.command.workspace
  {
    var opener := step.command.workspace;
    var told := a.Tell(opener, Connecting);
    var b := Opening(a, step).0;
    ResolveAndAttachTells(told, opener, step.command.existing, step.command.takeOver, step.script);
    assert Inv(told);
    ShrinkingKeeps(told, b);
    HandshakeTimeoutTellsOnlyTheOpener(b, opener);
    var c := HandshakeTimeout(b, opener);
    assert Handle(a, step.command, step.script) == c;
    assert c.log[|b.log|] == Emit(StatusChanged(opener, Lost));
    assert TellsLost(c.log[|b.log|], opener);
    NothingLostBefore(a, Emit(StatusChanged(opener, Connecting)), told, b, c, w);
  }

  lemma NothingLostBefore(a: Actor, e: Effect, told: Actor, b: Actor, c: Actor, w: WorkspaceId)
    requires told.log == a.log + [e] && e.Emit? && !IsLoss(e)
    requires OnlyShrank(told, b) && b.log <= c.log
    ensures forall i | |a.log| <= i < |c.log| && TellsLost(c.log[i], w) :: |b.log| <= i
  {
    forall i | |a.log| <= i < |b.log|
      ensures !TellsLost(c.log[i], w)
    {
      assert c.log[i] == b.log[i];
    }
  }

  // ---------------------------------------------------------------- every other step

  lemma AwaitedTells(a: Actor, command: Command, workspace: WorkspaceId, runtime: Option<Uuid>, expectTerminated: bool,
                     x: Exchange)
    requires a.Up()
    ensures var (b, reply) := SendAndRead(a, PaneRequest(OperationOf(command)), runtime, expectTerminated, x);
            UpOrTold(a, FinishPaneCommand(b, command, workspace, reply))
  {
    var (b, reply) := SendAndRead(a, PaneRequest(OperationOf(command)), runtime, expectTerminated, x);
    SendAndReadShrinks(a, PaneRequest(OperationOf(command)), runtime, expectTerminated, x);
    match reply
    case Waiting =>
    case Broken(error) => ErrorAfterShrinkingTells(a, b, workspace, OperationOf(command), error);
    case Answered(envelope) =>
      match Accepted(command, envelope.payload)
      case None => ErrorAfterShrinkingTells(a, b, workspace, OperationOf(command), ReplyError(envelope.payload));
      case Some(events) =>
        var c := if EndsTracking(command) then b.(tracked := b.tracked - {workspace}) else b;
        EmitAllIsUp(c, events);
  }

  lemma {:induction false} EmitAllIsUp(a: Actor, events: seq<Event>)
    requires a.Up()
    ensures EmitAll(a, events).Up() && a.log <= EmitAll(a, events).log
    decreases |events|
  {
    if events != [] {
      EmitAllIsUp(a.Log(Emit(events[0])), events[1..]);
    }
  }

  lemma AwaitingCommandTells(a: Actor, command: Command, s: Script)
    requires a.Up() && IsAwaiting(command)
    ensures UpOrTold(a, Handle(a, command, s))
  {
    AwaitedTells(a, command, command.workspace, command.runtime.Parse(), EndsTracking(command), s.exchange);
  }

  lemma InputTells(a: Actor, command: Command, s: Script)
    requires a.Up() && (command.SendInput? || command.ResizePane?)
    ensures UpOrTold(a, Handle(a, command, s))
  {
    var b := a.Log(Notified(PaneRequest(OperationOf(command))));
    if s.exchange.sendError.Some? {
      CommandErrorTells(b, command.workspace, OperationOf(command), s.exchange.sendError.value);
      ToldLater(a, b, CommandError(b, command.workspace, OperationOf(command), s.exchange.sendError.value));
    }
  }

  lemma RefreshTells(a: Actor, s: Script)
    requires a.Up()
    ensures UpOrTold(a, HandleRefresh(a, s))
  {
    SendAndReadShrinks(a, ListRequest, None, false, s.exchange);
    UnsplitRequestShrinks(a, ListRequest, None, s.exchange);
    var (b, reply) := if a.writer then SendAndRead(a, ListRequest, None, false, s.exchange)
                      else UnsplitRequest(a, ListRequest, None, s.exchange);
    match ListOutcome(reply)
    case Failed(error) => ErrorAfterShrinkingTells(a, b, INVENTORY_WORKSPACE, OpRefreshInventory, error);
    case _ =>
  }

  lemma ResyncTells(a: Actor, workspace: WorkspaceId, runtime: IdText, s: Script)
    requires a.Up()
    ensures UpOrTold(a, HandleResync(a, workspace, runtime, s))
  {
    SendAndReadShrinks(a, ResyncRequest, runtime.Parse(), false, s.exchange);
  }

  lemma CommandTells(a: Actor, command: Command, s: Script)
    requires a.Up() && !command.OpenWorkspace? && !command.Reconnect?
    ensures UpOrTold(a, Handle(a, command, s))
  {
    if IsAwaiting(command) {
      AwaitingCommandTells(a, command, s);
    } else {
      match command
      case SendInput(_, _, _) => InputTells(a, command, s);
      case ResizePane(_, _, _) => InputTells(a, command, s);
      case RefreshInventory => RefreshTells(a, s);
      case ResyncWorkspace(w, r) => ResyncTells(a, w, r, s);
      case _ =>
    }
  }

  lemma TickTells(a: Actor, sendError: Option<DaemonError>)
    requires a.heartbeat.InRange() && a.Up()
    ensures UpOrTold(a, HandleTick(a, sendError))
  {
    var b := a.(heartbeat := a.heartbeat.Ticked());
    DisconnectTells(b);
    ToldLater(a, b, HandleDisconnect(b));
    if a.heartbeat.TickAction().SendPing? {
      var id := Ids.Drawn(b.wireIds);
      var c := b.(wireIds := Ids.Bumped(id)).Log(Pinged(id, a.heartbeat.TickAction().nonce));
      DisconnectTells(c);
      ToldLater(a, c, HandleDisconnect(c));
    }
  }

  lemma OtherStepTells(a: Actor, step: Step)
    requires Inv(a) && Enabled(a, step) && a.Up() && !OpenTimesOut(a, step)
    ensures UpOrTold(a, Next(a, step))
  {
    match step
    case Do(command, s) =>
      if command.OpenWorkspace? {
        TimelyOpenTells(a, step);
      } else {
        CommandTells(a, command, s);
      }
    case Message(envelope, found) =>
    case Closed => DisconnectTells(a);
    case Tick(sendError) => TickTells(a, sendError);
  }

  // Whatever step loses the transport, every workspace still tracked is told, unless it is
  // an open whose handshake times out: then exactly if nobody but the opener is tracked.
  lemma LossIsToldIff(a: Actor, step: Step)
    requires Inv(a) && Enabled(a, step) && a.Up() && !Next(a, step).Up()
    ensures (forall w | w in Next(a, step).tracked :: ToldLost(a, Next(a, step), w))
            <==> (OpenTimesOut(a, step) ==> Next(a, step).tracked.Keys <= {step.command.workspace})
  {
    var b := Next(a, step);
    if OpenTimesOut(a, step) {
      forall w | w in b.tracked
        ensures ToldLost(a, b, w) <==> w == step.command.workspace
      {
        TimeoutTellsTheOpener(a, step, w);
      }
    } else {
      OtherStepTells(a, step);
    }
  }

  // Every loss but that one clears the heartbeat, too.
  lemma LossClearsPing(a: Actor, step: Step)
    requires Inv(a) && Enabled(a, step) && a.Up() && !Next(a, step).Up() && !OpenTimesOut(a, step)
    ensures Next(a, step).heartbeat.pending.None?
  {
    OtherStepTells(a, step);
  }
}
