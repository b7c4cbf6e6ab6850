// The endpoint actor: one per daemon, owner of the transport to it.
module EndpointActorModel {
  import opened MachineInts
  import opened Wrappers
  import opened EndpointTypes
  import S = EndpointSpec
  import I = EndpointInvariant
  import T = EndpointStream
  import H = Heartbeat
  import Ids = RequestIds

  class EndpointActor {
    const local: bool
    const reconnectDelaySecs: nat
    const heartbeat: H.HeartbeatMonitor

    // The three shapes of the transport: none present, a connection, or a reader and a
    // writer. `wireIds` is the id generator that travels with it.
    var connection: bool
    var reader: bool
    var writer: bool
    var wireIds: nat

    var trackedWorkspaces: map<WorkspaceId, IdText>
    var reconnectAttempt: nat
    var nextRequestId: nat

    // Reconnects under way, as a timer or in the queue, and everything done to the outside.
    ghost var outstanding: nat
    ghost var log: seq<Effect>

    ghost function State(): S.Actor
      reads this, heartbeat
    {
      S.Actor(local, reconnectDelaySecs, connection, reader, writer, trackedWorkspaces, reconnectAttempt,
              heartbeat.State(), nextRequestId, wireIds, outstanding, log)
    }

    ghost predicate Valid()
      reads this, heartbeat
    {
      I.Inv(State())
    }

    constructor (local: bool, reconnectDelaySecs: nat)
      requires reconnectDelaySecs <= U32_MAX
      ensures Valid() && State() == S.Fresh(local, reconnectDelaySecs) && fresh(heartbeat)
    {
      this.local, this.reconnectDelaySecs := local, reconnectDelaySecs;
      heartbeat := new H.HeartbeatMonitor();
      connection, reader, writer, wireIds := false, false, false, 1;
      trackedWorkspaces, reconnectAttempt, nextRequestId := map[], 0, 1;
      outstanding, log := 0, [];
    }

    // ---------------------------------------------------------------- telling the window

    ghost method Log(e: Effect)
      modifies this`log
      ensures log == old(log) + [e]
    {
      log := log + [e];
    }

    ghost method EmitStatus(workspace: WorkspaceId, status: Status)
      modifies this`log
      ensures log == old(log) + [Emit(StatusChanged(workspace, status))]
    {
      Log(Emit(StatusChanged(workspace, status)));
    }

    ghost method EmitError(workspace: WorkspaceId, operation: Operation, problem: Problem)
      modifies this`log
      ensures State() == S.EmitError(old(State()), workspace, operation, problem)
    {
      Log(Emit(WorkspaceError(workspace, operation, problem)));
      EmitStatus(workspace, Blocked(problem));
    }

    // ---------------------------------------------------------------- losing and regaining the transport

    method NextReconnectAttempt() returns (attempt: nat)
      ensures attempt == State().NextAttempt()
    {
      attempt := S.SaturatingAdd(reconnectAttempt, 1);
    }

    method NextReconnectDelaySecs() returns (delay: nat)
      ensures delay == State().NextDelay()
    {
      var attempt := NextReconnectAttempt();
      delay := if attempt < reconnectDelaySecs then attempt else reconnectDelaySecs;
    }

    method ScheduleReconnect(delay: nat)
      modifies this
      ensures State() == S.ScheduleReconnect(old(State()), delay)
    {
      reconnectAttempt := S.SaturatingAdd(reconnectAttempt, 1);
      var limit := S.SaturatingAdd(reconnectDelaySecs, 2);
      if reconnectAttempt > limit {
        Log(EmitEach(trackedWorkspaces.Keys, [Blocked(DaemonDied)]));
        return;
      }
      outstanding := outstanding + 1;
      Log(Scheduled(delay));
    }

    // A permanent problem is retried too, after the longest delay.
    method ScheduleReconnectForProblem(problem: Problem)
      modifies this
      ensures var delay := if problem.IsTransient() then old(State()).NextDelay() else reconnectDelaySecs;
              State() == S.ScheduleReconnect(old(State()), delay)
    {
      var delay := NextReconnectDelaySecs();
      ScheduleReconnect(if problem.IsTransient() then delay else reconnectDelaySecs);
    }

    method HandleDisconnect()
      modifies this, heartbeat
      ensures State() == S.HandleDisconnect(old(State()))
    {
      connection, reader, writer := false, false, false;
      heartbeat.Reset();
      if trackedWorkspaces == map[] {
        return;
      }
      var attempt := NextReconnectAttempt();
      var delay := NextReconnectDelaySecs();
      Log(EmitEach(trackedWorkspaces.Keys, [Lost, Reconnecting(attempt, delay)]));
      ScheduleReconnect(delay);
    }

    method HandleCommandError(workspace: WorkspaceId, operation: Operation, error: DaemonError)
      modifies this, heartbeat
      ensures State() == S.CommandError(old(State()), workspace, operation, error)
    {
      var problem := Classify(error);
      if problem.SessionIsMissing? {
        EmitStatus(workspace, SessionMissing);
        return;
      }
      EmitError(workspace, operation, problem);
      if problem.IsTransient() {
        HandleDisconnect();
      }
    }

    // `connect` is the outcome of the attempt, if one is made.
    method EnsureConnected(workspace: WorkspaceId, connect: Option<DaemonError>) returns (problem: Option<Problem>)
      modifies this
      ensures (State(), problem) == S.EnsureConnected(old(State()), workspace, connect)
      ensures heartbeat.State() == old(heartbeat.State())
    {
      if writer || connection {
        return None;
      }
      if reconnectAttempt > 0 {
        return Some(DaemonUnavailable);
      }
      EmitStatus(workspace, if local then Starting else Connecting);
      Log(ConnectTried);
      match connect
      case None =>
        connection, wireIds := true, 1;
        EmitStatus(workspace, Connected);
        return None;
      case Some(error) =>
        var p := Classify(error);
        if p.IsTransient() {
          var attempt := NextReconnectAttempt();
          var delay := NextReconnectDelaySecs();
          EmitStatus(workspace, Lost);
          EmitStatus(workspace, Reconnecting(attempt, delay));
          ScheduleReconnect(delay);
        } else {
          EmitStatus(workspace, Blocked(p));
        }
        return Some(p);
    }

    method SplitConnection()
      modifies this, heartbeat
      ensures State() == S.SplitConnection(old(State()))
    {
      if connection {
        connection, reader, writer := false, true, true;
        heartbeat.Reset();
      }
    }

    // ---------------------------------------------------------------- requests and responses

    method NextId() returns (id: nat)
      modifies this`nextRequestId
      ensures id == old(nextRequestId) && nextRequestId == Ids.ActorSuccessor(id)
    {
      id := nextRequestId;
      nextRequestId := (nextRequestId + 1) % Ids.MODULUS;
      if nextRequestId == 0 {
        nextRequestId := 1;
      }
    }

    method DispatchPush(envelope: Envelope)
      modifies this
      ensures State() == S.DispatchPush(old(State()), envelope)
    {
      if envelope.payload.Terminated? && envelope.payload.runtime.Some? {
        var ended := Canonical(envelope.payload.runtime.value);
        trackedWorkspaces := map w | w in trackedWorkspaces && trackedWorkspaces[w] != ended :: trackedWorkspaces[w];
      }
      Log(Emit(WorkspaceMessage(envelope)));
    }

    method ReadResponse(id: nat, expectTerminated: bool, inbound: seq<Envelope>, ending: Ending)
      returns (reply: S.Reply)
      modifies this, heartbeat
      ensures (State(), reply) == S.ReadResponse(old(State()), id, expectTerminated, inbound, ending)
    {
      var k := 0;
      while k < |inbound|
        invariant k <= |inbound|
        invariant S.ReadResponse(old(State()), id, expectTerminated, inbound, ending)
               == S.ReadResponse(State(), id, expectTerminated, inbound[k..], ending)
      {
        var envelope := inbound[k];
        assert inbound[k..][0] == envelope && inbound[k..][1..] == inbound[k + 1..];
        if envelope.requestId == id {
          return S.Answered(envelope);
        }
        if envelope.payload.Pong? {
          heartbeat.ObservePong(envelope.payload.nonce);
        } else if !(envelope.payload.Terminated? && expectTerminated) {
          DispatchPush(envelope);
        }
        k := k + 1;
      }
      reply := S.AfterInbound(ending);
    }

    method SendAndRead(kind: RequestKind, runtime: Option<Uuid>, expectTerminated: bool, x: Exchange)
      returns (reply: S.Reply)
      modifies this, heartbeat
      ensures (State(), reply) == S.SendAndRead(old(State()), kind, runtime, expectTerminated, x)
    {
      var id := NextId();
      if !writer {
        return S.Broken(Disconnected);
      }
      Log(Requested(id, kind, runtime));
      if x.sendError.Some? {
        return S.Broken(x.sendError.value);
      }
      if !reader {
        return S.Broken(Disconnected);
      }
      reply := ReadResponse(id, expectTerminated, x.inbound, x.ending);
    }

    // On a connection not yet split, everything but the awaited response is skipped.
    method UnsplitRequest(kind: RequestKind, runtime: Option<Uuid>, x: Exchange) returns (reply: S.Reply)
      modifies this
      ensures (State(), reply) == S.UnsplitRequest(old(State()), kind, runtime, x)
      ensures reply == T.ReplyTo(Ids.Drawn(old(wireIds)), x)
      ensures heartbeat.State() == old(heartbeat.State())
    {
      T.UnsplitRequestSkipsTheRest(State(), kind, runtime, x);
      var id := Ids.Drawn(wireIds);
      wireIds := Ids.Bumped(id);
      Log(Requested(id, kind, runtime));
      if x.sendError.Some? {
        return S.Broken(x.sendError.value);
      }
      var k := 0;
      while k < |x.inbound|
        invariant k <= |x.inbound|
        invariant S.FirstWithId(x.inbound, id, x.ending) == S.FirstWithId(x.inbound[k..], id, x.ending)
      {
        if x.inbound[k].requestId == id {
          return S.Answered(x.inbound[k]);
        }
        assert x.inbound[k..][1..] == x.inbound[k + 1..];
        k := k + 1;
      }
      reply := S.AfterInbound(x.ending);
    }

    method ActiveRequest(kind: RequestKind, runtime: Option<Uuid>, x: Exchange) returns (reply: S.Reply)
      modifies this, heartbeat
      ensures (State(), reply) == S.ActiveRequest(old(State()), kind, runtime, x)
    {
      if connection {
        reply := UnsplitRequest(kind, runtime, x);
      } else {
        reply := SendAndRead(kind, runtime, false, x);
      }
    }

    // ---------------------------------------------------------------- opening a workspace

    method CreateAndAttach(workspace: WorkspaceId, s: Script) returns (resolution: S.Resolution)
      modifies this, heartbeat
      ensures (State(), resolution) == S.CreateAndAttach(old(State()), workspace, s)
    {
      var created := ActiveRequest(CreateRequest, None, s.create);
      match S.CreateOutcome(created)
      case Elapsed => return S.TimedOut;
      case Failed(error) =>
        HandleCommandError(workspace, OpOpenWorkspace, error);
        return S.Refused;
      case Done(uuid) =>
        var attached := ActiveRequest(AttachRequest, Some(uuid), s.attachNew);
        match S.AttachOutcome(attached) {
          case Elapsed => return S.TimedOut;
          case Failed(error) =>
            HandleCommandError(workspace, OpOpenWorkspace, error);
            return S.Refused;
          case Done(snapshot) => return S.Resolved(Canonical(uuid), snapshot);
        }
    }

    method AttachExisting(workspace: WorkspaceId, runtime: IdText, uuid: Uuid, s: Script)
      returns (resolution: S.Resolution)
      modifies this, heartbeat
      ensures (State(), resolution) == S.AttachExisting(old(State()), workspace, runtime, uuid, s)
    {
      var attached := ActiveRequest(AttachRequest, Some(uuid), s.attach);
      match S.AttachOutcome(attached)
      case Elapsed => return S.TimedOut;
      case Done(snapshot) => return S.Resolved(runtime, snapshot);
      case Failed(error) =>
        if error.AttachIsBlocked? || error.Io? || error.Disconnected? {
          HandleCommandError(workspace, OpOpenWorkspace, error);
          return S.Refused;
        }
        if Classify(error).SessionIsMissing? {
          EmitStatus(workspace, SessionMissing);
          return S.Refused;
        }
        resolution := CreateAndAttach(workspace, s);
    }

    method ResolveAndAttach(workspace: WorkspaceId, existing: Option<IdText>, takeOver: bool, s: Script)
      returns (resolution: S.Resolution)
      modifies this, heartbeat
      ensures (State(), resolution) == S.ResolveAndAttach(old(State()), workspace, existing, takeOver, s)
    {
      if existing.Some? && existing.value.Parse().Some? {
        var uuid := existing.value.Parse().value;
        if takeOver {
          var seized := ActiveRequest(TakeoverRequest, Some(uuid), s.takeover);
          match S.TakeoverOutcome(seized) {
            case Elapsed => return S.TimedOut;
            case Failed(error) =>
              HandleCommandError(workspace, OpOpenWorkspace, error);
              return S.Refused;
            case Done(_) => Log(Emit(WorkspaceTakenOver(workspace, existing.value)));
          }
        }
        resolution := AttachExisting(workspace, existing.value, uuid, s);
      } else {
        resolution := CreateAndAttach(workspace, s);
      }
    }

    method OpenWorkspace(workspace: WorkspaceId, existing: Option<IdText>, placeholder: Option<string>, takeOver: bool,
                         s: Script)
      modifies this, heartbeat
      ensures State() == S.HandleOpen(old(State()), workspace, existing, placeholder, takeOver, s)
    {
      EmitStatus(workspace, Connecting);
      var problem := EnsureConnected(workspace, s.connect);
      if problem.Some? {
        if !problem.value.IsTransient() {
          EmitError(workspace, OpOpenWorkspace, problem.value);
        }
        return;
      }
      var resolution := ResolveAndAttach(workspace, existing, takeOver, s);
      ConcludeOpen(workspace, placeholder, resolution);
    }

    method ConcludeOpen(workspace: WorkspaceId, placeholder: Option<string>, resolution: S.Resolution)
      modifies this, heartbeat
      ensures State() == S.ConcludeOpen(old(State()), workspace, placeholder, resolution)
    {
      match resolution
      case TimedOut => HandshakeTimeout(workspace);
      case Refused =>
      case Resolved(runtime, snapshot) => FinishOpen(workspace, placeholder, runtime, snapshot);
    }

    method HandshakeTimeout(workspace: WorkspaceId)
      modifies this
      ensures State() == S.HandshakeTimeout(old(State()), workspace)
    {
      connection, reader, writer := false, false, false;
      EmitStatus(workspace, Lost);
      var attempt := NextReconnectAttempt();
      var delay := NextReconnectDelaySecs();
      EmitStatus(workspace, Reconnecting(attempt, delay));
      ScheduleReconnect(delay);
      EmitError(workspace, OpOpenWorkspace, DaemonUnavailable);
    }

    method FinishOpen(workspace: WorkspaceId, placeholder: Option<string>, runtime: IdText, snapshot: Snapshot)
      modifies this, heartbeat
      ensures State() == S.FinishOpen(old(State()), workspace, placeholder, runtime, snapshot)
    {
      SplitConnection();
      trackedWorkspaces := trackedWorkspaces[workspace := runtime];
      Log(Emit(WorkspaceOpened(workspace, runtime, snapshot)));
      if snapshot.panes == 0 && placeholder.Some? {
        Log(SelfSent(CreatePane(workspace, runtime, placeholder.value)));
      } else {
        EmitStatus(workspace, Connected);
      }
    }

    // ---------------------------------------------------------------- commands that await one response

    ghost method EmitEvents(events: seq<Event>)
      modifies this`log
      ensures State() == S.EmitAll(old(State()), events)
      decreases |events|
    {
      if events != [] {
        Log(Emit(events[0]));
        EmitEvents(events[1..]);
      }
    }

    method FinishPaneCommand(command: Command, workspace: WorkspaceId, reply: S.Reply)
      modifies this, heartbeat
      ensures State() == S.FinishPaneCommand(old(State()), command, workspace, reply)
    {
      match reply
      case Waiting =>
      case Broken(error) => HandleCommandError(workspace, S.OperationOf(command), error);
      case Answered(envelope) =>
        match S.Accepted(command, envelope.payload) {
          case None => HandleCommandError(workspace, S.OperationOf(command), S.ReplyError(envelope.payload));
          case Some(events) =>
            if S.EndsTracking(command) {
              trackedWorkspaces := trackedWorkspaces - {workspace};
            }
            EmitEvents(events);
        }
    }

    method HandlePaneCommand(command: Command, workspace: WorkspaceId, runtime: IdText, s: Script)
      modifies this, heartbeat
      ensures State() == S.HandlePaneCommand(old(State()), command, workspace, runtime, s)
    {
      var problem := EnsureConnected(workspace, s.connect);
      if problem.Some? {
        if !problem.value.IsTransient() {
          EmitError(workspace, S.OperationOf(command), problem.value);
        }
        return;
      }
      if !S.IdsParse(runtime, command) {
        RejectId(workspace, command);
        return;
      }
      var reply := SendAndRead(PaneRequest(S.OperationOf(command)), runtime.Parse(), false, s.exchange);
      FinishPaneCommand(command, workspace, reply);
    }

    ghost method RejectId(workspace: WorkspaceId, command: Command)
      modifies this`log
      ensures State() == S.ParseError(old(State()), workspace, S.OperationOf(command))
    {
      Log(Emit(WorkspaceError(workspace, S.OperationOf(command), ProtocolFailure("Invalid runtime UUID"))));
    }

    method HandleEndingCommand(command: Command, workspace: WorkspaceId, runtime: IdText, s: Script)
      modifies this, heartbeat
      ensures State() == S.HandleEndingCommand(old(State()), command, workspace, runtime, s)
    {
      if runtime.Parse().None? {
        RejectId(workspace, command);
        return;
      }
      var problem := EnsureConnected(workspace, s.connect);
      if problem.Some? {
        if !problem.value.IsTransient() {
          EmitError(workspace, S.OperationOf(command), problem.value);
        }
        return;
      }
      var reply := SendAndRead(PaneRequest(S.OperationOf(command)), runtime.Parse(), true, s.exchange);
      FinishPaneCommand(command, workspace, reply);
    }

    // ---------------------------------------------------------------- commands without a response

    method HandleInput(command: Command, workspace: WorkspaceId, runtime: IdText, s: Script)
      modifies this, heartbeat
      ensures State() == S.HandleInput(old(State()), command, workspace, runtime, s)
    {
      if !S.IdsParse(runtime, command) {
        RejectId(workspace, command);
        return;
      }
      if writer {
        Log(Notified(PaneRequest(S.OperationOf(command))));
        if s.exchange.sendError.Some? {
          HandleCommandError(workspace, S.OperationOf(command), s.exchange.sendError.value);
        }
      }
    }

    method HandleNotice(command: Command, workspace: WorkspaceId, runtime: IdText, s: Script)
      modifies this, heartbeat
      ensures State() == S.HandleNotice(old(State()), command, workspace, runtime, s)
    {
      if !S.IdsParse(runtime, command) {
        RejectId(workspace, command);
        return;
      }
      var problem := EnsureConnected(workspace, s.connect);
      if problem.None? && writer {
        Log(Notified(PaneRequest(S.OperationOf(command))));
      }
    }

    // ---------------------------------------------------------------- inventory and resync

    method RefreshInventory(s: Script)
      modifies this, heartbeat
      ensures State() == S.HandleRefresh(old(State()), s)
    {
      var problem := EnsureConnected(S.INVENTORY_WORKSPACE, s.connect);
      if problem.Some? {
        if !problem.value.IsTransient() {
          EmitError(S.INVENTORY_WORKSPACE, OpRefreshInventory, problem.value);
        }
        return;
      }
      var reply;
      if writer {
        reply := SendAndRead(ListRequest, None, false, s.exchange);
      } else {
        // The connection that the source expects here is always present.
        assert connection;
        reply := UnsplitRequest(ListRequest, None, s.exchange);
      }
      match S.ListOutcome(reply)
      case Elapsed =>
      case Failed(error) => HandleCommandError(S.INVENTORY_WORKSPACE, OpRefreshInventory, error);
      case Done(content) => Log(Emit(InventoryLoaded(content)));
    }

    method ResyncWorkspace(workspace: WorkspaceId, runtime: IdText, s: Script)
      modifies this, heartbeat
      ensures State() == S.HandleResync(old(State()), workspace, runtime, s)
    {
      if runtime.Parse().None? {
        return;
      }
      var reply := SendAndRead(ResyncRequest, runtime.Parse(), false, s.exchange);
      if reply.Answered? && reply.envelope.payload.SnapshotReply? {
        Log(Emit(WorkspaceResynced(workspace, runtime, reply.envelope.payload.snapshot)));
      }
    }

    // ---------------------------------------------------------------- reconnecting

    method ReattachOne(workspace: WorkspaceId, runtime: IdText, x: Exchange) returns (verdict: S.Verdict)
      modifies this, heartbeat
      ensures (State(), verdict) == S.ReattachOne(old(State()), workspace, runtime, x)
    {
      if runtime.Parse().None? {
        return S.IsSkipped;
      }
      var reply := ActiveRequest(AttachRequest, runtime.Parse(), x);
      var outcome := S.AttachOutcome(reply);
      verdict := S.VerdictOf(outcome);
      match verdict
      case IsRecovered =>
        Log(Emit(WorkspaceOpened(workspace, runtime, outcome.value)));
        EmitStatus(workspace, Recovered);
      case IsMissing => EmitStatus(workspace, SessionMissing);
      case IsBlocked(problem) => EmitError(workspace, OpOpenWorkspace, problem);
      case _ =>
    }

    // Walks over the workspaces tracked when it starts; whether one failed transiently.
    method ReattachTracked(order: seq<WorkspaceId>, xs: seq<Exchange>) returns (anyTransientFailure: bool)
      requires |xs| == |order| && forall w | w in order :: w in trackedWorkspaces
      modifies this, heartbeat
      ensures var (after, verdicts) := S.ReattachAll(old(State()), old(trackedWorkspaces), order, xs);
              State() == after && anyTransientFailure == (S.IsTransientFailure in verdicts)
    {
      var bound := trackedWorkspaces;
      anyTransientFailure := false;
      var k := 0;
      assert order[..0] == [] && xs[..0] == [];
      while k < |order|
        invariant k <= |order|
        invariant State() == S.ReattachAll(old(State()), bound, order[..k], xs[..k]).0
        invariant anyTransientFailure
            == (S.IsTransientFailure in S.ReattachAll(old(State()), bound, order[..k], xs[..k]).1)
      {
        assert order[..k + 1][..k] == order[..k] && xs[..k + 1][..k] == xs[..k];
        assert order[k] in order;
        var verdict := ReattachOne(order[k], bound[order[k]], xs[k]);
        if verdict.IsTransientFailure? {
          anyTransientFailure := true;
        }
        k := k + 1;
      }
      assert order[..k] == order && xs[..k] == xs;
    }

    method Reconnect(s: Script)
      requires I.Covers(State(), s)
      modifies this, heartbeat
      ensures State() == S.HandleReconnect(old(State()), s)
    {
      if writer || connection || trackedWorkspaces == map[] {
        return;
      }
      var saved := reconnectAttempt;
      reconnectAttempt := 0;
      var problem := EnsureConnected(s.primary, s.connect);
      if problem.Some? {
        KeepBackingOff(saved, problem.value);
      } else {
        reconnectAttempt := saved;
        Reattach(s);
      }
    }

    // No connection: the counter does not fall below where it was.
    method KeepBackingOff(saved: nat, problem: Problem)
      modifies this
      ensures State() == S.KeepBackingOff(old(State()), saved, problem)
      ensures heartbeat.State() == old(heartbeat.State())
    {
      if saved > reconnectAttempt {
        reconnectAttempt := saved;
      }
      if !problem.IsTransient() {
        ScheduleReconnectForProblem(problem);
      }
    }

    // A connection: it is stable once every reattachment has gone through.
    method Reattach(s: Script)
      requires I.Covers(State(), s)
      modifies this, heartbeat
      ensures State() == S.Reattach(old(State()), s)
    {
      var saved := reconnectAttempt;
      SplitConnection();
      var anyTransientFailure := ReattachTracked(s.order, s.reattach);
      if anyTransientFailure {
        reconnectAttempt := saved;
        HandleDisconnect();
      } else {
        reconnectAttempt := 0;
      }
    }

    // ---------------------------------------------------------------- the main loop

    // Handles one command. A Reconnect has just been taken off the queue.
    method HandleCommand(command: Command, s: Script)
      requires Valid() && S.Enabled(State(), S.Do(command, s))
      modifies this, heartbeat
      ensures Valid() && State() == S.Handle(old(State()), command, s)
    {
      I.CommandKeepsInv(State(), command, s);
      Dispatch(command, s);
    }

    method Dispatch(command: Command, s: Script)
      requires command.Reconnect? ==> outstanding > 0 && I.Covers(State(), s)
      modifies this, heartbeat
      ensures State() == S.Handle(old(State()), command, s)
    {
      match command
      case OpenWorkspace(w, existing, placeholder, takeOver) => OpenWorkspace(w, existing, placeholder, takeOver, s);
      case RefreshInventory => RefreshInventory(s);
      case Reconnect => TakeReconnect(s);
      case ForgetWorkspace(w) => ForgetWorkspace(w);
      case ResyncWorkspace(w, r) => ResyncWorkspace(w, r, s);
      case _ => DispatchToRuntime(command, s);
    }

    method TakeReconnect(s: Script)
      requires outstanding > 0 && I.Covers(State(), s)
      modifies this, heartbeat
      ensures State() == S.HandleReconnect(old(State()).(outstanding := old(outstanding) - 1), s)
    {
      outstanding := outstanding - 1;
      Reconnect(s);
    }

    method ForgetWorkspace(workspace: WorkspaceId)
      modifies this`trackedWorkspaces
      ensures State() == old(State()).(tracked := old(trackedWorkspaces) - {workspace})
    {
      trackedWorkspaces := trackedWorkspaces - {workspace};
    }

    // The commands about a pane or a runtime that is already open.
    method DispatchToRuntime(command: Command, s: Script)
      requires !(command.OpenWorkspace? || command.RefreshInventory? || command.Reconnect?)
      requires !(command.ForgetWorkspace? || command.ResyncWorkspace?)
      modifies this, heartbeat
      ensures State() == S.Handle(old(State()), command, s)
    {
      match command
      case CreatePane(w, r, _) => HandlePaneCommand(command, w, r, s);
      case SplitPane(w, r, _, _) => HandlePaneCommand(command, w, r, s);
      case ClosePane(w, r, _, _) => HandlePaneCommand(command, w, r, s);
      case DetachWorkspace(w, r) => HandleEndingCommand(command, w, r, s);
      case TerminateWorkspace(w, r) => HandleEndingCommand(command, w, r, s);
      case SendInput(w, r, _) => HandleInput(command, w, r, s);
      case ResizePane(w, r, _) => HandleInput(command, w, r, s);
      case RenameWorkspace(w, r) => HandleNotice(command, w, r, s);
      case SetPaneNoPersist(w, r, _) => HandleNotice(command, w, r, s);
    }

    // Handles one message the loop has read; `found` is the workspace a search for the
    // runtime of an overflow meets first.
    method HandleRuntimeMessage(envelope: Envelope, found: WorkspaceId)
      requires Valid() && S.Enabled(State(), S.Message(envelope, found))
      modifies this, heartbeat
      ensures Valid() && State() == S.HandleMessage(old(State()), envelope, found)
      ensures log == old(log) + [Emit(WorkspaceMessage(envelope))] <==> T.IsTaken(envelope.payload)
    {
      I.MessageKeeps(State(), envelope, found);
      T.LoopForwardsIff(State(), envelope, found);
      if envelope.payload.Pong? {
        heartbeat.ObservePong(envelope.payload.nonce);
        return;
      }
      heartbeat.Reset();
      if envelope.payload.StreamOverflow? {
        var runtime := envelope.payload.runtime;
        if runtime.Some? && found in trackedWorkspaces && trackedWorkspaces[found] == Canonical(runtime.value) {
          Log(SelfSent(Command.ResyncWorkspace(found, Canonical(runtime.value))));
        }
      } else {
        DispatchPush(envelope);
      }
    }

    method HandleClosed()
      requires Valid() && reader
      modifies this, heartbeat
      ensures Valid() && State() == S.HandleDisconnect(old(State()))
    {
      I.DisconnectKeeps(State());
      HandleDisconnect();
    }

    method HandleHeartbeatTick(sendError: Option<DaemonError>)
      requires Valid() && reader
      modifies this, heartbeat
      ensures Valid() && State() == S.HandleTick(old(State()), sendError)
    {
      I.TickKeeps(State(), sendError);
      var action := heartbeat.OnTick();
      match action
      case DeclareLost => HandleDisconnect();
      case SendPing(nonce) =>
        if writer {
          var id := Ids.Drawn(wireIds);
          wireIds := Ids.Bumped(id);
          Log(Pinged(id, nonce));
          if sendError.Some? {
            HandleDisconnect();
          }
        }
    }
  }
}
