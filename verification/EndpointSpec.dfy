// The endpoint actor as a function of its state: one definition per handler.
module EndpointSpec {
  import opened MachineInts
  import opened Wrappers
  import opened EndpointTypes
  import H = Heartbeat
  import Ids = RequestIds

  function SaturatingAdd(a: nat, b: nat): nat {
    if a + b <= U32_MAX then a + b else U32_MAX
  }

  // `wireIds` is the id generator of the current transport, `nextId` the actor's own.
  // `outstanding` counts the Reconnects whose timer is running or that are queued.
  datatype Actor = Actor(
    local: bool,
    cap: nat,
    connection: bool, reader: bool, writer: bool,
    tracked: map<WorkspaceId, IdText>,
    attempt: nat,
    heartbeat: H.Monitor,
    nextId: nat,
    wireIds: nat,
    outstanding: nat,
    log: seq<Effect>)
  {
    predicate Up() { writer || connection }

    // The breaker opens when the attempt counter passes this.
    function Limit(): nat { SaturatingAdd(cap, 2) }

    predicate BreakerOpen() { attempt > Limit() }

    function NextAttempt(): nat { SaturatingAdd(attempt, 1) }

    function NextDelay(): nat {
      if NextAttempt() < cap then NextAttempt() else cap
    }

    function Log(e: Effect): Actor { this.(log := log + [e]) }

    function Tell(workspace: WorkspaceId, status: Status): Actor {
      Log(Emit(StatusChanged(workspace, status)))
    }
  }

  function Fresh(local: bool, cap: nat): Actor {
    Actor(local, cap, false, false, false, map[], 0, H.FRESH_MONITOR, 1, 1, 0, [])
  }

  // ---------------------------------------------------------------- losing and regaining the transport

  function ScheduleReconnect(a: Actor, delay: nat): Actor {
    var b := a.(attempt := a.NextAttempt());
    if b.BreakerOpen() then b.Log(EmitEach(b.tracked.Keys, [Blocked(DaemonDied)]))
    else b.(outstanding := b.outstanding + 1).Log(Scheduled(delay))
  }

  function Dropped(a: Actor): Actor {
    a.(connection := false, reader := false, writer := false)
  }

  function HandleDisconnect(a: Actor): Actor {
    var b := Dropped(a).(heartbeat := a.heartbeat.Cleared());
    if b.tracked == map[] then b
    else
      var c := b.Log(EmitEach(b.tracked.Keys, [Lost, Reconnecting(b.NextAttempt(), b.NextDelay())]));
      ScheduleReconnect(c, c.NextDelay())
  }

  function EmitError(a: Actor, workspace: WorkspaceId, operation: Operation, problem: Problem): Actor {
    a.Log(Emit(WorkspaceError(workspace, operation, problem))).Tell(workspace, Blocked(problem))
  }

  function CommandError(a: Actor, workspace: WorkspaceId, operation: Operation, error: DaemonError): Actor {
    var problem := Classify(error);
    if problem.SessionIsMissing? then a.Tell(workspace, SessionMissing)
    else
      var b := EmitError(a, workspace, operation, problem);
      if problem.IsTransient() then HandleDisconnect(b) else b
  }

  // Connects unless connected or waiting for a retry; the result is the problem met, if any.
  function EnsureConnected(a: Actor, workspace: WorkspaceId, connect: Option<DaemonError>):
    (r: (Actor, Option<Problem>))
    ensures r.1.None? <==> r.0.Up()
  {
    if a.Up() then (a, None)
    else if a.attempt > 0 then (a, Some(DaemonUnavailable))
    else
      var b := a.Tell(workspace, if a.local then Starting else Connecting).Log(ConnectTried);
      match connect
      case None => (b.(connection := true, wireIds := 1).Tell(workspace, Connected), None)
      case Some(error) =>
        var problem := Classify(error);
        if problem.IsTransient() then
          var delay := b.NextDelay();
          var c := b.Tell(workspace, Lost).Tell(workspace, Reconnecting(b.NextAttempt(), delay));
          (ScheduleReconnect(c, delay), Some(problem))
        else (b.Tell(workspace, Blocked(problem)), Some(problem))
  }

  function SplitConnection(a: Actor): Actor {
    if a.connection then a.(connection := false, reader := true, writer := true, heartbeat := a.heartbeat.Cleared())
    else a
  }

  // ---------------------------------------------------------------- requests and responses

  datatype Reply = Answered(envelope: Envelope) | Broken(error: DaemonError) | Waiting

  function AfterInbound(ending: Ending): Reply {
    match ending
    case Fails(error) => Broken(error)
    case Stalls => Waiting
  }

  function Untrack(tracked: map<WorkspaceId, IdText>, runtime: Option<Uuid>): map<WorkspaceId, IdText> {
    if runtime.None? then tracked
    else map w | w in tracked && tracked[w] != Canonical(runtime.value) :: tracked[w]
  }

  function DispatchPush(a: Actor, envelope: Envelope): Actor {
    var b := if envelope.payload.Terminated? then a.(tracked := Untrack(a.tracked, envelope.payload.runtime)) else a;
    b.Log(Emit(WorkspaceMessage(envelope)))
  }

  // What is done with one message that is not the awaited response.
  function PassBy(a: Actor, envelope: Envelope, expectTerminated: bool): Actor {
    if envelope.payload.Pong? then a.(heartbeat := a.heartbeat.Ponged(envelope.payload.nonce))
    else if envelope.payload.Terminated? && expectTerminated then a
    else DispatchPush(a, envelope)
  }

  function ReadResponse(a: Actor, id: nat, expectTerminated: bool, inbound: seq<Envelope>, ending: Ending):
    (Actor, Reply)
    decreases |inbound|
  {
    if inbound == [] then (a, AfterInbound(ending))
    else if inbound[0].requestId == id then (a, Answered(inbound[0]))
    else ReadResponse(PassBy(a, inbound[0], expectTerminated), id, expectTerminated, inbound[1..], ending)
  }

  function SendAndRead(a: Actor, kind: RequestKind, runtime: Option<Uuid>, expectTerminated: bool, x: Exchange):
    (Actor, Reply)
  {
    var id := a.nextId;
    var b := a.(nextId := Ids.ActorSuccessor(id));
    if !b.writer then (b, Broken(Disconnected))
    else
      var c := b.Log(Requested(id, kind, runtime));
      if x.sendError.Some? then (c, Broken(x.sendError.value))
      else if !c.reader then (c, Broken(Disconnected))
      else ReadResponse(c, id, expectTerminated, x.inbound, x.ending)
  }

  // Before the split everything but the awaited response is skipped.
  function FirstWithId(inbound: seq<Envelope>, id: nat, ending: Ending): Reply {
    if inbound == [] then AfterInbound(ending)
    else if inbound[0].requestId == id then Answered(inbound[0])
    else FirstWithId(inbound[1..], id, ending)
  }

  function UnsplitRequest(a: Actor, kind: RequestKind, runtime: Option<Uuid>, x: Exchange): (Actor, Reply) {
    var id := Ids.Drawn(a.wireIds);
    var b := a.(wireIds := Ids.Bumped(id)).Log(Requested(id, kind, runtime));
    if x.sendError.Some? then (b, Broken(x.sendError.value))
    else (b, FirstWithId(x.inbound, id, x.ending))
  }

  function ActiveRequest(a: Actor, kind: RequestKind, runtime: Option<Uuid>, x: Exchange): (Actor, Reply) {
    if a.connection then UnsplitRequest(a, kind, runtime, x)
    else SendAndRead(a, kind, runtime, false, x)
  }

  // ---------------------------------------------------------------- opening a workspace

  datatype Outcome<T> = Done(value: T) | Failed(error: DaemonError) | Elapsed

  function AttachOutcome(reply: Reply): Outcome<Snapshot> {
    match reply
    case Waiting => Elapsed
    case Broken(error) => Failed(error)
    case Answered(envelope) =>
      match envelope.payload
      case SnapshotReply(snapshot) => Done(snapshot)
      case AttachBlocked => Failed(AttachIsBlocked)
      case ErrorReply(kind, message) => Failed(ProtocolError(kind, message))
      case _ => Failed(UnexpectedMessage)
  }

  function CreateOutcome(reply: Reply): Outcome<Uuid> {
    match reply
    case Waiting => Elapsed
    case Broken(error) => Failed(error)
    case Answered(envelope) =>
      match envelope.payload
      case WorkspaceCreated(Some(uuid)) => Done(uuid)
      case WorkspaceCreated(None) => Failed(BadFrame("invalid UUID"))
      case ErrorReply(kind, message) => Failed(ProtocolError(kind, message))
      case _ => Failed(UnexpectedMessage)
  }

  function TakeoverOutcome(reply: Reply): Outcome<()> {
    match reply
    case Waiting => Elapsed
    case Broken(error) => Failed(error)
    case Answered(envelope) =>
      match envelope.payload
      case TakeoverCompleted => Done(())
      case ErrorReply(kind, message) => Failed(ProtocolError(kind, message))
      case _ => Failed(UnexpectedMessage)
  }

  datatype Resolution = Resolved(runtime: IdText, snapshot: Snapshot) | Refused | TimedOut

  function CreateAndAttach(a: Actor, workspace: WorkspaceId, s: Script): (Actor, Resolution) {
    var (b, created) := ActiveRequest(a, CreateRequest, None, s.create);
    match CreateOutcome(created)
    case Elapsed => (b, TimedOut)
    case Failed(error) => (CommandError(b, workspace, OpOpenWorkspace, error), Refused)
    case Done(uuid) =>
      var (c, attached) := ActiveRequest(b, AttachRequest, Some(uuid), s.attachNew);
      match AttachOutcome(attached)
      case Elapsed => (c, TimedOut)
      case Failed(error) => (CommandError(c, workspace, OpOpenWorkspace, error), Refused)
      case Done(snapshot) => (c, Resolved(Canonical(uuid), snapshot))
  }

  // Attaches to a known runtime. A conflict, a lost transport or a missing session is
  // reported; any other failure falls back to a new runtime.
  function AttachExisting(a: Actor, workspace: WorkspaceId, runtime: IdText, uuid: Uuid, s: Script):
    (Actor, Resolution)
  {
    var (b, attached) := ActiveRequest(a, AttachRequest, Some(uuid), s.attach);
    match AttachOutcome(attached)
    case Elapsed => (b, TimedOut)
    case Done(snapshot) => (b, Resolved(runtime, snapshot))
    case Failed(error) =>
      if error.AttachIsBlocked? || error.Io? || error.Disconnected? then
        (CommandError(b, workspace, OpOpenWorkspace, error), Refused)
      else if Classify(error).SessionIsMissing? then (b.Tell(workspace, SessionMissing), Refused)
      else CreateAndAttach(b, workspace, s)
  }

  function ResolveAndAttach(a: Actor, workspace: WorkspaceId, existing: Option<IdText>, takeOver: bool, s: Script):
    (Actor, Resolution)
  {
    if existing.None? || existing.value.Parse().None? then CreateAndAttach(a, workspace, s)
    else
      var uuid := existing.value.Parse().value;
      if !takeOver then AttachExisting(a, workspace, existing.value, uuid, s)
      else
        var (b, seized) := ActiveRequest(a, TakeoverRequest, Some(uuid), s.takeover);
        match TakeoverOutcome(seized)
        case Elapsed => (b, TimedOut)
        case Failed(error) => (CommandError(b, workspace, OpOpenWorkspace, error), Refused)
        case Done(_) =>
          var c := b.Log(Emit(WorkspaceTakenOver(workspace, existing.value)));
          AttachExisting(c, workspace, existing.value, uuid, s)
  }

  // The handshake did not finish in time: only the workspace being opened is told.
  function HandshakeTimeout(a: Actor, workspace: WorkspaceId): Actor {
    var b := Dropped(a).Tell(workspace, Lost);
    var delay := b.NextDelay();
    var c := ScheduleReconnect(b.Tell(workspace, Reconnecting(b.NextAttempt(), delay)), delay);
    EmitError(c, workspace, OpOpenWorkspace, DaemonUnavailable)
  }

  function FinishOpen(a: Actor, workspace: WorkspaceId, placeholder: Option<string>, runtime: IdText,
                      snapshot: Snapshot): Actor {
    var b := SplitConnection(a);
    var c := b.(tracked := b.tracked[workspace := runtime]).Log(Emit(WorkspaceOpened(workspace, runtime, snapshot)));
    if snapshot.panes == 0 && placeholder.Some? then c.Log(SelfSent(CreatePane(workspace, runtime, placeholder.value)))
    else c.Tell(workspace, Connected)
  }

  function ConcludeOpen(a: Actor, workspace: WorkspaceId, placeholder: Option<string>, resolution: Resolution): Actor {
    match resolution
    case TimedOut => HandshakeTimeout(a, workspace)
    case Refused => a
    case Resolved(runtime, snapshot) => FinishOpen(a, workspace, placeholder, runtime, snapshot)
  }

  function HandleOpen(a: Actor, workspace: WorkspaceId, existing: Option<IdText>, placeholder: Option<string>,
                      takeOver: bool, s: Script): Actor {
    var (b, problem) := EnsureConnected(a.Tell(workspace, Connecting), workspace, s.connect);
    match problem
    case Some(p) => if p.IsTransient() then b else EmitError(b, workspace, OpOpenWorkspace, p)
    case None =>
      var (c, resolution) := ResolveAndAttach(b, workspace, existing, takeOver, s);
      ConcludeOpen(c, workspace, placeholder, resolution)
  }

  // ---------------------------------------------------------------- commands that await one response

  function OperationOf(command: Command): Operation {
    match command
    case CreatePane(_, _, _) => OpCreatePane
    case SplitPane(_, _, _, _) => OpCreatePane
    case ClosePane(_, _, _, _) => OpClosePane
    case DetachWorkspace(_, _) => OpDetach
    case TerminateWorkspace(_, _) => OpTerminate
    case SendInput(_, _, _) => OpSendInput
    case ResizePane(_, _, _) => OpResizePane
    case RefreshInventory => OpRefreshInventory
    case RenameWorkspace(_, _) => OpRename
    case SetPaneNoPersist(_, _, _) => OpSetNoPersist
    case _ => OpOpenWorkspace
  }

  // The events a response brings, or nothing if it is not one the command accepts.
  function Accepted(command: Command, payload: Payload): Option<seq<Event>> {
    match (command, payload)
    case (CreatePane(w, r, t), PaneCreated(pane)) =>
      Some(if pane.None? then [] else [PaneWasCreated(w, t, r, pane.value), StatusChanged(w, Connected)])
    case (SplitPane(w, r, _, t), PaneSplit(pane)) =>
      Some(if pane.None? then [] else [PaneWasCreated(w, t, r, pane.value), StatusChanged(w, Connected)])
    case (ClosePane(w, r, t, p), PaneClosed) => Some([PaneWasClosed(w, t, r, p)])
    case (ClosePane(w, r, t, p), ErrorReply(PaneNotFound, _)) => Some([PaneWasClosed(w, t, r, p)])
    case (DetachWorkspace(w, r), WorkspaceDetached) => Some([WorkspaceWasDetached(w, r)])
    case (DetachWorkspace(w, r), Terminated(_, reason)) => Some([WorkspaceWasTerminated(w, r, reason)])
    case (TerminateWorkspace(w, r), Terminated(_, reason)) => Some([WorkspaceWasTerminated(w, r, reason)])
    case _ => None
  }

  predicate EndsTracking(command: Command) {
    command.DetachWorkspace? || command.TerminateWorkspace?
  }

  function EmitAll(a: Actor, events: seq<Event>): Actor
    decreases |events|
  {
    if events == [] then a else EmitAll(a.Log(Emit(events[0])), events[1..])
  }

  function ReplyError(payload: Payload): DaemonError {
    if payload.ErrorReply? then ProtocolError(payload.kind, payload.message) else UnexpectedMessage
  }

  function FinishPaneCommand(a: Actor, command: Command, workspace: WorkspaceId, reply: Reply): Actor {
    match reply
    case Waiting => a
    case Broken(error) => CommandError(a, workspace, OperationOf(command), error)
    case Answered(envelope) =>
      match Accepted(command, envelope.payload)
      case None => CommandError(a, workspace, OperationOf(command), ReplyError(envelope.payload))
      case Some(events) =>
        EmitAll(if EndsTracking(command) then a.(tracked := a.tracked - {workspace}) else a, events)
  }

  // The first id of the command that does not parse is reported, without blocking.
  function ParseError(a: Actor, workspace: WorkspaceId, operation: Operation): Actor {
    a.Log(Emit(WorkspaceError(workspace, operation, ProtocolFailure("Invalid runtime UUID"))))
  }

  function SecondId(command: Command): Option<IdText> {
    match command
    case SplitPane(_, _, target, _) => Some(target)
    case ClosePane(_, _, _, pane) => Some(pane)
    case SendInput(_, _, pane) => Some(pane)
    case ResizePane(_, _, pane) => Some(pane)
    case SetPaneNoPersist(_, _, pane) => Some(pane)
    case _ => None
  }

  // Whether every id the command carries parses.
  predicate IdsParse(runtime: IdText, command: Command) {
    runtime.Parse().Some? && (SecondId(command).Some? ==> SecondId(command).value.Parse().Some?)
  }

  function ReportUnlessTransient(a: Actor, workspace: WorkspaceId, operation: Operation, problem: Problem): Actor {
    if problem.IsTransient() then a else EmitError(a, workspace, operation, problem)
  }

  // Creating, splitting and closing panes connect before they parse.
  function HandlePaneCommand(a: Actor, command: Command, workspace: WorkspaceId, runtime: IdText, s: Script): Actor {
    var (b, problem) := EnsureConnected(a, workspace, s.connect);
    if problem.Some? then ReportUnlessTransient(b, workspace, OperationOf(command), problem.value)
    else if !IdsParse(runtime, command) then ParseError(b, workspace, OperationOf(command))
    else
      var (c, reply) := SendAndRead(b, PaneRequest(OperationOf(command)), runtime.Parse(), false, s.exchange);
      FinishPaneCommand(c, command, workspace, reply)
  }

  // Detaching and terminating parse before they connect, and expect a termination.
  function HandleEndingCommand(a: Actor, command: Command, workspace: WorkspaceId, runtime: IdText, s: Script): Actor {
    if runtime.Parse().None? then ParseError(a, workspace, OperationOf(command))
    else
      var (b, problem) := EnsureConnected(a, workspace, s.connect);
      if problem.Some? then ReportUnlessTransient(b, workspace, OperationOf(command), problem.value)
      else
        var (c, reply) := SendAndRead(b, PaneRequest(OperationOf(command)), runtime.Parse(), true, s.exchange);
        FinishPaneCommand(c, command, workspace, reply)
  }

  // ---------------------------------------------------------------- commands without a response

  // Input and resizes go out if there is a writer; a failed write is an error.
  function HandleInput(a: Actor, command: Command, workspace: WorkspaceId, runtime: IdText, s: Script): Actor {
    if !IdsParse(runtime, command) then ParseError(a, workspace, OperationOf(command))
    else if !a.writer then a
    else
      var b := a.Log(Notified(PaneRequest(OperationOf(command))));
      if s.exchange.sendError.Some? then CommandError(b, workspace, OperationOf(command), s.exchange.sendError.value)
      else b
  }

  // Renames and persistence flags connect first, and their write may fail unnoticed.
  function HandleNotice(a: Actor, command: Command, workspace: WorkspaceId, runtime: IdText, s: Script): Actor {
    if !IdsParse(runtime, command) then ParseError(a, workspace, OperationOf(command))
    else
      var (b, problem) := EnsureConnected(a, workspace, s.connect);
      if problem.Some? || !b.writer then b
      else b.Log(Notified(PaneRequest(OperationOf(command))))
  }

  // ---------------------------------------------------------------- inventory and resync

  const INVENTORY_WORKSPACE: WorkspaceId := "inventory"

  function ListOutcome(reply: Reply): Outcome<nat> {
    match reply
    case Waiting => Elapsed
    case Broken(error) => Failed(error)
    case Answered(envelope) =>
      if envelope.payload.WorkspaceList? then Done(envelope.payload.content)
      else Failed(ReplyError(envelope.payload))
  }

  function HandleRefresh(a: Actor, s: Script): Actor {
    var (b, problem) := EnsureConnected(a, INVENTORY_WORKSPACE, s.connect);
    if problem.Some? then ReportUnlessTransient(b, INVENTORY_WORKSPACE, OpRefreshInventory, problem.value)
    else
      var (c, reply) :=
        if b.writer then SendAndRead(b, ListRequest, None, false, s.exchange)
        else UnsplitRequest(b, ListRequest, None, s.exchange);
      match ListOutcome(reply)
      case Elapsed => c
      case Failed(error) => CommandError(c, INVENTORY_WORKSPACE, OpRefreshInventory, error)
      case Done(content) => c.Log(Emit(InventoryLoaded(content)))
  }

  function HandleResync(a: Actor, workspace: WorkspaceId, runtime: IdText, s: Script): Actor {
    if runtime.Parse().None? then a
    else
      var (b, reply) := SendAndRead(a, ResyncRequest, runtime.Parse(), false, s.exchange);
      if reply.Answered? && reply.envelope.payload.SnapshotReply?
      then b.Log(Emit(WorkspaceResynced(workspace, runtime, reply.envelope.payload.snapshot)))
      else b
  }

  // ---------------------------------------------------------------- reconnecting

  // How one reattachment ended.
  datatype Verdict = IsRecovered | IsMissing | IsBlocked(problem: Problem) | IsTransientFailure | IsSkipped

  function VerdictOf(outcome: Outcome<Snapshot>): Verdict {
    match outcome
    case Done(_) => IsRecovered
    case Elapsed => IsSkipped
    case Failed(error) =>
      var problem := Classify(error);
      if problem.SessionIsMissing? then IsMissing
      else if problem.IsTransient() then IsTransientFailure
      else IsBlocked(problem)
  }

  function ReportReattach(a: Actor, workspace: WorkspaceId, runtime: IdText, outcome: Outcome<Snapshot>): Actor {
    match VerdictOf(outcome)
    case IsRecovered => a.Log(Emit(WorkspaceOpened(workspace, runtime, outcome.value))).Tell(workspace, Recovered)
    case IsMissing => a.Tell(workspace, SessionMissing)
    case IsBlocked(problem) => EmitError(a, workspace, OpOpenWorkspace, problem)
    case _ => a
  }

  function ReattachOne(a: Actor, workspace: WorkspaceId, runtime: IdText, x: Exchange): (Actor, Verdict) {
    if runtime.Parse().None? then (a, IsSkipped)
    else
      var (b, reply) := ActiveRequest(a, AttachRequest, runtime.Parse(), x);
      (ReportReattach(b, workspace, runtime, AttachOutcome(reply)), VerdictOf(AttachOutcome(reply)))
  }

  // Reattaches every workspace of `order`, bound as it was when the walk began.
  function ReattachAll(a: Actor, bound: map<WorkspaceId, IdText>, order: seq<WorkspaceId>, xs: seq<Exchange>):
    (Actor, seq<Verdict>)
    requires |xs| == |order| && forall w | w in order :: w in bound
  {
    if order == [] then (a, [])
    else
      var n := |order| - 1;
      var (b, verdicts) := ReattachAll(a, bound, order[..n], xs[..n]);
      var (c, verdict) := ReattachOne(b, order[n], bound[order[n]], xs[n]);
      (c, verdicts + [verdict])
  }

  // The state in which the reattachments of a Reconnect begin, once its connection is made.
  function BeforeReattach(a: Actor, s: Script): Actor {
    SplitConnection(EnsureConnected(a.(attempt := 0), s.primary, None).0.(attempt := a.attempt))
  }

  // No connection: the counter does not fall below where it was.
  function KeepBackingOff(a: Actor, saved: nat, problem: Problem): Actor {
    var b := a.(attempt := if a.attempt > saved then a.attempt else saved);
    if problem.IsTransient() then b else ScheduleReconnect(b, b.cap)
  }

  // A connection: it is stable once every reattachment has gone through.
  function Reattach(a: Actor, s: Script): Actor
    requires |s.reattach| == |s.order| && forall w | w in s.order :: w in a.tracked
  {
    var b := SplitConnection(a);
    var (c, verdicts) := ReattachAll(b, b.tracked, s.order, s.reattach);
    if IsTransientFailure in verdicts then HandleDisconnect(c.(attempt := a.attempt)) else c.(attempt := 0)
  }

  // Handles a Reconnect that has been taken off the queue.
  function HandleReconnect(a: Actor, s: Script): Actor
    requires |s.reattach| == |s.order| && forall w | w in s.order :: w in a.tracked
  {
    if a.Up() || a.tracked == map[] then a
    else
      var saved := a.attempt;
      var (b, problem) := EnsureConnected(a.(attempt := 0), s.primary, s.connect);
      if problem.Some? then KeepBackingOff(b, saved, problem.value)
      else Reattach(b.(attempt := saved), s)
  }

  // ---------------------------------------------------------------- all commands

  function Handle(a: Actor, command: Command, s: Script): Actor
    requires command.Reconnect? ==> |s.reattach| == |s.order| && forall w | w in s.order :: w in a.tracked
  {
    match command
    case OpenWorkspace(w, existing, placeholder, takeOver) => HandleOpen(a, w, existing, placeholder, takeOver, s)
    case CreatePane(w, r, _) => HandlePaneCommand(a, command, w, r, s)
    case SplitPane(w, r, _, _) => HandlePaneCommand(a, command, w, r, s)
    case ClosePane(w, r, _, _) => HandlePaneCommand(a, command, w, r, s)
    case DetachWorkspace(w, r) => HandleEndingCommand(a, command, w, r, s)
    case TerminateWorkspace(w, r) => HandleEndingCommand(a, command, w, r, s)
    case SendInput(w, r, _) => HandleInput(a, command, w, r, s)
    case ResizePane(w, r, _) => HandleInput(a, command, w, r, s)
    case RefreshInventory => HandleRefresh(a, s)
    case Reconnect => HandleReconnect(a.(outstanding := if a.outstanding > 0 then a.outstanding - 1 else 0), s)
    case ForgetWorkspace(w) => a.(tracked := a.tracked - {w})
    case RenameWorkspace(w, r) => HandleNotice(a, command, w, r, s)
    case SetPaneNoPersist(w, r, _) => HandleNotice(a, command, w, r, s)
    case ResyncWorkspace(w, r) => HandleResync(a, w, r, s)
  }

  // ---------------------------------------------------------------- inbound messages and ticks

  predicate BoundTo(a: Actor, workspace: WorkspaceId, uuid: Uuid) {
    workspace in a.tracked && a.tracked[workspace] == Canonical(uuid)
  }

  // An overflow asks for a resync of one workspace bound to the runtime; `found` is the one
  // the search meets first.
  function HandleOverflow(a: Actor, runtime: Option<Uuid>, found: WorkspaceId): Actor {
    if runtime.None? || !BoundTo(a, found, runtime.value) then a
    else a.Log(SelfSent(ResyncWorkspace(found, Canonical(runtime.value))))
  }

  function HandleMessage(a: Actor, envelope: Envelope, found: WorkspaceId): Actor {
    if envelope.payload.Pong? then a.(heartbeat := a.heartbeat.Ponged(envelope.payload.nonce))
    else
      var b := a.(heartbeat := a.heartbeat.Cleared());
      if envelope.payload.StreamOverflow? then HandleOverflow(b, envelope.payload.runtime, found)
      else DispatchPush(b, envelope)
  }

  function HandleTick(a: Actor, sendError: Option<DaemonError>): Actor
    requires a.heartbeat.InRange()
  {
    var b := a.(heartbeat := a.heartbeat.Ticked());
    match a.heartbeat.TickAction()
    case DeclareLost => HandleDisconnect(b)
    case SendPing(nonce) =>
      if !b.writer then b
      else
        var id := Ids.Drawn(b.wireIds);
        var c := b.(wireIds := Ids.Bumped(id)).Log(Pinged(id, nonce));
        if sendError.Some? then HandleDisconnect(c) else c
  }

  // ---------------------------------------------------------------- steps and runs

  datatype Step =
    | Do(command: Command, script: Script)
    | Message(envelope: Envelope, found: WorkspaceId)
    | Closed
    | Tick(sendError: Option<DaemonError>)

  predicate Enumerates(order: seq<WorkspaceId>, keys: set<WorkspaceId>) {
    && Distinct(order)
    && (set w | w in order) == keys
  }

  // The steps the loop can take: a Reconnect needs one outstanding, a message or a tick a
  // reader, and a handler other than an open, which is timed, ends only if its requests do.
  ghost predicate Enabled(a: Actor, step: Step) {
    match step
    case Do(Reconnect, s) =>
      && a.outstanding > 0
      && Enumerates(s.order, a.tracked.Keys) && |s.reattach| == |s.order|
      && (a.tracked != map[] ==> s.primary in a.tracked)
      && (forall i | 0 <= i < |s.reattach| :: s.reattach[i].Settles())
    case Do(command, s) => command.OpenWorkspace? || s.exchange.Settles()
    case Message(envelope, found) =>
      && a.reader
      && (envelope.payload.StreamOverflow? && envelope.payload.runtime.Some?
          ==> forall w | BoundTo(a, w, envelope.payload.runtime.value) ::
              BoundTo(a, found, envelope.payload.runtime.value))
    case Closed => a.reader
    case Tick(_) => a.reader && a.tracked != map[] && a.heartbeat.InRange()
  }

  ghost function Next(a: Actor, step: Step): Actor
    requires Enabled(a, step)
  {
    match step
    case Do(command, s) =>
      Handle(a, command, s)
    case Message(envelope, found) => HandleMessage(a, envelope, found)
    case Closed => HandleDisconnect(a)
    case Tick(sendError) => HandleTick(a, sendError)
  }

  // A run: every step enabled where it is taken.
  ghost predicate IsRun(a: Actor, steps: seq<Step>)
    decreases |steps|, 0
  {
    steps == [] ||
    var n := |steps| - 1;
    IsRun(a, steps[..n]) && Enabled(After(a, steps[..n]), steps[n])
  }

  ghost function After(a: Actor, steps: seq<Step>): Actor
    requires IsRun(a, steps)
    decreases |steps|, 1
  {
    if steps == [] then a
    else Next(After(a, steps[..|steps| - 1]), steps[|steps| - 1])
  }
}
