// What an endpoint actor exchanges with the window and with the daemon.
module EndpointTypes {
  import opened Wrappers

  type WorkspaceId = string
  type Uuid = nat

  // The text of a runtime or pane id. A uuid has one canonical text and further spellings
  // that parse to it; any other text does not parse.
  datatype IdText = Canonical(uuid: Uuid) | Variant(uuid: Uuid, spelling: nat) | Malformed(text: string) {
    function Parse(): Option<Uuid> {
      match this
      case Malformed(_) => None
      case _ => Some(uuid)
    }
  }

  // ---------------------------------------------------------------- errors and problems

  datatype ErrorKind =
    | WorkspaceNotFound | OwnershipConflictKind | TakeoverRequired | ProtocolMismatch | UnsupportedCapability
    | PaneNotFound | OtherKind

  datatype DaemonError =
    | VersionMismatch
    | AttachIsBlocked
    | ProtocolError(kind: ErrorKind, message: string)
    | ServerError(code: nat, message: string)
    | Io
    | Disconnected
    | DaemonNotInstalled(detail: string)
    | BadFrame(detail: string)
    | UnexpectedMessage

  datatype Problem =
    | DaemonUnavailable
    | DaemonDied
    | NotInstalled(detail: string)
    | IncompatibleVersion
    | OwnershipConflict
    | SessionIsMissing
    | ProtocolFailure(detail: string)
    | UserActionRequired(detail: string)
  {
    // Whether the actor retries by itself.
    predicate IsTransient() { DaemonUnavailable? }
  }

  function Classify(error: DaemonError): (problem: Problem)
    ensures problem.IsTransient() <==> error == Io || error == Disconnected
  {
    match error
    case VersionMismatch => IncompatibleVersion
    case AttachIsBlocked => OwnershipConflict
    case ProtocolError(WorkspaceNotFound, _) => SessionIsMissing
    case ProtocolError(OwnershipConflictKind, _) => OwnershipConflict
    case ProtocolError(TakeoverRequired, _) => OwnershipConflict
    case ProtocolError(ProtocolMismatch, message) => ProtocolFailure(message)
    case ProtocolError(UnsupportedCapability, message) => ProtocolFailure(message)
    case ProtocolError(_, message) => UserActionRequired(message)
    case ServerError(code, message) =>
      if code == 4 then SessionIsMissing
      else if code == 9 then OwnershipConflict
      else UserActionRequired(message)
    case Io => DaemonUnavailable
    case Disconnected => DaemonUnavailable
    case DaemonNotInstalled(detail) => NotInstalled(detail)
    case BadFrame(detail) => ProtocolFailure(detail)
    case UnexpectedMessage => ProtocolFailure("Unexpected daemon message")
  }

  // Which errors are which problem.
  lemma ErrorsByProblem(error: DaemonError)
    ensures var problem := Classify(error);
            && (problem.SessionIsMissing?
                <==> || (error.ProtocolError? && error.kind.WorkspaceNotFound?)
                     || (error.ServerError? && error.code == 4))
            && (problem.OwnershipConflict?
                <==> || error.AttachIsBlocked? || (error.ServerError? && error.code == 9)
                     || (error.ProtocolError? && (error.kind.OwnershipConflictKind? || error.kind.TakeoverRequired?)))
            && (problem.IncompatibleVersion? <==> error.VersionMismatch?)
            && (problem.NotInstalled? <==> error.DaemonNotInstalled?)
            && (problem.ProtocolFailure?
                <==> || error.BadFrame? || error.UnexpectedMessage?
                     || (error.ProtocolError? && (error.kind.ProtocolMismatch? || error.kind.UnsupportedCapability?)))
            && !problem.DaemonDied?
  {
  }

  // ---------------------------------------------------------------- messages of the daemon

  datatype Snapshot = Snapshot(panes: nat, content: nat)

  // Ids inside a payload are absent when their bytes are malformed.
  datatype Payload =
    | Pong(nonce: nat)
    | Terminated(runtime: Option<Uuid>, reason: nat)
    | StreamOverflow(runtime: Option<Uuid>)
    | SnapshotReply(snapshot: Snapshot)
    | WorkspaceCreated(runtime: Option<Uuid>)
    | TakeoverCompleted
    | PaneCreated(pane: Option<Uuid>)
    | PaneSplit(pane: Option<Uuid>)
    | PaneClosed
    | WorkspaceDetached
    | WorkspaceList(content: nat)
    | AttachBlocked
    | ErrorReply(kind: ErrorKind, message: string)
    | OtherPayload(tag: nat)
    | NoPayload

  datatype Envelope = Envelope(requestId: nat, payload: Payload)

  // ---------------------------------------------------------------- events to the window

  datatype Status =
    | Starting | Connecting | Connected
    | Reconnecting(attempt: nat, retryInSecs: nat)
    | Blocked(problem: Problem)
    | Lost
    | Recovered
    | SessionMissing

  datatype Operation =
    | OpOpenWorkspace | OpCreatePane | OpClosePane | OpDetach | OpTerminate | OpRefreshInventory
    | OpSendInput | OpResizePane | OpRename | OpSetNoPersist

  datatype Event =
    | StatusChanged(workspace: WorkspaceId, status: Status)
    | WorkspaceOpened(workspace: WorkspaceId, runtime: IdText, snapshot: Snapshot)
    | PaneWasCreated(workspace: WorkspaceId, terminal: string, runtime: IdText, pane: Uuid)
    | PaneWasClosed(workspace: WorkspaceId, terminal: string, runtime: IdText, closedPane: IdText)
    | WorkspaceWasDetached(workspace: WorkspaceId, runtime: IdText)
    | WorkspaceWasTerminated(workspace: WorkspaceId, runtime: IdText, reason: nat)
    | InventoryLoaded(content: nat)
    | WorkspaceMessage(message: Envelope)
    | WorkspaceResynced(workspace: WorkspaceId, runtime: IdText, snapshot: Snapshot)
    | WorkspaceError(workspace: WorkspaceId, operation: Operation, problem: Problem)
    | WorkspaceTakenOver(workspace: WorkspaceId, runtime: IdText)

  // ---------------------------------------------------------------- commands to the actor

  datatype Command =
    | OpenWorkspace(workspace: WorkspaceId, existing: Option<IdText>, placeholder: Option<string>, takeOver: bool)
    | CreatePane(workspace: WorkspaceId, runtime: IdText, terminal: string)
    | SplitPane(workspace: WorkspaceId, runtime: IdText, target: IdText, terminal: string)
    | ClosePane(workspace: WorkspaceId, runtime: IdText, terminal: string, pane: IdText)
    | DetachWorkspace(workspace: WorkspaceId, runtime: IdText)
    | TerminateWorkspace(workspace: WorkspaceId, runtime: IdText)
    | SendInput(workspace: WorkspaceId, runtime: IdText, pane: IdText)
    | ResizePane(workspace: WorkspaceId, runtime: IdText, pane: IdText)
    | RefreshInventory
    | Reconnect
    | ForgetWorkspace(workspace: WorkspaceId)
    | RenameWorkspace(workspace: WorkspaceId, runtime: IdText)
    | SetPaneNoPersist(workspace: WorkspaceId, runtime: IdText, pane: IdText)
    | ResyncWorkspace(workspace: WorkspaceId, runtime: IdText)

  datatype RequestKind =
    | AttachRequest | CreateRequest | TakeoverRequest | ListRequest | ResyncRequest
    | PaneRequest(operation: Operation)

  // Everything the actor does to the outside, in order. An `EmitEach` stands for a walk
  // over the tracked workspaces, whose order is unspecified: each of them is sent these
  // statuses, in this order.
  datatype Effect =
    | Emit(event: Event)
    | EmitEach(workspaces: set<WorkspaceId>, statuses: seq<Status>)
    | ConnectTried
    | Scheduled(delaySecs: nat)
    | SelfSent(command: Command)
    | Requested(id: nat, kind: RequestKind, runtime: Option<Uuid>)
    | Notified(kind: RequestKind)
    | Pinged(id: nat, nonce: nat)

  // ---------------------------------------------------------------- what the outside answers

  // How a stream of inbound messages goes on once those listed have been read: it fails,
  // or nothing more arrives.
  datatype Ending = Fails(error: DaemonError) | Stalls

  // One request as the transport sees it: the outcome of the write, then what arrives.
  datatype Exchange = Exchange(sendError: Option<DaemonError>, inbound: seq<Envelope>, ending: Ending) {
    predicate Settles() { sendError.Some? || ending.Fails? }
  }

  // What the outside answers while one command is handled: the outcome of a connection
  // attempt, the exchanges a handler may make, and the order in which a walk over the
  // tracked workspaces meets them.
  datatype Script = Script(
    connect: Option<DaemonError>,
    exchange: Exchange,
    takeover: Exchange, attach: Exchange, create: Exchange, attachNew: Exchange,
    primary: WorkspaceId, order: seq<WorkspaceId>, reattach: seq<Exchange>)
}
