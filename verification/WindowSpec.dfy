// The window's workspaces as values, and what each endpoint event does to them.
//
// Identifiers arriving in messages are the text of a well-formed 16 byte id, or nothing
// when the bytes are not one.
module WindowSpec {
  import opened Wrappers
  import opened Layout

  // ---------------------------------------------------------------- workspaces

  datatype Endpoint = Local | Remote(host: string, daemonBinaryPath: Option<string>) {
    // Two endpoints that differ only in their daemon binary share one key.
    function Key(): string {
      match this
      case Local => "local"
      case Remote(host, _) => "remote:" + host
    }
  }

  datatype Policy = Persistent | Ephemeral

  datatype PaneRecovery = EmptyShell | Recipe(startup: string)

  datatype Workspace = Workspace(
    uuid: string,
    name: string,
    layout: LayoutNode,
    recovery: map<string, PaneRecovery>,
    activeTerminal: Option<string>,
    zoomedTerminal: Option<string>,
    managed: bool,
    endpoint: Endpoint,
    policy: Policy,
    runtimeId: Option<string>,
    userRenamed: bool)
  {
    function Leaves(): seq<string> { layout.TerminalUuids() }

    function PruneRecovery(): Workspace {
      this.(recovery := map uuid | uuid in recovery && uuid in Leaves() :: recovery[uuid])
    }

    function NormalizeActiveTerminal(): Workspace {
      if activeTerminal.Some? && layout.ContainsTerminal(activeTerminal.value) then this
      else this.(activeTerminal := Some(Leaves()[0]))
    }

    // Re-keys one terminal in the layout and in everything that refers to it.
    function ReplaceTerminalUuid(old_: string, new_: string): Workspace {
      var (layout', replaced) := layout.ReplaceTerminalUuid(old_, new_);
      if old_ == new_ || !replaced then this
      else this.(
        layout := layout',
        recovery := if old_ in recovery then (recovery - {old_})[new_ := recovery[old_]] else recovery,
        activeTerminal := if activeTerminal == Some(old_) then Some(new_) else activeTerminal,
        zoomedTerminal := if zoomedTerminal == Some(old_) then Some(new_) else zoomedTerminal)
    }
  }

  datatype Window = Window(
    workspaces: seq<Workspace>,
    dismissed: set<string>,
    index: map<string, (string, string)>)

  function FindWorkspace(workspaces: seq<Workspace>, uuid: string): (found: Option<nat>)
    ensures found.Some? ==> found.value < |workspaces| && workspaces[found.value].uuid == uuid
    ensures found.Some? ==> forall i | 0 <= i < found.value :: workspaces[i].uuid != uuid
    ensures found.None? ==> forall i | 0 <= i < |workspaces| :: workspaces[i].uuid != uuid
  {
    if workspaces == [] then None
    else if workspaces[0].uuid == uuid then Some(0)
    else
      match FindWorkspace(workspaces[1..], uuid)
      case None => None
      case Some(i) => Some(i + 1)
  }

  // ---------------------------------------------------------------- the reverse pane index

  function PaneIndexKey(endpointKey: string, paneId: string): string {
    endpointKey + "\0" + paneId
  }

  function IndexLeaves(index: map<string, (string, string)>, endpointKey: string, uuid: string, leaves: seq<string>):
    map<string, (string, string)>
  {
    if leaves == [] then index
    else
      var last := leaves[|leaves| - 1];
      IndexLeaves(index, endpointKey, uuid, leaves[..|leaves| - 1])[PaneIndexKey(endpointKey, last) := (uuid, last)]
  }

  // The index rebuilt from scratch: later workspaces overwrite earlier ones.
  function BuildIndex(workspaces: seq<Workspace>): map<string, (string, string)> {
    if workspaces == [] then map[]
    else
      var last := workspaces[|workspaces| - 1];
      var index := BuildIndex(workspaces[..|workspaces| - 1]);
      if last.managed then IndexLeaves(index, last.endpoint.Key(), last.uuid, last.Leaves()) else index
  }

  function Rebuilt(w: Window): Window {
    w.(index := BuildIndex(w.workspaces))
  }

  function RuntimePaneTarget(w: Window, endpoint: Endpoint, paneId: string): Option<(string, string)> {
    var key := PaneIndexKey(endpoint.Key(), paneId);
    if key in w.index then Some(w.index[key]) else None
  }

  datatype Binding = Binding(workspaceId: string, endpoint: Endpoint, runtimeId: string, runtimePaneId: string)

  // The first managed workspace that shows the terminal, if it has a live runtime.
  function ManagedTerminalBinding(workspaces: seq<Workspace>, terminal: string): Option<Binding> {
    if workspaces == [] then None
    else
      var ws := workspaces[0];
      if ws.managed && ws.layout.ContainsTerminal(terminal) then
        if ws.runtimeId.None? then None
        else Some(Binding(ws.uuid, ws.endpoint, ws.runtimeId.value, terminal))
      else ManagedTerminalBinding(workspaces[1..], terminal)
  }

  // ---------------------------------------------------------------- snapshots and names

  // `modes` stands for the terminal modes, which are handed on as they come.
  datatype PaneSnapshot = PaneSnapshot(
    paneId: Option<string>, title: string, cwd: string, outputSeq: nat,
    scrollbackTail: seq<char>, scrollbackComplete: bool, cols: nat, rows: nat, modes: Option<nat>)

  datatype Snapshot = Snapshot(
    name: string, userRenamed: bool,
    tree: Option<PaneTree>, panes: seq<PaneSnapshot>, defaultActive: Option<string>)

  datatype NameRepair = NameRepair(workspaceId: string, endpoint: Endpoint, runtimeId: string, name: string)

  // The daemon owns the name, except when the user named the workspace here and the
  // daemon does not know: then the daemon is owed a repair.
  function AdoptSnapshotName(ws: Workspace, snapshot: Snapshot): (Workspace, Option<NameRepair>) {
    if snapshot.name == "" then (ws, None)
    else if ws.userRenamed && !snapshot.userRenamed then
      if ws.runtimeId.None? then (ws, None)
      else (ws, Some(NameRepair(ws.uuid, ws.endpoint, ws.runtimeId.value, ws.name)))
    else (ws.(name := snapshot.name, userRenamed := snapshot.userRenamed), None)
  }

  datatype PaneRestore = PaneRestore(
    layoutTerminal: string, title: string, cwd: string, outputSeq: nat,
    scrollbackTail: seq<char>, scrollbackComplete: bool, cols: nat, rows: nat, modes: Option<nat>)

  // Pane sizes arrive as 32 bit values and are kept in 16.
  function Low16(n: nat): nat { n % 0x1_0000 }

  function RestoreOf(pane: PaneSnapshot): PaneRestore
    requires pane.paneId.Some?
  {
    PaneRestore(pane.paneId.value, pane.title, pane.cwd, pane.outputSeq,
                pane.scrollbackTail, pane.scrollbackComplete, Low16(pane.cols), Low16(pane.rows), pane.modes)
  }

  // Restores for the panes a layout shows, in the snapshot's order.
  function Restores(layout: LayoutNode, panes: seq<PaneSnapshot>): seq<PaneRestore> {
    if panes == [] then []
    else
      (if panes[0].paneId.Some? && layout.ContainsTerminal(panes[0].paneId.value) then [RestoreOf(panes[0])] else [])
      + Restores(layout, panes[1..])
  }

  function CarryCwds(layout: LayoutNode, restores: seq<PaneRestore>): LayoutNode {
    if restores == [] then layout
    else
      var last := restores[|restores| - 1];
      var earlier := CarryCwds(layout, restores[..|restores| - 1]);
      if last.cwd == "" then earlier
      else earlier.SetTerminalCwd(last.layoutTerminal, Some(last.cwd)).0
  }

  // ---------------------------------------------------------------- opening a workspace

  datatype OpenResult = OpenResult(
    session: Workspace, restores: seq<PaneRestore>, previousTerminals: seq<string>, nameRepair: Option<NameRepair>)

  function RenderLayoutFromSnapshot(snapshot: Snapshot): Option<LayoutNode> {
    if snapshot.tree.None? then None else LayoutFromPaneTree(snapshot.tree.value)
  }

  // Adopts the daemon's tree as the layout of one workspace.
  function AdoptTree(ws: Workspace, runtimeId: string, layout: LayoutNode, snapshot: Snapshot): OpenResult {
    var (named, repair) := AdoptSnapshotName(ws.(runtimeId := Some(runtimeId)), snapshot);
    var adopted := named.(layout := layout);
    var focused :=
      if snapshot.defaultActive.Some? && snapshot.defaultActive.value in layout.TerminalUuids()
      then adopted.(activeTerminal := snapshot.defaultActive) else adopted;
    var normalized := focused.NormalizeActiveTerminal();
    var restores := Restores(layout, snapshot.panes);
    OpenResult(normalized.(layout := CarryCwds(layout, restores)), restores, ws.Leaves(), repair)
  }

  function OpenWorkspace(ws: Workspace, runtimeId: string, snapshot: Snapshot): OpenResult {
    match RenderLayoutFromSnapshot(snapshot)
    case Some(layout) => AdoptTree(ws, runtimeId, layout, snapshot)
    case None =>
      var (named, repair) := AdoptSnapshotName(ws.(runtimeId := Some(runtimeId)), snapshot);
      OpenResult(named, [], named.Leaves(), repair)
  }

  function ApplyWorkspaceOpened(w: Window, workspaceId: string, runtimeId: string, snapshot: Snapshot):
    (Window, Option<OpenResult>)
  {
    match FindWorkspace(w.workspaces, workspaceId)
    case None => (w, None)
    case Some(i) =>
      var result := OpenWorkspace(w.workspaces[i], runtimeId, snapshot);
      (Rebuilt(w.(workspaces := w.workspaces[i := result.session])), Some(result))
  }

  // ---------------------------------------------------------------- panes created and closed

  datatype PaneRekey = PaneRekey(workspaceId: string, oldUuid: string, newUuid: string)

  function ApplyPaneCreated(w: Window, workspaceId: string, terminal: string, runtimeId: string, paneId: string):
    (Window, Option<PaneRekey>)
  {
    match FindWorkspace(w.workspaces, workspaceId)
    case None => (w, None)
    case Some(i) =>
      if !w.workspaces[i].layout.ContainsTerminal(terminal) then (w, None)
      else
        var bound := w.workspaces[i].(runtimeId := Some(runtimeId)).ReplaceTerminalUuid(terminal, paneId);
        (Rebuilt(w.(workspaces := w.workspaces[i := bound])), Some(PaneRekey(workspaceId, terminal, paneId)))
  }

  function ClosePane(ws: Workspace, layout: LayoutNode): Workspace {
    ws.(layout := layout).PruneRecovery().NormalizeActiveTerminal()
  }

  function ApplyPaneClosed(w: Window, workspaceId: string, terminal: string): (Window, Option<Workspace>) {
    match FindWorkspace(w.workspaces, workspaceId)
    case None => (w, None)
    case Some(i) =>
      match w.workspaces[i].layout.RemoveTerminal(terminal)
      case None => (w, None)
      case Some(layout) =>
        var closed := ClosePane(w.workspaces[i], layout);
        (Rebuilt(w.(workspaces := w.workspaces[i := closed])), Some(closed))
  }

  // ---------------------------------------------------------------- inventory recovery

  datatype PaneInfo = PaneInfo(id: Option<string>, title: string, cwd: string)

  datatype WorkspaceInfo = WorkspaceInfo(
    id: Option<string>, name: string, policy: Option<Policy>, userRenamed: bool, panes: seq<PaneInfo>)

  function NonEmpty(s: string): Option<string> {
    if s == "" then None else Some(s)
  }

  // `minted` stands for the ids the client draws for panes whose id is malformed.
  function InventoryTerminal(pane: PaneInfo, minted: string): LayoutNode {
    Terminal(if pane.id.Some? then pane.id.value else minted, None, NonEmpty(pane.cwd), NonEmpty(pane.title))
  }

  function LayoutFromInventory(panes: seq<PaneInfo>, mint: nat -> string): LayoutNode {
    if |panes| == 0 then Terminal(mint(0), None, None, None)
    else if |panes| == 1 then InventoryTerminal(panes[0], mint(0))
    else
      var last := |panes| - 1;
      Split(Horizontal, 0.5, LayoutFromInventory(panes[..last], mint), InventoryTerminal(panes[last], mint(last)))
  }

  function InventoryWorkspaceId(endpoint: Endpoint, runtimeId: string): string {
    "inventory:" + endpoint.Key() + ":" + runtimeId
  }

  function RecoveredWorkspace(endpoint: Endpoint, info: WorkspaceInfo, mint: nat -> string): Option<Workspace> {
    if info.id.None? then None
    else
      var layout := LayoutFromInventory(info.panes, mint);
      var leaves := layout.TerminalUuids();
      Some(Workspace(
        InventoryWorkspaceId(endpoint, info.id.value),
        info.name,
        layout,
        map uuid | uuid in leaves :: EmptyShell,
        Some(leaves[0]),
        None,
        true,
        endpoint,
        if info.policy == Some(Ephemeral) then Ephemeral else Persistent,
        info.id,
        info.userRenamed))
  }

  // The runtimes an endpoint's managed workspaces are bound to.
  function KnownRuntimeIds(workspaces: seq<Workspace>, endpoint: Endpoint): set<string> {
    set ws | ws in workspaces && ws.managed && ws.endpoint == endpoint && ws.runtimeId.Some? :: ws.runtimeId.value
  }

  // The ids minted for the panes of one entry.
  function MintAt(mint: (nat, nat) -> string, k: nat): nat -> string {
    (j: nat) => mint(k, j)
  }

  // The workspaces recovered from the first n entries of an inventory.
  function Recovered(endpoint: Endpoint, infos: seq<WorkspaceInfo>, known: set<string>, dismissed: set<string>,
                     mint: (nat, nat) -> string, n: nat): seq<Workspace>
    requires n <= |infos|
  {
    if n == 0 then []
    else
      var earlier := Recovered(endpoint, infos, known, dismissed, mint, n - 1);
      match RecoveredWorkspace(endpoint, infos[n - 1], MintAt(mint, n - 1))
      case None => earlier
      case Some(ws) =>
        var id := infos[n - 1].id.value;
        if id in dismissed || id in known || id in RuntimeIds(earlier) then earlier else earlier + [ws]
  }

  function RuntimeIds(workspaces: seq<Workspace>): set<string> {
    set ws | ws in workspaces && ws.runtimeId.Some? :: ws.runtimeId.value
  }

  function ApplyRecovery(w: Window, endpoint: Endpoint, infos: seq<WorkspaceInfo>, mint: (nat, nat) -> string):
    (Window, seq<Workspace>)
  {
    var recovered := Recovered(endpoint, infos, KnownRuntimeIds(w.workspaces, endpoint), w.dismissed, mint, |infos|);
    var grown := w.(workspaces := w.workspaces + recovered);
    (if recovered == [] then grown else Rebuilt(grown), recovered)
  }

  function ListedIds(infos: seq<WorkspaceInfo>): set<string> {
    set info | info in infos && info.id.Some? :: info.id.value
  }

  // ---------------------------------------------------------------- endpoint events

  datatype Status = Starting | Connecting | Connected | Disconnected | OtherStatus(text: string)

  datatype EndpointEvent =
    | WorkspaceConnectionChanged(workspaceId: string, status: Status)
    | WorkspaceOpened(workspaceId: string, runtimeId: string, snapshot: Snapshot)
    | PaneCreated(workspaceId: string, terminal: string, runtimeId: string, paneId: string)
    | PaneClosed(workspaceId: string, terminal: string)
    | WorkspaceDetached(workspaceId: string)
    | WorkspaceTerminated(workspaceId: string)
    | InventoryLoaded(endpoint: Endpoint, infos: seq<WorkspaceInfo>)
    | WorkspaceResynced(workspaceId: string, snapshot: Snapshot)
    | OtherEvent

  datatype StatusUpdate = StatusUpdate(workspaceId: string, status: Status)

  datatype Transition = Transition(
    recovered: seq<Workspace>,
    rebuilt: seq<(string, Workspace)>,
    paneCreateRequests: seq<string>,
    restores: seq<PaneRestore>,
    connectedTerminals: seq<string>,
    terminalsToRecover: seq<string>,
    removedTerminals: seq<string>,
    rekeys: seq<PaneRekey>,
    statusUpdates: seq<StatusUpdate>,
    persist: bool,
    nameRepairs: seq<NameRepair>)

  const NOTHING := Transition([], [], [], [], [], [], [], [], [], false, [])

  // The members of `old_` missing from `new_`, in order.
  function Missing(old_: seq<string>, new_: seq<string>): seq<string> {
    if old_ == [] then []
    else (if old_[0] in new_ then [] else [old_[0]]) + Missing(old_[1..], new_)
  }

  function OpenedTransition(workspaceId: string, result: OpenResult): Transition {
    NOTHING.(
      rebuilt := [(workspaceId, result.session)],
      restores := result.restores,
      removedTerminals := Missing(result.previousTerminals, result.session.Leaves()),
      persist := true,
      nameRepairs := if result.nameRepair.Some? then [result.nameRepair.value] else [])
  }

  function CreatedTransition(workspaceId: string, rekey: PaneRekey): Transition {
    NOTHING.(
      connectedTerminals := [rekey.newUuid],
      terminalsToRecover := [rekey.newUuid],
      rekeys := if rekey.oldUuid != rekey.newUuid then [rekey] else [],
      statusUpdates := [StatusUpdate(workspaceId, Connected)])
  }

  function ConnectingUpdates(recovered: seq<Workspace>): seq<StatusUpdate> {
    seq(|recovered|, i requires 0 <= i < |recovered| => StatusUpdate(recovered[i].uuid, Connecting))
  }

  function ApplyTerminated(w: Window, workspaceId: string): Window {
    match FindWorkspace(w.workspaces, workspaceId)
    case None => w
    case Some(i) => w.(workspaces := w.workspaces[i := w.workspaces[i].(runtimeId := None)])
  }

  // An inventory also forgets dismissals of runtimes it does not list.
  function ApplyInventory(w: Window, endpoint: Endpoint, infos: seq<WorkspaceInfo>, mint: (nat, nat) -> string):
    (Window, seq<Workspace>)
  {
    ApplyRecovery(w.(dismissed := w.dismissed * ListedIds(infos)), endpoint, infos, mint)
  }

  function ResyncRestores(w: Window, workspaceId: string, snapshot: Snapshot): seq<PaneRestore> {
    match FindWorkspace(w.workspaces, workspaceId)
    case None => []
    case Some(i) => Restores(w.workspaces[i].layout, snapshot.panes)
  }

  function Reconcile(w: Window, event: EndpointEvent, mint: (nat, nat) -> string): (Window, Transition) {
    match event
    case WorkspaceConnectionChanged(id, status) =>
      (w, NOTHING.(statusUpdates := [StatusUpdate(id, status)]))
    case WorkspaceOpened(id, runtimeId, snapshot) =>
      var (w', result) := ApplyWorkspaceOpened(w, id, runtimeId, snapshot);
      (w', if result.None? then NOTHING else OpenedTransition(id, result.value))
    case PaneCreated(id, terminal, runtimeId, paneId) =>
      var (w', rekey) := ApplyPaneCreated(w, id, terminal, runtimeId, paneId);
      (w', if rekey.None? then NOTHING else CreatedTransition(id, rekey.value))
    case PaneClosed(id, terminal) =>
      var (w', closed) := ApplyPaneClosed(w, id, terminal);
      (w', NOTHING.(removedTerminals := [terminal], rebuilt := if closed.Some? then [(id, closed.value)] else []))
    case WorkspaceDetached(id) =>
      (w, NOTHING.(statusUpdates := [StatusUpdate(id, Disconnected)]))
    case WorkspaceTerminated(id) =>
      (ApplyTerminated(w, id), NOTHING.(statusUpdates := [StatusUpdate(id, Disconnected)]))
    case InventoryLoaded(endpoint, infos) =>
      var (w', recovered) := ApplyInventory(w, endpoint, infos, mint);
      (w', if recovered == [] then NOTHING
           else NOTHING.(recovered := recovered, statusUpdates := ConnectingUpdates(recovered), persist := true))
    case WorkspaceResynced(id, snapshot) =>
      (w, NOTHING.(restores := ResyncRestores(w, id, snapshot)))
    case OtherEvent => (w, NOTHING)
  }

  // ---------------------------------------------------------------- runs

  // One event of a run, with the ids the client mints while handling it.
  datatype Step = Step(event: EndpointEvent, mint: (nat, nat) -> string)

  function Run(w: Window, steps: seq<Step>): Window {
    if steps == [] then w
    else
      var before := Run(w, steps[..|steps| - 1]);
      Reconcile(before, steps[|steps| - 1].event, steps[|steps| - 1].mint).0
  }
}
