// A layout terminal is its daemon pane: what creating and closing panes does to the
// leaves of a workspace, to what refers to them, and to routing.
module PaneIdentityLaws {
  import opened Wrappers
  import opened Layout
  import opened WindowSpec

  // Leaves are distinct, the active terminal is one of them and only they have recipes.
  predicate WellFormed(ws: Workspace) {
    && Distinct(ws.Leaves())
    && ws.activeTerminal.Some? && ws.activeTerminal.value in ws.Leaves()
    && ws.recovery.Keys <= (set leaf | leaf in ws.Leaves())
  }

  predicate AllWellFormed(w: Window) {
    forall i | 0 <= i < |w.workspaces| :: WellFormed(w.workspaces[i])
  }

  // ---------------------------------------------------------------- creating a pane

  // A pane is acknowledged under a name no other terminal of the workspace bears.
  predicate FreshFor(ws: Workspace, terminal: string, paneId: string) {
    paneId == terminal || paneId !in ws.Leaves()
  }

  function Renamed(uuid: string, old_: string, new_: string): string {
    if uuid == old_ then new_ else uuid
  }

  // The leaf keeps its position under its new name, and recipe, focus and zoom follow it.
  predicate RekeyedInPlace(ws: Workspace, ws': Workspace, terminal: string, paneId: string)
    requires ws.activeTerminal.Some?
  {
    && |ws'.Leaves()| == |ws.Leaves()|
    && (forall k | 0 <= k < |ws.Leaves()| :: ws'.Leaves()[k] == Renamed(ws.Leaves()[k], terminal, paneId))
    && (forall leaf | leaf in ws.recovery ::
         var leaf' := Renamed(leaf, terminal, paneId);
         leaf' in ws'.recovery && ws'.recovery[leaf'] == ws.recovery[leaf])
    && ws'.activeTerminal == Some(Renamed(ws.activeTerminal.value, terminal, paneId))
    && (if ws.zoomedTerminal.None? then ws'.zoomedTerminal.None?
        else ws'.zoomedTerminal == Some(Renamed(ws.zoomedTerminal.value, terminal, paneId)))
  }

  lemma RekeyKeepsWellFormed(ws: Workspace, terminal: string, paneId: string)
    requires WellFormed(ws) && terminal in ws.Leaves() && FreshFor(ws, terminal, paneId)
    ensures var ws' := ws.ReplaceTerminalUuid(terminal, paneId);
            && WellFormed(ws') && RekeyedInPlace(ws, ws', terminal, paneId)
            && (terminal != paneId ==> terminal !in ws'.Leaves())
  {
    ReplaceRekeysOneLeaf(ws.layout, terminal, paneId);
    if terminal != paneId {
      RekeyInPlace(ws.Leaves(), terminal, paneId);
      var leaves' := ReplaceFirst(ws.Leaves(), terminal, paneId);
      forall leaf | leaf in ws.Leaves() && leaf != terminal
        ensures leaf in leaves'
      {
        var k :| 0 <= k < |ws.Leaves()| && ws.Leaves()[k] == leaf;
        assert leaves'[k] == leaf;
      }
    }
  }

  // An acknowledged pane replaces one leaf in place: the others keep their positions, and
  // recipe, focus and zoom follow it. Every other workspace is left alone.
  lemma PaneCreatedRekeysInPlace(w: Window, workspaceId: string, terminal: string, runtimeId: string, paneId: string,
                                 i: nat)
    requires FindWorkspace(w.workspaces, workspaceId) == Some(i)
    requires var ws := w.workspaces[i]; WellFormed(ws) && terminal in ws.Leaves() && FreshFor(ws, terminal, paneId)
    ensures var ws := w.workspaces[i];
            var after := ApplyPaneCreated(w, workspaceId, terminal, runtimeId, paneId).0.workspaces;
            && |after| == |w.workspaces|
            && (forall j | 0 <= j < |after| && j != i :: after[j] == w.workspaces[j])
            && WellFormed(after[i]) && after[i].runtimeId == Some(runtimeId)
            && RekeyedInPlace(ws, after[i], terminal, paneId)
  {
    var ws := w.workspaces[i];
    var bound := ws.(runtimeId := Some(runtimeId));
    ContainsIffLeaf(ws.layout, terminal);
    RekeyKeepsWellFormed(bound, terminal, paneId);
    assert ApplyPaneCreated(w, workspaceId, terminal, runtimeId, paneId).0.workspaces
        == w.workspaces[i := bound.ReplaceTerminalUuid(terminal, paneId)];
  }

  lemma RekeyMovesRecipes(ws: Workspace, terminal: string, paneId: string, leaf: string)
    requires WellFormed(ws) && terminal in ws.Leaves() && FreshFor(ws, terminal, paneId) && leaf in ws.Leaves()
    ensures Renamed(leaf, terminal, paneId) in ws.ReplaceTerminalUuid(terminal, paneId).recovery
            <==> leaf in ws.recovery
  {
    ReplaceRekeysOneLeaf(ws.layout, terminal, paneId);
  }

  // And a terminal has a recipe after it exactly if it had one before.
  lemma PaneCreatedMovesRecipes(w: Window, workspaceId: string, terminal: string, runtimeId: string, paneId: string,
                                i: nat, leaf: string)
    requires FindWorkspace(w.workspaces, workspaceId) == Some(i) && leaf in w.workspaces[i].Leaves()
    requires var ws := w.workspaces[i]; WellFormed(ws) && terminal in ws.Leaves() && FreshFor(ws, terminal, paneId)
    ensures var ws' := ApplyPaneCreated(w, workspaceId, terminal, runtimeId, paneId).0.workspaces[i];
            Renamed(leaf, terminal, paneId) in ws'.recovery <==> leaf in w.workspaces[i].recovery
  {
    ContainsIffLeaf(w.workspaces[i].layout, terminal);
    RekeyMovesRecipes(w.workspaces[i].(runtimeId := Some(runtimeId)), terminal, paneId, leaf);
  }

  // ---------------------------------------------------------------- routing

  predicate ShownElsewhere(workspaces: seq<Workspace>, i: nat, terminal: string) {
    exists j :: 0 <= j < |workspaces| && j != i && workspaces[j].managed && terminal in workspaces[j].Leaves()
  }

  lemma {:induction false} BindingOfOnlyOwner(workspaces: seq<Workspace>, i: nat, terminal: string)
    requires i < |workspaces| && workspaces[i].managed && !ShownElsewhere(workspaces, i, terminal)
    ensures ManagedTerminalBinding(workspaces, terminal)
            == if terminal in workspaces[i].Leaves() && workspaces[i].runtimeId.Some?
               then Some(Binding(workspaces[i].uuid, workspaces[i].endpoint, workspaces[i].runtimeId.value, terminal))
               else None
  {
    ContainsIffLeaf(workspaces[0].layout, terminal);
    if i > 0 {
      assert forall j | 0 <= j < |workspaces[1..]| :: workspaces[1..][j] == workspaces[j + 1];
      BindingOfOnlyOwner(workspaces[1..], i - 1, terminal);
    } else if terminal !in workspaces[0].Leaves() {
      BindingOfNobody(workspaces[1..], terminal);
    }
  }

  lemma {:induction false} BindingOfNobody(workspaces: seq<Workspace>, terminal: string)
    requires forall j | 0 <= j < |workspaces| :: !(workspaces[j].managed && terminal in workspaces[j].Leaves())
    ensures ManagedTerminalBinding(workspaces, terminal) == None
  {
    if workspaces != [] {
      ContainsIffLeaf(workspaces[0].layout, terminal);
      BindingOfNobody(workspaces[1..], terminal);
    }
  }

  // After the acknowledgement the daemon's id routes to itself, through the acknowledged
  // runtime, and the client's old id routes nowhere.
  lemma NewIdRoutesToItself(w: Window, workspaceId: string, terminal: string, runtimeId: string, paneId: string, i: nat)
    requires FindWorkspace(w.workspaces, workspaceId) == Some(i) && terminal != paneId
    requires var ws := w.workspaces[i];
             ws.managed && WellFormed(ws) && terminal in ws.Leaves() && FreshFor(ws, terminal, paneId)
    requires !ShownElsewhere(w.workspaces, i, terminal) && !ShownElsewhere(w.workspaces, i, paneId)
    ensures var after := ApplyPaneCreated(w, workspaceId, terminal, runtimeId, paneId).0.workspaces;
            && ManagedTerminalBinding(after, paneId)
               == Some(Binding(w.workspaces[i].uuid, w.workspaces[i].endpoint, runtimeId, paneId))
            && ManagedTerminalBinding(after, terminal) == None
  {
    var after := ApplyPaneCreated(w, workspaceId, terminal, runtimeId, paneId).0.workspaces;
    var ws := w.workspaces[i];
    PaneCreatedRekeysInPlace(w, workspaceId, terminal, runtimeId, paneId, i);
    RekeyKeepsWellFormed(ws.(runtimeId := Some(runtimeId)), terminal, paneId);
    ContainsIffLeaf(ws.layout, terminal);
    var k :| 0 <= k < |ws.Leaves()| && ws.Leaves()[k] == terminal;
    assert after[i].Leaves()[k] == paneId;
    BindingOfOnlyOwner(after, i, paneId);
    BindingOfOnlyOwner(after, i, terminal);
  }

  // ---------------------------------------------------------------- replayed acknowledgements

  // Delivering the same acknowledgement twice is delivering it once, exactly when the old
  // name stood for a single leaf.
  lemma ReplayIsNoOpIffSingleLeaf(w: Window, workspaceId: string, terminal: string, runtimeId: string, paneId: string,
                                  i: nat)
    requires FindWorkspace(w.workspaces, workspaceId) == Some(i)
    requires terminal in w.workspaces[i].Leaves() && terminal != paneId
    ensures var once := ApplyPaneCreated(w, workspaceId, terminal, runtimeId, paneId).0;
            ApplyPaneCreated(once, workspaceId, terminal, runtimeId, paneId).0 == once
            <==> Occurrences(w.workspaces[i].Leaves(), terminal) == 1
  {
    var ws := w.workspaces[i];
    var once := ApplyPaneCreated(w, workspaceId, terminal, runtimeId, paneId).0;
    var twice := ApplyPaneCreated(once, workspaceId, terminal, runtimeId, paneId).0;
    ContainsIffLeaf(ws.layout, terminal);
    ReplaceRekeysOneLeaf(ws.layout, terminal, paneId);
    FindAfterUpdate(w.workspaces, workspaceId, i, once.workspaces[i]);
    var leaves := once.workspaces[i].Leaves();
    ReplaceFirstLeavesOneFewer(ws.Leaves(), terminal, paneId);
    OccursIffIn(leaves, terminal);
    ContainsIffLeaf(once.workspaces[i].layout, terminal);
    if terminal in leaves {
      ReplaceRekeysOneLeaf(once.workspaces[i].layout, terminal, paneId);
      ReplaceFirstLeavesOneFewer(leaves, terminal, paneId);
      assert Occurrences(twice.workspaces[i].Leaves(), terminal) != Occurrences(leaves, terminal);
    }
  }

  // Replacing a workspace under its own name does not change which one is found.
  lemma {:induction false} FindAfterUpdate(workspaces: seq<Workspace>, uuid: string, i: nat, ws: Workspace)
    requires FindWorkspace(workspaces, uuid) == Some(i) && ws.uuid == uuid
    ensures FindWorkspace(workspaces[i := ws], uuid) == Some(i)
  {
    if i > 0 {
      assert workspaces[i := ws][1..] == workspaces[1..][i - 1 := ws];
      FindAfterUpdate(workspaces[1..], uuid, i - 1, ws);
    }
  }

  // ---------------------------------------------------------------- closing a pane

  lemma {:induction false} WithoutKeepsDistinct(uuids: seq<string>, target: string)
    requires Distinct(uuids)
    ensures Distinct(Without(uuids, target))
  {
    if uuids != [] {
      WithoutKeepsDistinct(uuids[1..], target);
      WithoutMembers(uuids[1..], target);
      var rest := Without(uuids[1..], target);
      assert forall j | 0 <= j < |rest| :: rest[j] in uuids[1..];
      assert uuids[0] !in uuids[1..];
    }
  }

  // Closing removes the closed leaf and nothing else; focus moves only if it was there. Zoom
  // does not move: it stays on a leaf exactly when the closed pane was not the zoomed one.
  lemma PaneClosedRemovesOnlyThatLeaf(w: Window, workspaceId: string, terminal: string, i: nat)
    requires FindWorkspace(w.workspaces, workspaceId) == Some(i) && WellFormed(w.workspaces[i])
    requires Without(w.workspaces[i].Leaves(), terminal) != []
    ensures var ws := w.workspaces[i];
            var after := ApplyPaneClosed(w, workspaceId, terminal).0.workspaces;
            && |after| == |w.workspaces|
            && (forall j | 0 <= j < |after| && j != i :: after[j] == w.workspaces[j])
            && WellFormed(after[i])
            && after[i].Leaves() == Without(ws.Leaves(), terminal)
            && after[i].activeTerminal
               == (if ws.activeTerminal == Some(terminal) then Some(after[i].Leaves()[0]) else ws.activeTerminal)
            && after[i].recovery == (map leaf | leaf in ws.recovery && leaf != terminal :: ws.recovery[leaf])
            && after[i].zoomedTerminal == ws.zoomedTerminal
            && (ws.zoomedTerminal.Some? && ws.zoomedTerminal.value in ws.Leaves()
                ==> (after[i].zoomedTerminal.value in after[i].Leaves() <==> ws.zoomedTerminal != Some(terminal)))
  {
    var ws := w.workspaces[i];
    RemoveDropsOneName(ws.layout, terminal);
    WithoutMembers(ws.Leaves(), terminal);
    WithoutKeepsDistinct(ws.Leaves(), terminal);
    var layout := ws.layout.RemoveTerminal(terminal).value;
    ContainsIffLeaf(layout, ws.activeTerminal.value);
    assert terminal !in layout.TerminalUuids();
    var closed := ClosePane(ws, layout);
    assert closed.Leaves() == Without(ws.Leaves(), terminal);
    assert closed.recovery.Keys <= (set leaf | leaf in closed.Leaves());
  }

  // Closing the last pane changes nothing here, although it is reported as removed.
  lemma LastPaneStays(w: Window, workspaceId: string, terminal: string, i: nat, mint: (nat, nat) -> string)
    requires FindWorkspace(w.workspaces, workspaceId) == Some(i)
    requires Without(w.workspaces[i].Leaves(), terminal) == []
    ensures Reconcile(w, PaneClosed(workspaceId, terminal), mint).0 == w
    ensures Reconcile(w, PaneClosed(workspaceId, terminal), mint).1.removedTerminals == [terminal]
  {
    RemoveDropsOneName(w.workspaces[i].layout, terminal);
  }

  // ---------------------------------------------------------------- runs of creates and closes

  predicate CreatesOrCloses(w: Window, event: EndpointEvent) {
    match event
    case PaneCreated(id, terminal, _, paneId) =>
      var found := FindWorkspace(w.workspaces, id);
      found.Some? ==> FreshFor(w.workspaces[found.value], terminal, paneId)
    case PaneClosed(_, _) => true
    case _ => false
  }

  predicate FreshRun(w: Window, steps: seq<Step>) {
    steps == [] ||
    var n := |steps| - 1;
    FreshRun(w, steps[..n]) && CreatesOrCloses(Run(w, steps[..n]), steps[n].event)
  }

  lemma CreateOrCloseKeepsWellFormed(w: Window, step: Step)
    requires AllWellFormed(w) && CreatesOrCloses(w, step.event)
    ensures AllWellFormed(Reconcile(w, step.event, step.mint).0)
  {
    match step.event
    case PaneCreated(id, terminal, runtimeId, paneId) =>
      var found := FindWorkspace(w.workspaces, id);
      if found.Some? {
        ContainsIffLeaf(w.workspaces[found.value].layout, terminal);
        if terminal in w.workspaces[found.value].Leaves() {
          PaneCreatedRekeysInPlace(w, id, terminal, runtimeId, paneId, found.value);
        }
      }
    case PaneClosed(id, terminal) =>
      var found := FindWorkspace(w.workspaces, id);
      if found.Some? {
        if Without(w.workspaces[found.value].Leaves(), terminal) == [] {
          LastPaneStays(w, id, terminal, found.value, step.mint);
        } else {
          PaneClosedRemovesOnlyThatLeaf(w, id, terminal, found.value);
        }
      }
  }

  // Over every run of acknowledgements with fresh ids and closes, every workspace keeps
  // distinct leaves, a focused leaf and recipes for leaves only.
  lemma {:induction false} RunKeepsWellFormed(w: Window, steps: seq<Step>)
    requires AllWellFormed(w) && FreshRun(w, steps)
    ensures AllWellFormed(Run(w, steps))
  {
    if steps != [] {
      var n := |steps| - 1;
      RunKeepsWellFormed(w, steps[..n]);
      CreateOrCloseKeepsWellFormed(Run(w, steps[..n]), steps[n]);
    }
  }
}
