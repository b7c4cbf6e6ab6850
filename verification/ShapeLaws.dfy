// What attaching, acknowledging, closing and recovering do to the shape of a workspace's
// layout: who its terminals are, and where any two of them part.
module ShapeLaws {
  import opened Wrappers
  import opened Layout
  import opened LayoutShape
  import opened WindowSpec
  import opened AdoptionLaws
  import opened RecoveryLaws

  // ---------------------------------------------------------------- attaching

  lemma {:induction false} CarryKeepsShape(layout: LayoutNode, restores: seq<PaneRestore>)
    ensures var layout' := CarryCwds(layout, restores);
            && SameShape(layout, layout')
            && (forall i | 0 <= i < |Terminals(layout)| ::
                  Terminals(layout')[i] == Terminals(layout)[i].(cwd := Terminals(layout')[i].cwd))
  {
    if restores != [] {
      var n := |restores| - 1;
      CarryKeepsShape(layout, restores[..n]);
      SetCwdKeepsShape(CarryCwds(layout, restores[..n]), restores[n].layoutTerminal, Some(restores[n].cwd));
    }
  }

  // Whatever layout was there before, the adopted one has the shape of the daemon's tree:
  // any two panes part where they do in the tree, the one way or the other and in the same
  // ratio, and its terminals have nothing but their names and directories.
  lemma AdoptedLayoutMirrorsTree(ws: Workspace, runtimeId: string, snapshot: Snapshot, i: nat, j: nat)
    requires HasTree(snapshot) && i < j < |TreeLeaves(snapshot.tree.value)|
    ensures var layout := OpenWorkspace(ws, runtimeId, snapshot).session.layout;
            && layout.TerminalUuids() == TreeLeaves(snapshot.tree.value)
            && StandsFor(LayoutParting(layout, i, j), TreeParting(snapshot.tree.value, i, j))
            && (forall t | t in Terminals(layout) :: t == Terminal(t.uuid, None, t.cwd, None))
  {
    AdoptedPartsAsTree(snapshot.tree.value, i, j);
    AdoptedTerminalsAreBare(snapshot.tree.value);
    var layout := RenderLayoutFromSnapshot(snapshot).value;
    CarryKeepsLeaves(layout, Restores(layout, snapshot.panes));
    CarryKeepsShape(layout, Restores(layout, snapshot.panes));
    var adopted := OpenWorkspace(ws, runtimeId, snapshot).session.layout;
    forall t | t in Terminals(adopted)
      ensures t == Terminal(t.uuid, None, t.cwd, None)
    {
      var k :| 0 <= k < |Terminals(adopted)| && Terminals(adopted)[k] == t;
      assert Terminals(layout)[k] in Terminals(layout);
    }
  }

  // ---------------------------------------------------------------- panes created and closed

  // Nothing else of the workspace changes, and the layout keeps its shape and whatever its
  // terminals have beside their names.
  lemma PaneCreatedKeepsShape(w: Window, workspaceId: string, terminal: string, runtimeId: string, paneId: string,
                              i: nat)
    requires FindWorkspace(w.workspaces, workspaceId) == Some(i) && terminal in w.workspaces[i].Leaves()
    ensures var ws := w.workspaces[i];
            var ws' := ApplyPaneCreated(w, workspaceId, terminal, runtimeId, paneId).0.workspaces[i];
            && ws' == ws.(runtimeId := Some(runtimeId), layout := ws'.layout, recovery := ws'.recovery,
                          activeTerminal := ws'.activeTerminal, zoomedTerminal := ws'.zoomedTerminal)
            && SameShape(ws.layout, ws'.layout)
            && (forall k | 0 <= k < |Terminals(ws.layout)| ::
                  Terminals(ws'.layout)[k] == Terminals(ws.layout)[k].(uuid := Terminals(ws'.layout)[k].uuid))
  {
    ContainsIffLeaf(w.workspaces[i].layout, terminal);
    RekeyKeepsShape(w.workspaces[i].layout, terminal, paneId);
    assert SameShape(w.workspaces[i].layout, w.workspaces[i].layout);
  }

  // Nothing else of the workspace changes, and the terminals that stay are as they were.
  lemma PaneClosedKeepsTheRest(w: Window, workspaceId: string, terminal: string, i: nat)
    requires FindWorkspace(w.workspaces, workspaceId) == Some(i)
    requires Without(w.workspaces[i].Leaves(), terminal) != []
    ensures var ws := w.workspaces[i];
            var ws' := ApplyPaneClosed(w, workspaceId, terminal).0.workspaces[i];
            && ws' == ws.(layout := ws'.layout, recovery := ws'.recovery, activeTerminal := ws'.activeTerminal)
            && ws.layout.RemoveTerminal(terminal) == Some(ws'.layout)
            && Terminals(ws'.layout) == StayingTerminals(Terminals(ws.layout), terminal)
  {
    RemoveDropsOneName(w.workspaces[i].layout, terminal);
    RemovalKeepsTerminals(w.workspaces[i].layout, terminal);
  }

  // Any two of them part where they did, at a node that spans what stays of its own.
  lemma PaneClosedKeepsPartings(w: Window, workspaceId: string, terminal: string, i: nat, p: nat, q: nat)
    requires FindWorkspace(w.workspaces, workspaceId) == Some(i) && p < q < |w.workspaces[i].Leaves()|
    requires w.workspaces[i].Leaves()[p] != terminal && w.workspaces[i].Leaves()[q] != terminal
    ensures var ws := w.workspaces[i];
            var layout := ApplyPaneClosed(w, workspaceId, terminal).0.workspaces[i].layout;
            var i', j' := Rank(ws.Leaves(), terminal, p), Rank(ws.Leaves(), terminal, q);
            && i' < j' < |layout.TerminalUuids()|
            && LayoutParting(layout, i', j') == Ranked(LayoutParting(ws.layout, p, q), ws.Leaves(), terminal)
  {
    RemovalKeepsPartings(w.workspaces[i].layout, terminal, p, q);
  }

  // ---------------------------------------------------------------- recovering from an inventory

  // Any two panes of a recovered layout part in a horizontal, even split, the later of them
  // against all before it.
  lemma {:induction false} RecoveredLayoutStacksPanes(panes: seq<PaneInfo>, mint: nat -> string, i: nat, j: nat)
    requires i < j < |panes|
    ensures var layout := LayoutFromInventory(panes, mint);
            && |layout.TerminalUuids()| == |panes|
            && LayoutParting(layout, i, j) == Parting(Horizontal, 0.5, 0, j, j + 1)
  {
    RecoveredLayoutListsPanes(panes, mint);
    var last := |panes| - 1;
    RecoveredLayoutListsPanes(panes[..last], mint);
    if j < last {
      RecoveredLayoutStacksPanes(panes[..last], mint, i, j);
    }
  }

  // Each terminal carries the directory and the title the inventory has for its pane.
  lemma {:induction false} RecoveredTerminals(panes: seq<PaneInfo>, mint: nat -> string, k: nat)
    requires k < |panes|
    ensures var terminals := Terminals(LayoutFromInventory(panes, mint));
            var pane := panes[k];
            && |terminals| == |panes|
            && terminals[k] == Terminal(if pane.id.Some? then pane.id.value else mint(k), None,
                                        if pane.cwd == "" then None else Some(pane.cwd),
                                        if pane.title == "" then None else Some(pane.title))
  {
    RecoveredLayoutListsPanes(panes, mint);
    if |panes| > 1 {
      var last := |panes| - 1;
      RecoveredLayoutListsPanes(panes[..last], mint);
      if k < last {
        RecoveredTerminals(panes[..last], mint, k);
      }
    }
  }
}
