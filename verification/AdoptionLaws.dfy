// Attaching a workspace: the daemon's tree becomes the layout, whatever was there before,
// and every old pane is accounted for.
module AdoptionLaws {
  import opened Wrappers
  import opened Layout
  import opened WindowSpec
  import PaneIdentityLaws

  // ---------------------------------------------------------------- the adopted layout

  lemma {:induction false} CarryKeepsLeaves(layout: LayoutNode, restores: seq<PaneRestore>)
    ensures CarryCwds(layout, restores).TerminalUuids() == layout.TerminalUuids()
  {
    if restores != [] {
      var n := |restores| - 1;
      CarryKeepsLeaves(layout, restores[..n]);
      SetCwdKeepsLeaves(CarryCwds(layout, restores[..n]), restores[n].layoutTerminal, Some(restores[n].cwd));
    }
  }

  predicate HasTree(snapshot: Snapshot) {
    snapshot.tree.Some? && TreeLeaves(snapshot.tree.value) != []
  }

  // With a tree, the layout and the restores are the same for every workspace it is opened
  // in, and the leaves are the tree's panes in the tree's order.
  lemma AdoptionFollowsTheSnapshot(a: Workspace, b: Workspace, runtimeA: string, runtimeB: string, snapshot: Snapshot)
    requires HasTree(snapshot)
    ensures var left, right := OpenWorkspace(a, runtimeA, snapshot), OpenWorkspace(b, runtimeB, snapshot);
            && left.session.layout == right.session.layout && left.restores == right.restores
            && left.session.Leaves() == TreeLeaves(snapshot.tree.value)
            && left.session.runtimeId == Some(runtimeA)
  {
    AdoptedLeavesAreTreeLeaves(snapshot.tree.value);
    var layout := RenderLayoutFromSnapshot(snapshot).value;
    CarryKeepsLeaves(layout, Restores(layout, snapshot.panes));
  }

  // Focus lands on a leaf: the one the daemon names if it is shown, else the old one if it
  // is shown, else the first.
  lemma AdoptionFocusesALeaf(ws: Workspace, runtimeId: string, snapshot: Snapshot)
    requires HasTree(snapshot)
    ensures var leaves := TreeLeaves(snapshot.tree.value);
            var active := OpenWorkspace(ws, runtimeId, snapshot).session.activeTerminal;
            && active.Some? && active.value in leaves
            && active == (if snapshot.defaultActive.Some? && snapshot.defaultActive.value in leaves
                          then snapshot.defaultActive
                          else if ws.activeTerminal.Some? && ws.activeTerminal.value in leaves then ws.activeTerminal
                          else Some(leaves[0]))
  {
    AdoptedLeavesAreTreeLeaves(snapshot.tree.value);
    var layout := RenderLayoutFromSnapshot(snapshot).value;
    if snapshot.defaultActive.Some? {
      ContainsIffLeaf(layout, snapshot.defaultActive.value);
    }
    if ws.activeTerminal.Some? {
      ContainsIffLeaf(layout, ws.activeTerminal.value);
    }
  }

  // An attach changes nothing of a workspace but its runtime, layout, focus and name; the
  // name by the rule that a user's name here yields only to a user's name there, and is
  // repaired there otherwise.
  lemma OpenTouchesOnly(ws: Workspace, runtimeId: string, snapshot: Snapshot)
    ensures var result := OpenWorkspace(ws, runtimeId, snapshot);
            var keepsName := snapshot.name == "" || (ws.userRenamed && !snapshot.userRenamed);
            && result.session == ws.(runtimeId := Some(runtimeId), layout := result.session.layout,
                                     activeTerminal := result.session.activeTerminal,
                                     name := if keepsName then ws.name else snapshot.name,
                                     userRenamed := if keepsName then ws.userRenamed else snapshot.userRenamed)
            && (!HasTree(snapshot) ==> result.session.layout == ws.layout
                                       && result.session.activeTerminal == ws.activeTerminal && result.restores == [])
            && result.nameRepair == (if snapshot.name != "" && ws.userRenamed && !snapshot.userRenamed
                                     then Some(NameRepair(ws.uuid, ws.endpoint, runtimeId, ws.name)) else None)
  {
    if snapshot.tree.Some? {
      AdoptedLeavesAreTreeLeaves(snapshot.tree.value);
    }
  }

  // ---------------------------------------------------------------- restores

  // The snapshot panes a set of leaves shows, in the snapshot's order.
  function ShownPanes(leaves: seq<string>, panes: seq<PaneSnapshot>): seq<string> {
    if panes == [] then []
    else (if panes[0].paneId.Some? && panes[0].paneId.value in leaves then [panes[0].paneId.value] else [])
         + ShownPanes(leaves, panes[1..])
  }

  function RestoredTerminals(restores: seq<PaneRestore>): seq<string> {
    seq(|restores|, i requires 0 <= i < |restores| => restores[i].layoutTerminal)
  }

  // Restores name exactly the snapshot panes the layout shows, on attach and on resync.
  lemma {:induction false} RestoresNameShownPanes(layout: LayoutNode, panes: seq<PaneSnapshot>)
    ensures RestoredTerminals(Restores(layout, panes)) == ShownPanes(layout.TerminalUuids(), panes)
    ensures forall r | r in Restores(layout, panes) :: r.layoutTerminal in layout.TerminalUuids()
  {
    if panes != [] {
      RestoresNameShownPanes(layout, panes[1..]);
      if panes[0].paneId.Some? {
        ContainsIffLeaf(layout, panes[0].paneId.value);
      }
    }
  }

  function PanesShown(leaves: seq<string>, panes: seq<PaneSnapshot>): seq<PaneSnapshot> {
    if panes == [] then []
    else (if panes[0].paneId.Some? && panes[0].paneId.value in leaves then [panes[0]] else [])
         + PanesShown(leaves, panes[1..])
  }

  // The restore tells all the snapshot says of the pane; its size modulo 2^16.
  predicate Restored(restore: PaneRestore, pane: PaneSnapshot) {
    && pane.paneId == Some(restore.layoutTerminal)
    && restore.title == pane.title && restore.cwd == pane.cwd && restore.outputSeq == pane.outputSeq
    && restore.scrollbackTail == pane.scrollbackTail && restore.scrollbackComplete == pane.scrollbackComplete
    && restore.modes == pane.modes
    && restore.cols < 0x1_0000 && (pane.cols - restore.cols) % 0x1_0000 == 0
    && restore.rows < 0x1_0000 && (pane.rows - restore.rows) % 0x1_0000 == 0
  }

  // There is one restore for each snapshot pane the layout shows, in the snapshot's order.
  lemma {:induction false} RestoresCarryPanes(layout: LayoutNode, panes: seq<PaneSnapshot>)
    ensures var restores, shown := Restores(layout, panes), PanesShown(layout.TerminalUuids(), panes);
            |restores| == |shown| && forall k | 0 <= k < |shown| :: Restored(restores[k], shown[k])
  {
    if panes != [] {
      RestoresCarryPanes(layout, panes[1..]);
      if panes[0].paneId.Some? {
        ContainsIffLeaf(layout, panes[0].paneId.value);
        SizeKept(panes[0].cols);
        SizeKept(panes[0].rows);
      }
    }
  }

  lemma SizeKept(n: nat)
    ensures Low16(n) < 0x1_0000 && (n - Low16(n)) % 0x1_0000 == 0
  {
    assert n == n / 0x1_0000 * 0x1_0000 + n % 0x1_0000;
  }

  // The last directory the restores report for a terminal.
  function LastCwd(restores: seq<PaneRestore>, terminal: string): Option<string> {
    if restores == [] then None
    else
      var last := restores[|restores| - 1];
      if last.layoutTerminal == terminal && last.cwd != "" then Some(last.cwd)
      else LastCwd(restores[..|restores| - 1], terminal)
  }

  lemma {:induction false} CarriedCwds(layout: LayoutNode, restores: seq<PaneRestore>, terminal: string)
    requires forall r | r in restores :: r.layoutTerminal in layout.TerminalUuids()
    ensures CarryCwds(layout, restores).TerminalCwd(terminal)
            == if LastCwd(restores, terminal).Some? then LastCwd(restores, terminal) else layout.TerminalCwd(terminal)
  {
    if restores != [] {
      var n := |restores| - 1;
      CarriedCwds(layout, restores[..n], terminal);
      CarryKeepsLeaves(layout, restores[..n]);
      SetCwdReadsBack(CarryCwds(layout, restores[..n]), restores[n].layoutTerminal, restores[n].cwd, terminal);
    }
  }

  lemma {:induction false} TreeLayoutHasNoCwds(tree: PaneTree, terminal: string)
    ensures LayoutFromPaneTree(tree).Some? ==> LayoutFromPaneTree(tree).value.TerminalCwd(terminal) == None
  {
    match tree
    case EmptyNode =>
    case Leaf(_) =>
    case Branch(_, _, left, right) =>
      if left.Some? {
        TreeLayoutHasNoCwds(left.value, terminal);
      }
      if right.Some? {
        TreeLayoutHasNoCwds(right.value, terminal);
      }
  }

  // Each terminal of an adopted tree carries the last directory the snapshot reports for it.
  lemma AdoptedTerminalsCarryDaemonCwds(ws: Workspace, runtimeId: string, snapshot: Snapshot, terminal: string)
    requires HasTree(snapshot)
    ensures var result := OpenWorkspace(ws, runtimeId, snapshot);
            result.session.layout.TerminalCwd(terminal) == LastCwd(result.restores, terminal)
  {
    AdoptedLeavesAreTreeLeaves(snapshot.tree.value);
    var layout := RenderLayoutFromSnapshot(snapshot).value;
    RestoresNameShownPanes(layout, snapshot.panes);
    CarriedCwds(layout, Restores(layout, snapshot.panes), terminal);
    TreeLayoutHasNoCwds(snapshot.tree.value, terminal);
  }

  // ---------------------------------------------------------------- removed panes

  // Of each name, the report holds every old occurrence or none, by whether it is still shown.
  lemma {:induction false} MissingAccountsForAll(old_: seq<string>, new_: seq<string>, uuid: string)
    ensures Occurrences(Missing(old_, new_), uuid) == if uuid in new_ then 0 else Occurrences(old_, uuid)
  {
    if old_ != [] {
      MissingAccountsForAll(old_[1..], new_, uuid);
      var rest := Missing(old_[1..], new_);
      assert ([old_[0]] + rest)[1..] == rest;
      assert [] + rest == rest;
    }
  }

  // And it keeps their order: it reports a list piece by piece.
  lemma {:induction false} MissingKeepsOrder(a: seq<string>, b: seq<string>, new_: seq<string>)
    ensures Missing(a + b, new_) == Missing(a, new_) + Missing(b, new_)
  {
    if a == [] {
      assert a + b == b;
    } else {
      assert (a + b)[1..] == a[1..] + b;
      MissingKeepsOrder(a[1..], b, new_);
    }
  }

  lemma {:induction false} NothingMissingFromItself(a: seq<string>, all: seq<string>)
    requires forall u | u in a :: u in all
    ensures Missing(a, all) == []
  {
    if a != [] {
      NothingMissingFromItself(a[1..], all);
    }
  }

  // An attach with a tree: what it changes, what it reports, and that it asks for no pane.
  lemma OpenAccountsForEveryPane(w: Window, workspaceId: string, runtimeId: string, snapshot: Snapshot,
                                 mint: (nat, nat) -> string, i: nat, uuid: string)
    requires HasTree(snapshot) && FindWorkspace(w.workspaces, workspaceId) == Some(i)
    ensures var (w', t) := Reconcile(w, WorkspaceOpened(workspaceId, runtimeId, snapshot), mint);
            && |w'.workspaces| == |w.workspaces|
            && (forall j | 0 <= j < |w.workspaces| && j != i :: w'.workspaces[j] == w.workspaces[j])
            && w'.workspaces[i].Leaves() == TreeLeaves(snapshot.tree.value)
            && t.rebuilt == [(workspaceId, w'.workspaces[i])]
            && t.paneCreateRequests == []
            && (forall r | r in t.restores :: r.layoutTerminal in w'.workspaces[i].Leaves())
            && t.removedTerminals == Missing(w.workspaces[i].Leaves(), w'.workspaces[i].Leaves())
            && Occurrences(t.removedTerminals, uuid)
               == (if uuid in w'.workspaces[i].Leaves() then 0 else Occurrences(w.workspaces[i].Leaves(), uuid))
  {
    var ws := w.workspaces[i];
    AdoptionFollowsTheSnapshot(ws, ws, runtimeId, runtimeId, snapshot);
    AdoptedLeavesAreTreeLeaves(snapshot.tree.value);
    RestoresNameShownPanes(RenderLayoutFromSnapshot(snapshot).value, snapshot.panes);
    MissingAccountsForAll(ws.Leaves(), TreeLeaves(snapshot.tree.value), uuid);
  }

  // ---------------------------------------------------------------- attaching again

  lemma AdoptingNameTwice(ws: Workspace, snapshot: Snapshot)
    ensures var once := AdoptSnapshotName(ws, snapshot);
            AdoptSnapshotName(once.0, snapshot) == once
  {
  }

  lemma OpeningTwice(ws: Workspace, runtimeId: string, snapshot: Snapshot)
    ensures var once := OpenWorkspace(ws, runtimeId, snapshot);
            var twice := OpenWorkspace(once.session, runtimeId, snapshot);
            && twice.session == once.session && twice.restores == once.restores && twice.nameRepair == once.nameRepair
            && twice.previousTerminals == once.session.Leaves()
  {
    var bound := ws.(runtimeId := Some(runtimeId));
    AdoptingNameTwice(bound, snapshot);
    match RenderLayoutFromSnapshot(snapshot)
    case None =>
    case Some(layout) =>
      var once := OpenWorkspace(ws, runtimeId, snapshot).session;
      var named := AdoptSnapshotName(bound, snapshot).0;
      assert AdoptSnapshotName(once, snapshot).0 == once.(name := named.name, userRenamed := named.userRenamed);
      ContainsIffLeaf(layout, layout.TerminalUuids()[0]);
      if once.activeTerminal.Some? {
        ContainsIffLeaf(layout, once.activeTerminal.value);
      }
      if snapshot.defaultActive.Some? {
        ContainsIffLeaf(layout, snapshot.defaultActive.value);
      }
  }

  // The same attach repeated changes nothing more and removes nothing.
  lemma ReopenIsNoOp(w: Window, workspaceId: string, runtimeId: string, snapshot: Snapshot,
                     mint: (nat, nat) -> string, i: nat)
    requires FindWorkspace(w.workspaces, workspaceId) == Some(i)
    ensures var event := WorkspaceOpened(workspaceId, runtimeId, snapshot);
            var (once, t1) := Reconcile(w, event, mint);
            var (twice, t2) := Reconcile(once, event, mint);
            && twice == once
            && t2.removedTerminals == [] && t2 == t1.(removedTerminals := [])
  {
    var ws := w.workspaces[i];
    var result := OpenWorkspace(ws, runtimeId, snapshot);
    OpeningTwice(ws, runtimeId, snapshot);
    PaneIdentityLaws.FindAfterUpdate(w.workspaces, workspaceId, i, result.session);
    var once := w.workspaces[i := result.session];
    assert once[i := result.session] == once;
    NothingMissingFromItself(result.session.Leaves(), result.session.Leaves());
  }
}
