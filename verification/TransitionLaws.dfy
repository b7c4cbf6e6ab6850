// What an endpoint event asks of the window, against what it did to the workspaces: every
// pane that comes, goes or changes its name is reported, and every report is true.
module TransitionLaws {
  import opened Wrappers
  import opened Layout
  import opened WindowSpec
  import opened AdoptionLaws

  // ---------------------------------------------------------------- every change is reported

  predicate IsRekeyed(t: Transition, workspaceId: string, old_: string, new_: string) {
    PaneRekey(workspaceId, old_, new_) in t.rekeys
  }

  // A name the workspace showed before and does not now was removed or changed.
  ghost predicate GoneIsReported(before: Workspace, after: Workspace, t: Transition, uuid: string) {
    uuid in before.Leaves() && uuid !in after.Leaves()
    ==> uuid in t.removedTerminals || exists new_ :: IsRekeyed(t, before.uuid, uuid, new_)
  }

  // A name it shows now and did not before is another's new one, or the whole workspace is
  // to be built again.
  ghost predicate NewIsReported(before: Workspace, after: Workspace, t: Transition, uuid: string) {
    uuid !in before.Leaves() && uuid in after.Leaves()
    ==> (before.uuid, after) in t.rebuilt || exists old_ :: IsRekeyed(t, before.uuid, old_, uuid)
  }

  lemma CreatedIsReported(w: Window, event: EndpointEvent, mint: (nat, nat) -> string, j: nat, uuid: string)
    requires event.PaneCreated? && j < |w.workspaces|
    ensures var (w', t) := Reconcile(w, event, mint);
            && |w'.workspaces| == |w.workspaces| && w'.workspaces[j].uuid == w.workspaces[j].uuid
            && GoneIsReported(w.workspaces[j], w'.workspaces[j], t, uuid)
            && NewIsReported(w.workspaces[j], w'.workspaces[j], t, uuid)
  {
    var found := FindWorkspace(w.workspaces, event.workspaceId);
    if found.Some? {
      var ws := w.workspaces[found.value];
      ContainsIffLeaf(ws.layout, event.terminal);
      ReplaceRekeysOneLeaf(ws.layout, event.terminal, event.paneId);
      if event.terminal in ws.Leaves() && event.terminal != event.paneId {
        ReplaceFirstMembers(ws.Leaves(), event.terminal, event.paneId, uuid);
        var t := Reconcile(w, event, mint).1;
        assert t.rekeys[0] == PaneRekey(event.workspaceId, event.terminal, event.paneId);
        assert IsRekeyed(t, ws.uuid, event.terminal, event.paneId);
      }
    }
  }

  lemma ClosedIsReported(w: Window, event: EndpointEvent, mint: (nat, nat) -> string, j: nat, uuid: string)
    requires event.PaneClosed? && j < |w.workspaces|
    ensures var (w', t) := Reconcile(w, event, mint);
            && |w'.workspaces| == |w.workspaces| && w'.workspaces[j].uuid == w.workspaces[j].uuid
            && GoneIsReported(w.workspaces[j], w'.workspaces[j], t, uuid)
            && NewIsReported(w.workspaces[j], w'.workspaces[j], t, uuid)
  {
    var found := FindWorkspace(w.workspaces, event.workspaceId);
    if found.Some? {
      RemoveDropsOneName(w.workspaces[found.value].layout, event.terminal);
      WithoutMembers(w.workspaces[found.value].Leaves(), event.terminal);
    }
  }

  lemma OpenedIsReported(w: Window, event: EndpointEvent, mint: (nat, nat) -> string, j: nat, uuid: string)
    requires event.WorkspaceOpened? && j < |w.workspaces|
    ensures var (w', t) := Reconcile(w, event, mint);
            && |w'.workspaces| == |w.workspaces| && w'.workspaces[j].uuid == w.workspaces[j].uuid
            && GoneIsReported(w.workspaces[j], w'.workspaces[j], t, uuid)
            && NewIsReported(w.workspaces[j], w'.workspaces[j], t, uuid)
  {
    var found := FindWorkspace(w.workspaces, event.workspaceId);
    if found.Some? {
      var ws := w.workspaces[found.value];
      var result := OpenWorkspace(ws, event.runtimeId, event.snapshot);
      OpenTouchesOnly(ws, event.runtimeId, event.snapshot);
      MissingHolds(ws.Leaves(), result.session.Leaves(), uuid);
      assert OpenedTransition(event.workspaceId, result).rebuilt[0] == (event.workspaceId, result.session);
    }
  }

  lemma {:induction false} MissingHolds(old_: seq<string>, new_: seq<string>, uuid: string)
    ensures uuid in Missing(old_, new_) <==> uuid in old_ && uuid !in new_
  {
    if old_ != [] {
      MissingHolds(old_[1..], new_, uuid);
      assert old_ == [old_[0]] + old_[1..];
    }
  }

  // Whatever the event: the workspaces there were stay, under their names, the recovered ones
  // come after them, and every pane that one of them no longer shows, or newly shows, is
  // reported.
  lemma EveryChangeIsReported(w: Window, event: EndpointEvent, mint: (nat, nat) -> string, j: nat, uuid: string)
    requires j < |w.workspaces|
    ensures var (w', t) := Reconcile(w, event, mint);
            && |w'.workspaces| == |w.workspaces| + |t.recovered|
            && w'.workspaces[|w.workspaces|..] == t.recovered
            && w'.workspaces[j].uuid == w.workspaces[j].uuid
            && GoneIsReported(w.workspaces[j], w'.workspaces[j], t, uuid)
            && NewIsReported(w.workspaces[j], w'.workspaces[j], t, uuid)
  {
    match event
    case PaneCreated(_, _, _, _) => CreatedIsReported(w, event, mint, j, uuid);
    case PaneClosed(_, _) => ClosedIsReported(w, event, mint, j, uuid);
    case WorkspaceOpened(_, _, _) => OpenedIsReported(w, event, mint, j, uuid);
    case _ =>
  }

  // ---------------------------------------------------------------- and nothing else is

  // An acknowledged pane is connected under its new name, which the workspace shows; if the
  // terminal is not shown, nothing happens.
  lemma CreatedAsks(w: Window, workspaceId: string, terminal: string, runtimeId: string, paneId: string,
                    mint: (nat, nat) -> string)
    ensures var (w', t) := Reconcile(w, PaneCreated(workspaceId, terminal, runtimeId, paneId), mint);
            var found := FindWorkspace(w.workspaces, workspaceId);
            if found.None? || terminal !in w.workspaces[found.value].Leaves() then (w', t) == (w, NOTHING)
            else && paneId in w'.workspaces[found.value].Leaves()
                 && t == NOTHING.(connectedTerminals := [paneId], terminalsToRecover := [paneId],
                                  statusUpdates := [StatusUpdate(workspaceId, Connected)],
                                  rekeys := if terminal == paneId then []
                                            else [PaneRekey(workspaceId, terminal, paneId)])
  {
    var found := FindWorkspace(w.workspaces, workspaceId);
    if found.Some? {
      var ws := w.workspaces[found.value];
      ContainsIffLeaf(ws.layout, terminal);
      ReplaceRekeysOneLeaf(ws.layout, terminal, paneId);
      if terminal in ws.Leaves() && terminal != paneId {
        ReplaceFirstMembers(ws.Leaves(), terminal, paneId, paneId);
      }
    }
  }

  // A close rebuilds the workspace unless the pane is its last.
  lemma ClosedAsks(w: Window, workspaceId: string, terminal: string, mint: (nat, nat) -> string)
    ensures var (w', t) := Reconcile(w, PaneClosed(workspaceId, terminal), mint);
            var found := FindWorkspace(w.workspaces, workspaceId);
            var stays := found.None? || Without(w.workspaces[found.value].Leaves(), terminal) == [];
            && (stays ==> w' == w)
            && t == NOTHING.(removedTerminals := [terminal],
                             rebuilt := if stays then [] else [(workspaceId, w'.workspaces[found.value])])
  {
    var found := FindWorkspace(w.workspaces, workspaceId);
    if found.Some? {
      RemoveDropsOneName(w.workspaces[found.value].layout, terminal);
    }
  }

  // An inventory announces each workspace it recovers as connecting, in order, and asks to
  // be remembered exactly if there is one.
  lemma InventoryAsks(w: Window, endpoint: Endpoint, infos: seq<WorkspaceInfo>, mint: (nat, nat) -> string)
    ensures var (w', t) := Reconcile(w, InventoryLoaded(endpoint, infos), mint);
            && w'.workspaces == w.workspaces + t.recovered
            && |t.statusUpdates| == |t.recovered|
            && (forall k | 0 <= k < |t.recovered| ::
                  t.statusUpdates[k] == StatusUpdate(t.recovered[k].uuid, Connecting))
            && t == NOTHING.(recovered := t.recovered, statusUpdates := t.statusUpdates, persist := t.recovered != [])
  {
  }

  // A termination unbinds the runtime of the workspace it names, and changes nothing else; a
  // detach changes nothing. Either is a disconnection.
  lemma EndingAsks(w: Window, workspaceId: string, mint: (nat, nat) -> string)
    ensures var (w', t) := Reconcile(w, WorkspaceTerminated(workspaceId), mint);
            var found := FindWorkspace(w.workspaces, workspaceId);
            && t == NOTHING.(statusUpdates := [StatusUpdate(workspaceId, Disconnected)])
            && Reconcile(w, WorkspaceDetached(workspaceId), mint) == (w, t)
            && |w'.workspaces| == |w.workspaces|
            && (forall i | 0 <= i < |w.workspaces| ::
                  w'.workspaces[i] == if found == Some(i) then w.workspaces[i].(runtimeId := None) else w.workspaces[i])
            && w' == w.(workspaces := w'.workspaces)
  {
  }

  // The restores are those of the snapshot panes these leaves show, in order.
  predicate RestoresOf(restores: seq<PaneRestore>, leaves: seq<string>, panes: seq<PaneSnapshot>) {
    var shown := PanesShown(leaves, panes);
    |restores| == |shown| && forall k | 0 <= k < |shown| :: Restored(restores[k], shown[k])
  }

  // An attach rebuilds its workspace, restores the panes the adopted tree shows, asks to be
  // remembered, and to repair the name where a user's here meets none there.
  lemma OpenedAsks(w: Window, workspaceId: string, runtimeId: string, snapshot: Snapshot, mint: (nat, nat) -> string,
                   i: nat)
    requires FindWorkspace(w.workspaces, workspaceId) == Some(i)
    ensures var (w', t) := Reconcile(w, WorkspaceOpened(workspaceId, runtimeId, snapshot), mint);
            var ws := w.workspaces[i];
            var repairs := snapshot.name != "" && ws.userRenamed && !snapshot.userRenamed;
            && t == NOTHING.(rebuilt := [(workspaceId, w'.workspaces[i])], restores := t.restores,
                             removedTerminals := t.removedTerminals, persist := true,
                             nameRepairs := if repairs then
                                 [NameRepair(ws.uuid, ws.endpoint, runtimeId, ws.name)] else [])
            && RestoresOf(t.restores, if HasTree(snapshot) then w'.workspaces[i].Leaves() else [], snapshot.panes)
  {
    var ws := w.workspaces[i];
    OpenTouchesOnly(ws, runtimeId, snapshot);
    if HasTree(snapshot) {
      AdoptionFollowsTheSnapshot(ws, ws, runtimeId, runtimeId, snapshot);
      AdoptedLeavesAreTreeLeaves(snapshot.tree.value);
      RestoresCarryPanes(RenderLayoutFromSnapshot(snapshot).value, snapshot.panes);
    } else {
      NothingShown(snapshot.panes);
    }
  }

  lemma {:induction false} NothingShown(panes: seq<PaneSnapshot>)
    ensures PanesShown([], panes) == []
  {
    if panes != [] {
      NothingShown(panes[1..]);
    }
  }

  // A resync changes no workspace, and restores the panes the one it names shows.
  lemma ResyncAsks(w: Window, workspaceId: string, snapshot: Snapshot, mint: (nat, nat) -> string)
    ensures var (w', t) := Reconcile(w, WorkspaceResynced(workspaceId, snapshot), mint);
            var found := FindWorkspace(w.workspaces, workspaceId);
            && w' == w && t == NOTHING.(restores := t.restores)
            && RestoresOf(t.restores, if found.Some? then w.workspaces[found.value].Leaves() else [], snapshot.panes)
  {
    var found := FindWorkspace(w.workspaces, workspaceId);
    if found.Some? {
      RestoresCarryPanes(w.workspaces[found.value].layout, snapshot.panes);
    } else {
      NothingShown(snapshot.panes);
    }
  }
}
