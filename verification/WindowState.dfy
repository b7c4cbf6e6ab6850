// The window state the client keeps and changes in place as endpoint events arrive.
module WindowStateModel {
  import opened Wrappers
  import opened Layout
  import opened WindowSpec

  class WindowState {
    var workspaces: seq<Workspace>
    var dismissedRuntimeIds: set<string>
    var paneReverseIndex: map<string, (string, string)>

    ghost function State(): Window
      reads this
    {
      Window(workspaces, dismissedRuntimeIds, paneReverseIndex)
    }

    constructor (workspaces: seq<Workspace>, dismissed: set<string>)
      ensures State() == Window(workspaces, dismissed, map[])
    {
      this.workspaces := workspaces;
      dismissedRuntimeIds := dismissed;
      paneReverseIndex := map[];
    }

    method DismissRuntime(runtimeId: string)
      modifies this`dismissedRuntimeIds
      ensures dismissedRuntimeIds == old(dismissedRuntimeIds) + {runtimeId}
    {
      dismissedRuntimeIds := dismissedRuntimeIds + {runtimeId};
    }

    method RebuildPaneReverseIndex()
      modifies this`paneReverseIndex
      ensures State() == Rebuilt(old(State()))
    {
      paneReverseIndex := map[];
      for i := 0 to |workspaces|
        invariant paneReverseIndex == BuildIndex(workspaces[..i])
      {
        assert workspaces[..i + 1][..i] == workspaces[..i];
        var session := workspaces[i];
        if session.managed {
          var endpointKey := session.endpoint.Key();
          var leaves := session.Leaves();
          ghost var base := paneReverseIndex;
          for j := 0 to |leaves|
            invariant paneReverseIndex == IndexLeaves(base, endpointKey, session.uuid, leaves[..j])
          {
            assert leaves[..j + 1][..j] == leaves[..j];
            paneReverseIndex := paneReverseIndex[PaneIndexKey(endpointKey, leaves[j]) := (session.uuid, leaves[j])];
          }
          assert leaves[..|leaves|] == leaves;
        }
      }
      assert workspaces[..|workspaces|] == workspaces;
    }

    method ApplyManagedPaneCreated(workspaceId: string, terminal: string, runtimeId: string, paneId: string)
      returns (rekey: Option<PaneRekey>)
      modifies this
      ensures (State(), rekey) == ApplyPaneCreated(old(State()), workspaceId, terminal, runtimeId, paneId)
    {
      var found := FindWorkspace(workspaces, workspaceId);
      if found.None? {
        return None;
      }
      var session := workspaces[found.value];
      if !session.layout.ContainsTerminal(terminal) {
        return None;
      }
      session := session.(runtimeId := Some(runtimeId));
      if terminal != paneId {
        session := session.ReplaceTerminalUuid(terminal, paneId);
      }
      workspaces := workspaces[found.value := session];
      RebuildPaneReverseIndex();
      rekey := Some(PaneRekey(workspaceId, terminal, paneId));
    }

    method ApplyManagedPaneClosed(workspaceId: string, terminal: string) returns (closed: Option<Workspace>)
      modifies this
      ensures (State(), closed) == ApplyPaneClosed(old(State()), workspaceId, terminal)
    {
      var found := FindWorkspace(workspaces, workspaceId);
      if found.None? {
        return None;
      }
      var session := workspaces[found.value];
      var remaining := session.layout.RemoveTerminal(terminal);
      if remaining.None? {
        return None;
      }
      session := session.(layout := remaining.value);
      session := session.PruneRecovery();
      session := session.NormalizeActiveTerminal();
      workspaces := workspaces[found.value := session];
      RebuildPaneReverseIndex();
      closed := Some(session);
    }

    // Adopts a layout rendered from the daemon's tree.
    method AdoptServerTree(workspaceId: string, runtimeId: string, layout: LayoutNode, snapshot: Snapshot)
      returns (result: Option<OpenResult>)
      requires RenderLayoutFromSnapshot(snapshot) == Some(layout)
      modifies this
      ensures (State(), result) == ApplyWorkspaceOpened(old(State()), workspaceId, runtimeId, snapshot)
    {
      var found := FindWorkspace(workspaces, workspaceId);
      if found.None? {
        return None;
      }
      var session := workspaces[found.value];
      session := session.(runtimeId := Some(runtimeId));
      var (named, nameRepair) := AdoptSnapshotName(session, snapshot);
      session := named;

      var previousTerminals := session.Leaves();
      session := session.(layout := layout);
      var terminals := session.Leaves();
      if snapshot.defaultActive.Some? && snapshot.defaultActive.value in terminals {
        session := session.(activeTerminal := snapshot.defaultActive);
      }
      session := session.NormalizeActiveTerminal();

      var restores := Restores(layout, snapshot.panes);
      var carried := layout;
      for i := 0 to |restores|
        invariant carried == CarryCwds(layout, restores[..i])
      {
        assert restores[..i + 1][..i] == restores[..i];
        if restores[i].cwd != "" {
          carried := carried.SetTerminalCwd(restores[i].layoutTerminal, Some(restores[i].cwd)).0;
        }
      }
      assert restores[..|restores|] == restores;
      session := session.(layout := carried);

      workspaces := workspaces[found.value := session];
      RebuildPaneReverseIndex();
      result := Some(OpenResult(session, restores, previousTerminals, nameRepair));
    }

    method ApplyManagedWorkspaceOpened(workspaceId: string, runtimeId: string, snapshot: Snapshot)
      returns (result: Option<OpenResult>)
      modifies this
      ensures (State(), result) == ApplyWorkspaceOpened(old(State()), workspaceId, runtimeId, snapshot)
    {
      var layout := RenderLayoutFromSnapshot(snapshot);
      if layout.Some? {
        result := AdoptServerTree(workspaceId, runtimeId, layout.value, snapshot);
        return;
      }
      // No tree: keep the placeholder layout and record the runtime.
      var found := FindWorkspace(workspaces, workspaceId);
      if found.None? {
        return None;
      }
      var session := workspaces[found.value];
      session := session.(runtimeId := Some(runtimeId));
      var (named, nameRepair) := AdoptSnapshotName(session, snapshot);
      workspaces := workspaces[found.value := named];
      RebuildPaneReverseIndex();
      result := Some(OpenResult(named, [], named.Leaves(), nameRepair));
    }

    method RecoverManagedWorkspacesFromInventory(endpoint: Endpoint, infos: seq<WorkspaceInfo>,
                                                 mint: (nat, nat) -> string)
      returns (recovered: seq<Workspace>)
      modifies this`workspaces, this`paneReverseIndex
      ensures (State(), recovered) == ApplyRecovery(old(State()), endpoint, infos, mint)
    {
      ghost var known0 := KnownRuntimeIds(workspaces, endpoint);
      var known := KnownRuntimeIds(workspaces, endpoint);
      recovered := [];
      for i := 0 to |infos|
        invariant recovered == Recovered(endpoint, infos, known0, dismissedRuntimeIds, mint, i)
        invariant known == known0 + RuntimeIds(recovered)
        invariant workspaces == old(workspaces) + recovered
        invariant paneReverseIndex == old(paneReverseIndex)
      {
        var session := RecoveredWorkspace(endpoint, infos[i], MintAt(mint, i));
        OneMoreRecovered(endpoint, infos, known0, dismissedRuntimeIds, mint, i, session);
        if session.None? || session.value.runtimeId.value in dismissedRuntimeIds + known {
          continue;
        }
        known := known + {session.value.runtimeId.value};
        workspaces := workspaces + [session.value];
        recovered := recovered + [session.value];
      }
      if recovered != [] {
        RebuildPaneReverseIndex();
      }
    }

    method ReconcileEndpointEvent(event: EndpointEvent, mint: (nat, nat) -> string) returns (transition: Transition)
      modifies this
      ensures (State(), transition) == Reconcile(old(State()), event, mint)
    {
      transition := NOTHING;
      match event
      case WorkspaceConnectionChanged(id, status) =>
        transition := transition.(statusUpdates := [StatusUpdate(id, status)]);
      case WorkspaceOpened(id, runtimeId, snapshot) =>
        var result := ApplyManagedWorkspaceOpened(id, runtimeId, snapshot);
        if result.Some? {
          transition := OpenedTransition(id, result.value);
        }
      case PaneCreated(id, terminal, runtimeId, paneId) =>
        var rekey := ApplyManagedPaneCreated(id, terminal, runtimeId, paneId);
        if rekey.Some? {
          transition := CreatedTransition(id, rekey.value);
        }
      case PaneClosed(id, terminal) =>
        var closed := ApplyManagedPaneClosed(id, terminal);
        transition := transition.(removedTerminals := [terminal]);
        if closed.Some? {
          transition := transition.(rebuilt := [(id, closed.value)]);
        }
      case WorkspaceDetached(id) =>
        transition := transition.(statusUpdates := [StatusUpdate(id, Disconnected)]);
      case WorkspaceTerminated(id) =>
        var found := FindWorkspace(workspaces, id);
        if found.Some? {
          workspaces := workspaces[found.value := workspaces[found.value].(runtimeId := None)];
        }
        transition := transition.(statusUpdates := [StatusUpdate(id, Disconnected)]);
      case InventoryLoaded(endpoint, infos) =>
        dismissedRuntimeIds := dismissedRuntimeIds * ListedIds(infos);
        var recovered := RecoverManagedWorkspacesFromInventory(endpoint, infos, mint);
        if recovered != [] {
          transition := transition.(
            recovered := recovered, statusUpdates := ConnectingUpdates(recovered), persist := true);
        }
      case WorkspaceResynced(id, snapshot) =>
        var now := Window(workspaces, dismissedRuntimeIds, paneReverseIndex);
        transition := transition.(restores := ResyncRestores(now, id, snapshot));
      case OtherEvent =>
    }
  }

  lemma OneMoreRecovered(endpoint: Endpoint, infos: seq<WorkspaceInfo>, known: set<string>, dismissed: set<string>,
                         mint: (nat, nat) -> string, i: nat, session: Option<Workspace>)
    requires i < |infos| && session == RecoveredWorkspace(endpoint, infos[i], MintAt(mint, i))
    ensures session.Some? ==> session.value.runtimeId.Some?
    ensures var earlier := Recovered(endpoint, infos, known, dismissed, mint, i);
            Recovered(endpoint, infos, known, dismissed, mint, i + 1)
            == if session.None? || session.value.runtimeId.value in dismissed + (known + RuntimeIds(earlier))
               then earlier
               else earlier + [session.value]
    ensures var earlier := Recovered(endpoint, infos, known, dismissed, mint, i);
            session.Some?
            ==> RuntimeIds(earlier + [session.value]) == RuntimeIds(earlier) + {session.value.runtimeId.value}
  {
    if session.Some? {
      RuntimeIdsGrow(Recovered(endpoint, infos, known, dismissed, mint, i), session.value,
                     session.value.runtimeId.value);
    }
  }

  lemma RuntimeIdsGrow(earlier: seq<Workspace>, ws: Workspace, id: string)
    requires ws.runtimeId == Some(id)
    ensures RuntimeIds(earlier + [ws]) == RuntimeIds(earlier) + {id}
  {
    var grown := earlier + [ws];
    assert forall w :: w in grown <==> w in earlier || w == ws;
    assert id in RuntimeIds(grown) by { assert ws in grown; }
    forall x | x in RuntimeIds(earlier)
      ensures x in RuntimeIds(grown)
    {
      var w :| w in earlier && w.runtimeId == Some(x);
      assert w in grown;
    }
  }
}
