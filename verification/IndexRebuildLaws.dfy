// Which endpoint events leave the reverse pane index stale unless it is rebuilt, branch by
// branch, and which never do.
module IndexRebuildLaws {
  import opened Wrappers
  import opened Layout
  import opened WindowSpec
  import opened PaneIndexLaws
  import AdoptionLaws
  import opened RecoveryLaws

  // An acknowledged pane needs a rebuild exactly when it changes a name, and the workspace
  // decides on a name it loses or gains: the old one if it stood for a single leaf, the new
  // one if it was not shown yet.
  lemma CreatedNeedsRebuildIff(w: Window, workspaceId: string, terminal: string, runtimeId: string, paneId: string,
                               i: nat)
    requires IndexIsCurrent(w) && NulFree(w.workspaces) && '\0' !in paneId
    requires FindWorkspace(w.workspaces, workspaceId) == Some(i)
    ensures var leaves := w.workspaces[i].Leaves();
            var after := ApplyPaneCreated(w, workspaceId, terminal, runtimeId, paneId).0.workspaces;
            w.index != BuildIndex(after)
            <==> && terminal in leaves && terminal != paneId
                 && ((Occurrences(leaves, terminal) == 1 && Decides(w.workspaces, i, terminal))
                     || (paneId !in leaves && Decides(w.workspaces, i, paneId)))
  {
    var ws := w.workspaces[i];
    ContainsIffLeaf(ws.layout, terminal);
    if terminal in ws.Leaves() {
      var bound := ws.(runtimeId := Some(runtimeId)).ReplaceTerminalUuid(terminal, paneId);
      ReplaceRekeysOneLeaf(ws.layout, terminal, paneId);
      if terminal == paneId {
        SameLeavesNeedNoRebuild(w.workspaces, i, bound);
      } else {
        RekeyedShows(ws, bound, terminal, paneId);
        StaleIffShowsOtherPanes(w.workspaces, i, bound);
        assert ShownByOne(ws, bound, terminal) <==> Occurrences(ws.Leaves(), terminal) == 1;
        assert ShownByOne(ws, bound, paneId) <==> paneId !in ws.Leaves();
      }
    }
  }

  lemma SameLeavesNeedNoRebuild(workspaces: seq<Workspace>, i: nat, ws: Workspace)
    requires i < |workspaces| && SameOwner(workspaces[i], ws) && ws.Leaves() == workspaces[i].Leaves()
    ensures BuildIndex(workspaces[i := ws]) == BuildIndex(workspaces)
  {
    SameRoutingSameIndex(workspaces[i := ws], workspaces);
  }

  lemma RekeyedShows(ws: Workspace, bound: Workspace, terminal: string, paneId: string)
    requires terminal in ws.Leaves() && terminal != paneId && '\0' !in paneId
    requires forall leaf | leaf in ws.Leaves() :: '\0' !in leaf
    requires bound.Leaves() == ReplaceFirst(ws.Leaves(), terminal, paneId)
    ensures forall u :: ShownByOne(ws, bound, u)
                        <==> || (u == terminal && Occurrences(ws.Leaves(), terminal) == 1)
                             || (u == paneId && paneId !in ws.Leaves())
    ensures NulFree([bound])
  {
    OccursIffIn(ws.Leaves(), terminal);
    forall u
      ensures u in bound.Leaves()
              <==> u == paneId || (u in ws.Leaves() && (u == terminal ==> Occurrences(ws.Leaves(), terminal) > 1))
    {
      ReplaceFirstMembers(ws.Leaves(), terminal, paneId, u);
    }
  }

  // A closed pane needs one exactly when it is not the last of its workspace, was shown by
  // it, and the workspace decides on it.
  lemma ClosedNeedsRebuildIff(w: Window, workspaceId: string, terminal: string, i: nat)
    requires IndexIsCurrent(w) && NulFree(w.workspaces)
    requires FindWorkspace(w.workspaces, workspaceId) == Some(i)
    ensures var leaves := w.workspaces[i].Leaves();
            var after := ApplyPaneClosed(w, workspaceId, terminal).0.workspaces;
            w.index != BuildIndex(after)
            <==> Without(leaves, terminal) != [] && terminal in leaves && Decides(w.workspaces, i, terminal)
  {
    var ws := w.workspaces[i];
    RemoveDropsOneName(ws.layout, terminal);
    if Without(ws.Leaves(), terminal) != [] {
      var closed := ClosePane(ws, ws.layout.RemoveTerminal(terminal).value);
      assert closed.Leaves() == Without(ws.Leaves(), terminal);
      WithoutMembers(ws.Leaves(), terminal);
      assert forall u :: ShownByOne(ws, closed, u) <==> u == terminal && terminal in ws.Leaves();
      StaleIffShowsOtherPanes(w.workspaces, i, closed);
    }
  }

  // An attach with a tree needs one exactly when the workspace decides on a pane that only
  // its old layout or only the tree shows.
  lemma AdoptedNeedsRebuildIff(w: Window, workspaceId: string, runtimeId: string, snapshot: Snapshot, i: nat)
    requires IndexIsCurrent(w) && NulFree(w.workspaces) && AdoptionLaws.HasTree(snapshot)
    requires forall leaf | leaf in TreeLeaves(snapshot.tree.value) :: '\0' !in leaf
    requires FindWorkspace(w.workspaces, workspaceId) == Some(i)
    ensures var after := ApplyWorkspaceOpened(w, workspaceId, runtimeId, snapshot).0.workspaces;
            w.index != BuildIndex(after)
            <==> exists paneId ::
                   && (paneId in w.workspaces[i].Leaves() <==> paneId !in TreeLeaves(snapshot.tree.value))
                   && Decides(w.workspaces, i, paneId)
  {
    var ws := w.workspaces[i];
    var session := OpenWorkspace(ws, runtimeId, snapshot).session;
    AdoptionLaws.AdoptionFollowsTheSnapshot(ws, ws, runtimeId, runtimeId, snapshot);
    AdoptedLeavesAreTreeLeaves(snapshot.tree.value);
    StaleIffShowsOtherPanes(w.workspaces, i, session);
    assert forall u :: ShownByOne(ws, session, u) <==> (u in ws.Leaves() <==> u !in TreeLeaves(snapshot.tree.value));
  }

  // An attach without a tree never needs the rebuild it does.
  lemma TreelessOpenNeedsNoRebuild(w: Window, workspaceId: string, runtimeId: string, snapshot: Snapshot)
    requires IndexIsCurrent(w) && !AdoptionLaws.HasTree(snapshot)
    ensures w.index == BuildIndex(ApplyWorkspaceOpened(w, workspaceId, runtimeId, snapshot).0.workspaces)
  {
    if snapshot.tree.Some? {
      AdoptedLeavesAreTreeLeaves(snapshot.tree.value);
    }
    if i :| FindWorkspace(w.workspaces, workspaceId) == Some(i) {
      SameLeavesNeedNoRebuild(w.workspaces, i, OpenWorkspace(w.workspaces[i], runtimeId, snapshot).session);
    }
  }

  // ---------------------------------------------------------------- recovery

  lemma {:induction false} LastOwnerOfMore(before: seq<Workspace>, more: seq<Workspace>, endpointKey: string,
                                           paneId: string)
    ensures LastOwner(before + more, endpointKey, paneId)
            == if LastOwner(more, endpointKey, paneId).Some? then LastOwner(more, endpointKey, paneId)
               else LastOwner(before, endpointKey, paneId)
  {
    if more == [] {
      assert before + more == before;
    } else {
      var n := |more| - 1;
      LastOwnerOfMore(before, more[..n], endpointKey, paneId);
      assert (before + more)[..|before| + n] == before + more[..n];
    }
  }

  // The pane is listed by an entry yet to be recovered, and the last such entry bears another
  // name than the pane's owner so far, if it has one.
  predicate TakesOver(w: Window, endpoint: Endpoint, infos: seq<WorkspaceInfo>, mint: (nat, nat) -> string,
                      paneId: string) {
    var known := KnownRuntimeIds(w.workspaces, endpoint);
    var owner := NamesPane(endpoint, infos, known, w.dismissed * ListedIds(infos), mint, |infos|, paneId);
    owner.Some? && owner != LastOwner(w.workspaces, endpoint.Key(), paneId)
  }

  predicate PanesAreNulFree(infos: seq<WorkspaceInfo>, mint: (nat, nat) -> string) {
    forall k, leaf | 0 <= k < |infos| && leaf in ShownLeaves(infos[k].panes, MintAt(mint, k)) :: '\0' !in leaf
  }

  lemma {:induction false} EntriesAreNulFree(
    endpoint: Endpoint, infos: seq<WorkspaceInfo>, known: set<string>, dismissed: set<string>,
    mint: (nat, nat) -> string, n: nat)
    requires n <= |infos| && PanesAreNulFree(infos, mint)
    ensures NulFree(Entries(endpoint, infos, known, dismissed, mint, n))
  {
    if n > 0 {
      EntriesAreNulFree(endpoint, infos, known, dismissed, mint, n - 1);
      if IsFirst(infos, known, dismissed, n - 1) {
        RecoveredLeaves(endpoint, infos[n - 1], MintAt(mint, n - 1));
      }
    }
  }

  lemma {:induction false} OwnerOfRecovered(recovered: seq<Workspace>, endpoint: Endpoint, endpointKey: string,
                                            paneId: string)
    requires NulFree(recovered) && forall i | 0 <= i < |recovered| :: recovered[i].endpoint == endpoint
    ensures LastOwner(recovered, endpointKey, paneId).Some? ==> endpointKey == endpoint.Key() && '\0' !in paneId
  {
    if recovered != [] {
      var n := |recovered| - 1;
      OwnerOfRecovered(recovered[..n], endpoint, endpointKey, paneId);
    }
  }

  // An inventory needs one exactly when some pane is taken over.
  lemma RecoveryNeedsRebuildIff(w: Window, endpoint: Endpoint, infos: seq<WorkspaceInfo>, mint: (nat, nat) -> string)
    requires IndexIsCurrent(w) && NulFree(w.workspaces) && PanesAreNulFree(infos, mint)
    ensures w.index != BuildIndex(ApplyInventory(w, endpoint, infos, mint).0.workspaces)
            <==> exists paneId :: TakesOver(w, endpoint, infos, mint, paneId)
  {
    var (w', recovered) := ApplyInventory(w, endpoint, infos, mint);
    var known, dismissed := KnownRuntimeIds(w.workspaces, endpoint), w.dismissed * ListedIds(infos);
    InventoryRecoversExactlyTheMissing(w, endpoint, infos, mint);
    RecoveredAreEntries(endpoint, infos, known, dismissed, mint, |infos|);
    EntriesAreNulFree(endpoint, infos, known, dismissed, mint, |infos|);
    StaleIffOwnerChanges(w.workspaces, w'.workspaces);
    forall endpointKey, paneId
      ensures LastOwner(w'.workspaces, endpointKey, paneId) != LastOwner(w.workspaces, endpointKey, paneId)
              <==> endpointKey == endpoint.Key() && TakesOver(w, endpoint, infos, mint, paneId)
      ensures TakesOver(w, endpoint, infos, mint, paneId) ==> '\0' !in paneId
    {
      LastOwnerOfMore(w.workspaces, recovered, endpointKey, paneId);
      OwnerOfRecovered(recovered, endpoint, endpointKey, paneId);
      OwnerOfRecovered(recovered, endpoint, endpoint.Key(), paneId);
      EntriesOwner(endpoint, infos, known, dismissed, mint, |infos|, paneId);
    }
  }

  // As long as no name is taken that a missing runtime would be recovered under, that is
  // whenever a runtime is missing at all.
  lemma FreshRecoveryNeedsRebuild(w: Window, endpoint: Endpoint, infos: seq<WorkspaceInfo>, mint: (nat, nat) -> string)
    requires IndexIsCurrent(w) && NulFree(w.workspaces) && PanesAreNulFree(infos, mint)
    requires forall id | IsMissing(w, endpoint, infos, id) :: !NameIsTaken(w, endpoint, id)
    ensures w.index != BuildIndex(ApplyInventory(w, endpoint, infos, mint).0.workspaces)
            <==> exists id :: IsMissing(w, endpoint, infos, id)
  {
    var (w', recovered) := ApplyInventory(w, endpoint, infos, mint);
    InventoryRecoversExactlyTheMissing(w, endpoint, infos, mint);
    if recovered == [] {
      assert w.workspaces + [] == w.workspaces;
      if id :| IsMissing(w, endpoint, infos, id) {
        var k := MissingIsRecovered(w, endpoint, infos, mint, id);
        assert false;
      }
    } else {
      assert IsMissing(w, endpoint, infos, recovered[0].runtimeId.value);
      var paneId := LastRecoveredTakesOver(w, endpoint, infos, mint);
      RecoveryNeedsRebuildIff(w, endpoint, infos, mint);
    }
  }

  lemma LastRecoveredTakesOver(w: Window, endpoint: Endpoint, infos: seq<WorkspaceInfo>, mint: (nat, nat) -> string)
    returns (paneId: string)
    requires forall id | IsMissing(w, endpoint, infos, id) :: !NameIsTaken(w, endpoint, id)
    requires ApplyInventory(w, endpoint, infos, mint).1 != []
    ensures TakesOver(w, endpoint, infos, mint, paneId)
  {
    var (w', recovered) := ApplyInventory(w, endpoint, infos, mint);
    var known, dismissed := KnownRuntimeIds(w.workspaces, endpoint), w.dismissed * ListedIds(infos);
    InventoryRecoversExactlyTheMissing(w, endpoint, infos, mint);
    var last := recovered[|recovered| - 1];
    paneId := last.Leaves()[0];
    assert Shows(last, endpoint.Key(), paneId);
    RecoveredAreEntries(endpoint, infos, known, dismissed, mint, |infos|);
    EntriesOwner(endpoint, infos, known, dismissed, mint, |infos|, paneId);
    assert IsMissing(w, endpoint, infos, last.runtimeId.value);
    OwnerIsListed(w.workspaces, endpoint.Key(), paneId);
  }

  lemma {:induction false} OwnerIsListed(workspaces: seq<Workspace>, endpointKey: string, paneId: string)
    ensures var owner := LastOwner(workspaces, endpointKey, paneId);
            owner.Some? ==> exists i :: 0 <= i < |workspaces| && owner == Some(workspaces[i].uuid)
  {
    if workspaces != [] {
      var n := |workspaces| - 1;
      OwnerIsListed(workspaces[..n], endpointKey, paneId);
      assert forall i | 0 <= i < n :: workspaces[..n][i] == workspaces[i];
    }
  }
}
