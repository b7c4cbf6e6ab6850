// What survives over runs of all endpoint events: a focused leaf always; distinct leaves,
// recipes for leaves only and a zoomed leaf exactly while no event of one kind comes.
module WorkspaceRunLaws {
  import opened Wrappers
  import opened Layout
  import opened WindowSpec
  import opened PaneIdentityLaws
  import AdoptionLaws
  import opened PaneIndexLaws
  import opened RecoveryLaws

  predicate Focused(ws: Workspace) {
    ws.activeTerminal.Some? && ws.activeTerminal.value in ws.Leaves()
  }

  predicate RecipesFit(ws: Workspace) {
    forall leaf | leaf in ws.recovery :: leaf in ws.Leaves()
  }

  predicate ZoomFits(ws: Workspace) {
    ws.zoomedTerminal.Some? ==> ws.zoomedTerminal.value in ws.Leaves()
  }

  lemma WellFormedInParts(ws: Workspace)
    ensures WellFormed(ws) <==> Distinct(ws.Leaves()) && Focused(ws) && RecipesFit(ws)
  {
    if RecipesFit(ws) {
      assert ws.recovery.Keys <= (set leaf | leaf in ws.Leaves());
    }
  }

  // ---------------------------------------------------------------- one workspace

  // An acknowledged pane keeps focus, recipes and zoom on leaves, whatever it is named, and
  // keeps distinct leaves distinct exactly if its name is free.
  lemma CreatedKeeps(ws: Workspace, terminal: string, paneId: string)
    requires terminal in ws.Leaves()
    ensures var ws' := ws.ReplaceTerminalUuid(terminal, paneId);
            && (Focused(ws) ==> Focused(ws'))
            && (RecipesFit(ws) ==> RecipesFit(ws'))
            && (ZoomFits(ws) ==> ZoomFits(ws'))
            && (Distinct(ws.Leaves()) ==> (Distinct(ws'.Leaves()) <==> FreshFor(ws, terminal, paneId)))
  {
    ReplaceRekeysOneLeaf(ws.layout, terminal, paneId);
    if terminal != paneId {
      var leaves' := ReplaceFirst(ws.Leaves(), terminal, paneId);
      forall u
        ensures u in leaves'
                <==> u == paneId || (u in ws.Leaves() && (u == terminal ==> Occurrences(ws.Leaves(), terminal) > 1))
      {
        ReplaceFirstMembers(ws.Leaves(), terminal, paneId, u);
      }
      if Distinct(ws.Leaves()) {
        RekeyedIsDistinctIffFree(ws.Leaves(), terminal, paneId);
      }
    }
  }

  lemma RekeyedIsDistinctIffFree(uuids: seq<string>, terminal: string, paneId: string)
    requires Distinct(uuids) && terminal in uuids && terminal != paneId
    ensures Distinct(ReplaceFirst(uuids, terminal, paneId)) <==> paneId !in uuids
  {
    if paneId !in uuids {
      RekeyInPlace(uuids, terminal, paneId);
    } else {
      RekeyPointwise(uuids, terminal, paneId);
      var i :| 0 <= i < |uuids| && uuids[i] == terminal;
      var j :| 0 <= j < |uuids| && uuids[j] == paneId;
      var uuids' := ReplaceFirst(uuids, terminal, paneId);
      assert uuids'[i] == paneId && uuids'[j] == paneId && i != j;
    }
  }

  // A close refocuses and prunes, so it needs nothing to leave a focused leaf and recipes
  // for leaves only; but it does not move the zoom.
  lemma ClosedKeeps(ws: Workspace, terminal: string)
    requires Without(ws.Leaves(), terminal) != []
    ensures ws.layout.RemoveTerminal(terminal).Some?
    ensures var ws' := ClosePane(ws, ws.layout.RemoveTerminal(terminal).value);
            && Focused(ws') && RecipesFit(ws')
            && (ZoomFits(ws) ==> (ZoomFits(ws') <==> ws.zoomedTerminal != Some(terminal)))
            && (Distinct(ws.Leaves()) ==> Distinct(ws'.Leaves()))
  {
    RemoveDropsOneName(ws.layout, terminal);
    WithoutMembers(ws.Leaves(), terminal);
    var layout := ws.layout.RemoveTerminal(terminal).value;
    if ws.activeTerminal.Some? {
      ContainsIffLeaf(layout, ws.activeTerminal.value);
    }
    if Distinct(ws.Leaves()) {
      WithoutKeepsDistinct(ws.Leaves(), terminal);
    }
  }

  // An attach with a tree focuses one of its leaves, but keeps recipes and zoom as they were.
  lemma AdoptedKeeps(ws: Workspace, runtimeId: string, snapshot: Snapshot)
    requires AdoptionLaws.HasTree(snapshot)
    ensures var leaves := TreeLeaves(snapshot.tree.value);
            var ws' := OpenWorkspace(ws, runtimeId, snapshot).session;
            && ws'.Leaves() == leaves && Focused(ws')
            && (RecipesFit(ws') <==> forall leaf | leaf in ws.recovery :: leaf in leaves)
            && (ZoomFits(ws') <==> (ws.zoomedTerminal.Some? ==> ws.zoomedTerminal.value in leaves))
  {
    AdoptionLaws.AdoptionFollowsTheSnapshot(ws, ws, runtimeId, runtimeId, snapshot);
    AdoptionLaws.AdoptionFocusesALeaf(ws, runtimeId, snapshot);
    AdoptedLeavesAreTreeLeaves(snapshot.tree.value);
    var ws' := OpenWorkspace(ws, runtimeId, snapshot).session;
    assert ws'.recovery == ws.recovery && ws'.zoomedTerminal == ws.zoomedTerminal;
  }

  lemma TreelessOpenKeeps(ws: Workspace, runtimeId: string, snapshot: Snapshot)
    requires !AdoptionLaws.HasTree(snapshot)
    ensures var ws' := OpenWorkspace(ws, runtimeId, snapshot).session;
            && ws'.layout == ws.layout && ws'.recovery == ws.recovery
            && ws'.activeTerminal == ws.activeTerminal && ws'.zoomedTerminal == ws.zoomedTerminal
  {
    if snapshot.tree.Some? {
      AdoptedLeavesAreTreeLeaves(snapshot.tree.value);
    }
  }

  // A recovered workspace is focused, unzoomed, and has a recipe for each leaf.
  predicate AsRecovered(ws: Workspace) {
    Focused(ws) && RecipesFit(ws) && ZoomFits(ws)
  }

  lemma {:induction false} RecoveredKeeps(
    endpoint: Endpoint, infos: seq<WorkspaceInfo>, known: set<string>, dismissed: set<string>,
    mint: (nat, nat) -> string, n: nat)
    requires n <= |infos|
    ensures forall ws | ws in Recovered(endpoint, infos, known, dismissed, mint, n) :: AsRecovered(ws)
  {
    if n > 0 {
      RecoveredKeeps(endpoint, infos, known, dismissed, mint, n - 1);
    }
  }

  // ---------------------------------------------------------------- which events break what

  // No leaves become equal: an acknowledged name is not taken, and neither an adopted tree
  // nor an inventory's first entry of a runtime yet to be recovered lists a pane twice.
  predicate KeepsDistinct(w: Window, event: EndpointEvent, mint: (nat, nat) -> string) {
    match event
    case PaneCreated(id, terminal, _, paneId) =>
      var found := FindWorkspace(w.workspaces, id);
      found.Some? && terminal in w.workspaces[found.value].Leaves() ==>
        FreshFor(w.workspaces[found.value], terminal, paneId)
    case WorkspaceOpened(id, _, snapshot) =>
      FindWorkspace(w.workspaces, id).Some? && AdoptionLaws.HasTree(snapshot) ==>
        Distinct(TreeLeaves(snapshot.tree.value))
    case InventoryLoaded(endpoint, infos) =>
      ListsPanesOnce(infos, KnownRuntimeIds(w.workspaces, endpoint), w.dismissed, mint, |infos|)
    case _ => true
  }

  // No tree is adopted that leaves out a terminal with a recipe.
  predicate KeepsRecipes(w: Window, event: EndpointEvent) {
    event.WorkspaceOpened? && AdoptionLaws.HasTree(event.snapshot) ==>
      var found := FindWorkspace(w.workspaces, event.workspaceId);
      found.Some? ==>
        forall leaf | leaf in w.workspaces[found.value].recovery :: leaf in TreeLeaves(event.snapshot.tree.value)
  }

  // The zoomed terminal is not closed, and no tree is adopted that leaves it out.
  predicate KeepsZoom(w: Window, event: EndpointEvent) {
    match event
    case WorkspaceOpened(id, _, snapshot) =>
      var found := FindWorkspace(w.workspaces, id);
      found.Some? && AdoptionLaws.HasTree(snapshot) ==>
        var zoomed := w.workspaces[found.value].zoomedTerminal;
        zoomed.Some? ==> zoomed.value in TreeLeaves(snapshot.tree.value)
    case PaneClosed(id, terminal) =>
      var found := FindWorkspace(w.workspaces, id);
      found.Some? && Without(w.workspaces[found.value].Leaves(), terminal) != [] ==>
        w.workspaces[found.value].zoomedTerminal != Some(terminal)
    case _ => true
  }

  predicate AllFocused(w: Window) {
    forall i | 0 <= i < |w.workspaces| :: Focused(w.workspaces[i])
  }

  predicate AllDistinct(w: Window) {
    forall i | 0 <= i < |w.workspaces| :: Distinct(w.workspaces[i].Leaves())
  }

  predicate AllRecipesFit(w: Window) {
    forall i | 0 <= i < |w.workspaces| :: RecipesFit(w.workspaces[i])
  }

  predicate AllZoomsFit(w: Window) {
    forall i | 0 <= i < |w.workspaces| :: ZoomFits(w.workspaces[i])
  }

  // What one event leaves of each part.
  ghost predicate Survives(w: Window, event: EndpointEvent, mint: (nat, nat) -> string) {
    var w' := Reconcile(w, event, mint).0;
    && (AllFocused(w) ==> AllFocused(w'))
    && (AllDistinct(w) ==> (AllDistinct(w') <==> KeepsDistinct(w, event, mint)))
    && (AllRecipesFit(w) ==> (AllRecipesFit(w') <==> KeepsRecipes(w, event)))
    && (AllZoomsFit(w) ==> (AllZoomsFit(w') <==> KeepsZoom(w, event)))
  }

  lemma CreatedSurvives(w: Window, event: EndpointEvent, mint: (nat, nat) -> string)
    requires event.PaneCreated?
    ensures Survives(w, event, mint)
  {
    if i :| FindWorkspace(w.workspaces, event.workspaceId) == Some(i) {
      var ws := w.workspaces[i];
      ContainsIffLeaf(ws.layout, event.terminal);
      if event.terminal in ws.Leaves() {
        var bound := ws.(runtimeId := Some(event.runtimeId));
        CreatedKeeps(bound, event.terminal, event.paneId);
        OneWorkspaceChanged(w, i, bound.ReplaceTerminalUuid(event.terminal, event.paneId));
      }
    }
  }

  // Each part holds of all workspaces exactly if it holds of the changed one and the others.
  lemma OneWorkspaceChanged(w: Window, i: nat, ws: Workspace)
    requires i < |w.workspaces|
    ensures var w' := w.(workspaces := w.workspaces[i := ws]);
            && (AllFocused(w) ==> (AllFocused(w') <==> Focused(ws)))
            && (AllDistinct(w) ==> (AllDistinct(w') <==> Distinct(ws.Leaves())))
            && (AllRecipesFit(w) ==> (AllRecipesFit(w') <==> RecipesFit(ws)))
            && (AllZoomsFit(w) ==> (AllZoomsFit(w') <==> ZoomFits(ws)))
  {
    assert w.workspaces[i := ws][i] == ws;
  }

  lemma ClosedSurvives(w: Window, event: EndpointEvent, mint: (nat, nat) -> string)
    requires event.PaneClosed?
    ensures Survives(w, event, mint)
  {
    if i :| FindWorkspace(w.workspaces, event.workspaceId) == Some(i) {
      var ws := w.workspaces[i];
      RemoveDropsOneName(ws.layout, event.terminal);
      if Without(ws.Leaves(), event.terminal) != [] {
        ClosedKeeps(ws, event.terminal);
        OneWorkspaceChanged(w, i, ClosePane(ws, ws.layout.RemoveTerminal(event.terminal).value));
      }
    }
  }

  lemma OpenedSurvives(w: Window, event: EndpointEvent, mint: (nat, nat) -> string)
    requires event.WorkspaceOpened?
    ensures Survives(w, event, mint)
  {
    if i :| FindWorkspace(w.workspaces, event.workspaceId) == Some(i) {
      var ws := w.workspaces[i];
      OneWorkspaceChanged(w, i, OpenWorkspace(ws, event.runtimeId, event.snapshot).session);
      if AdoptionLaws.HasTree(event.snapshot) {
        AdoptedKeeps(ws, event.runtimeId, event.snapshot);
      } else {
        TreelessOpenKeeps(ws, event.runtimeId, event.snapshot);
      }
    }
  }

  lemma InventorySurvives(w: Window, event: EndpointEvent, mint: (nat, nat) -> string)
    requires event.InventoryLoaded?
    ensures Survives(w, event, mint)
  {
    var (w', recovered) := ApplyInventory(w, event.endpoint, event.infos, mint);
    InventoryRecoversFocused(w, event.endpoint, event.infos, mint);
    WorkspacesAppended(w, w', recovered);
    var known, dismissed := KnownRuntimeIds(w.workspaces, event.endpoint), w.dismissed * ListedIds(event.infos);
    RecoveredAreEntries(event.endpoint, event.infos, known, dismissed, mint, |event.infos|);
    EntriesDistinctIff(event.endpoint, event.infos, known, dismissed, mint, |event.infos|);
    UnlistedDismissalsListNothing(event.infos, known, w.dismissed, mint);
  }

  lemma UnlistedDismissalsListNothing(infos: seq<WorkspaceInfo>, known: set<string>, dismissed: set<string>,
                                      mint: (nat, nat) -> string)
    ensures ListsPanesOnce(infos, known, dismissed * ListedIds(infos), mint, |infos|)
            <==> ListsPanesOnce(infos, known, dismissed, mint, |infos|)
  {
    forall k | 0 <= k < |infos|
      ensures ListsOnce(infos, known, dismissed * ListedIds(infos), mint, k)
              <==> ListsOnce(infos, known, dismissed, mint, k)
    {
      OnlyListedDismissalsMatter(infos, known, dismissed, k);
    }
  }

  lemma InventoryRecoversFocused(w: Window, endpoint: Endpoint, infos: seq<WorkspaceInfo>, mint: (nat, nat) -> string)
    ensures var (w', recovered) := ApplyInventory(w, endpoint, infos, mint);
            w'.workspaces == w.workspaces + recovered && forall ws | ws in recovered :: AsRecovered(ws)
  {
    RecoveredKeeps(endpoint, infos, KnownRuntimeIds(w.workspaces, endpoint), w.dismissed * ListedIds(infos), mint,
                   |infos|);
  }

  lemma WorkspacesAppended(w: Window, w': Window, more: seq<Workspace>)
    requires w'.workspaces == w.workspaces + more && forall ws | ws in more :: AsRecovered(ws)
    ensures AllFocused(w) ==> AllFocused(w')
    ensures AllDistinct(w) ==> (AllDistinct(w') <==> EachDistinct(more))
    ensures AllRecipesFit(w) ==> AllRecipesFit(w')
    ensures AllZoomsFit(w) ==> AllZoomsFit(w')
  {
    assert forall j | 0 <= j < |more| :: more[j] in more && w'.workspaces[|w.workspaces| + j] == more[j];
  }

  lemma TerminatedSurvives(w: Window, event: EndpointEvent, mint: (nat, nat) -> string)
    requires event.WorkspaceTerminated?
    ensures Survives(w, event, mint)
  {
    if i :| FindWorkspace(w.workspaces, event.workspaceId) == Some(i) {
      OneWorkspaceChanged(w, i, w.workspaces[i].(runtimeId := None));
    }
  }

  // Any one event.
  lemma EventSurvives(w: Window, event: EndpointEvent, mint: (nat, nat) -> string)
    ensures Survives(w, event, mint)
  {
    match event
    case WorkspaceOpened(_, _, _) => OpenedSurvives(w, event, mint);
    case PaneCreated(_, _, _, _) => CreatedSurvives(w, event, mint);
    case PaneClosed(_, _) => ClosedSurvives(w, event, mint);
    case WorkspaceTerminated(_) => TerminatedSurvives(w, event, mint);
    case InventoryLoaded(_, _) => InventorySurvives(w, event, mint);
    case _ =>
  }

  // ---------------------------------------------------------------- runs of all events

  // Focus never leaves the leaves, whatever events come.
  lemma {:induction false} RunKeepsFocus(w: Window, steps: seq<Step>)
    requires AllFocused(w)
    ensures AllFocused(Run(w, steps))
  {
    if steps != [] {
      var n := |steps| - 1;
      RunKeepsFocus(w, steps[..n]);
      EventSurvives(Run(w, steps[..n]), steps[n].event, steps[n].mint);
    }
  }

  // No step of the run breaks distinctness or recipes.
  predicate NoneBreaks(w: Window, steps: seq<Step>) {
    steps == [] ||
    var n := |steps| - 1;
    var before := Run(w, steps[..n]);
    && NoneBreaks(w, steps[..n])
    && KeepsDistinct(before, steps[n].event, steps[n].mint) && KeepsRecipes(before, steps[n].event)
  }

  predicate WellFormedThroughout(w: Window, steps: seq<Step>) {
    AllWellFormed(Run(w, steps)) && (steps == [] || WellFormedThroughout(w, steps[..|steps| - 1]))
  }

  // Over runs of all events every workspace stays well-formed throughout exactly when no
  // step breaks distinct leaves or recipes for leaves only.
  lemma {:induction false} WellFormedThroughoutIff(w: Window, steps: seq<Step>)
    requires AllWellFormed(w)
    ensures WellFormedThroughout(w, steps) <==> NoneBreaks(w, steps)
  {
    if steps != [] {
      var n := |steps| - 1;
      WellFormedThroughoutIff(w, steps[..n]);
      if WellFormedThroughout(w, steps[..n]) {
        WellFormedAfterIff(Run(w, steps[..n]), steps[n]);
      }
    }
  }

  lemma AllWellFormedInParts(w: Window)
    ensures AllWellFormed(w) <==> AllFocused(w) && AllDistinct(w) && AllRecipesFit(w)
  {
    forall i | 0 <= i < |w.workspaces|
      ensures WellFormed(w.workspaces[i])
              <==> Distinct(w.workspaces[i].Leaves()) && Focused(w.workspaces[i]) && RecipesFit(w.workspaces[i])
    {
      WellFormedInParts(w.workspaces[i]);
    }
  }

  lemma WellFormedAfterIff(w: Window, step: Step)
    requires AllWellFormed(w)
    ensures AllWellFormed(Reconcile(w, step.event, step.mint).0)
            <==> KeepsDistinct(w, step.event, step.mint) && KeepsRecipes(w, step.event)
  {
    EventSurvives(w, step.event, step.mint);
    AllWellFormedInParts(w);
    AllWellFormedInParts(Reconcile(w, step.event, step.mint).0);
  }

  predicate NoneUnzooms(w: Window, steps: seq<Step>) {
    steps == [] ||
    var n := |steps| - 1;
    NoneUnzooms(w, steps[..n]) && KeepsZoom(Run(w, steps[..n]), steps[n].event)
  }

  predicate ZoomedThroughout(w: Window, steps: seq<Step>) {
    AllZoomsFit(Run(w, steps)) && (steps == [] || ZoomedThroughout(w, steps[..|steps| - 1]))
  }

  // And a zoomed terminal stays a leaf throughout exactly when no step closes it or adopts
  // a tree without it.
  lemma {:induction false} ZoomedThroughoutIff(w: Window, steps: seq<Step>)
    requires AllZoomsFit(w)
    ensures ZoomedThroughout(w, steps) <==> NoneUnzooms(w, steps)
  {
    if steps != [] {
      var n := |steps| - 1;
      ZoomedThroughoutIff(w, steps[..n]);
      EventSurvives(Run(w, steps[..n]), steps[n].event, steps[n].mint);
    }
  }

  // ---------------------------------------------------------------- names over runs

  // No name is taken that an inventory would recover a workspace under.
  ghost predicate KeepsNames(w: Window, event: EndpointEvent) {
    event.InventoryLoaded? ==>
      forall id | IsMissing(w, event.endpoint, event.infos, id) :: !NameIsTaken(w, event.endpoint, id)
  }

  lemma SameNames(before: seq<Workspace>, after: seq<Workspace>)
    requires |after| == |before| && forall i | 0 <= i < |before| :: after[i].uuid == before[i].uuid
    ensures DistinctUuids(after) <==> DistinctUuids(before)
  {
  }

  lemma OtherEventsKeepNames(w: Window, event: EndpointEvent, mint: (nat, nat) -> string)
    requires !event.InventoryLoaded?
    ensures var w' := Reconcile(w, event, mint).0;
            |w'.workspaces| == |w.workspaces|
            && forall i | 0 <= i < |w.workspaces| :: w'.workspaces[i].uuid == w.workspaces[i].uuid
  {
    if event.WorkspaceOpened? {
      if i :| FindWorkspace(w.workspaces, event.workspaceId) == Some(i) {
        OpenBinds(w.workspaces[i], event.runtimeId, event.snapshot);
      }
    }
  }

  lemma NamesSurvive(w: Window, event: EndpointEvent, mint: (nat, nat) -> string)
    requires DistinctUuids(w.workspaces)
    ensures DistinctUuids(Reconcile(w, event, mint).0.workspaces) <==> KeepsNames(w, event)
  {
    if event.InventoryLoaded? {
      NamesStayDistinctIffFree(w, event.endpoint, event.infos, mint);
    } else {
      OtherEventsKeepNames(w, event, mint);
      SameNames(w.workspaces, Reconcile(w, event, mint).0.workspaces);
    }
  }

  ghost predicate NoneRepeatsAName(w: Window, steps: seq<Step>) {
    steps == [] ||
    var n := |steps| - 1;
    NoneRepeatsAName(w, steps[..n]) && KeepsNames(Run(w, steps[..n]), steps[n].event)
  }

  predicate NamedApartThroughout(w: Window, steps: seq<Step>) {
    DistinctUuids(Run(w, steps).workspaces) && (steps == [] || NamedApartThroughout(w, steps[..|steps| - 1]))
  }

  // Over runs of all events the workspaces bear distinct names throughout exactly when no
  // inventory recovers one under a name that is taken.
  lemma {:induction false} NamedApartThroughoutIff(w: Window, steps: seq<Step>)
    requires DistinctUuids(w.workspaces)
    ensures NamedApartThroughout(w, steps) <==> NoneRepeatsAName(w, steps)
  {
    if steps != [] {
      var n := |steps| - 1;
      NamedApartThroughoutIff(w, steps[..n]);
      if NamedApartThroughout(w, steps[..n]) {
        NamesSurvive(Run(w, steps[..n]), steps[n].event, steps[n].mint);
      }
    }
  }
}
