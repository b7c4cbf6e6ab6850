// The reverse pane index stays equal to a rebuild from scratch over every run of endpoint
// events, and a lookup in it equals a scan of the workspaces when pane ids are unique.
module PaneIndexLaws {
  import opened Wrappers
  import opened WindowSpec

  predicate IndexIsCurrent(w: Window) {
    w.index == BuildIndex(w.workspaces)
  }

  // ---------------------------------------------------------------- staying current

  // What the index is computed from.
  predicate SameRouting(a: Workspace, b: Workspace) {
    a.managed == b.managed && a.endpoint.Key() == b.endpoint.Key() && a.uuid == b.uuid && a.Leaves() == b.Leaves()
  }

  // A change that leaves every workspace's routing alone needs no rebuild.
  lemma {:induction false} SameRoutingSameIndex(a: seq<Workspace>, b: seq<Workspace>)
    requires |a| == |b| && forall i | 0 <= i < |a| :: SameRouting(a[i], b[i])
    ensures BuildIndex(a) == BuildIndex(b)
  {
    if a != [] {
      SameRoutingSameIndex(a[..|a| - 1], b[..|b| - 1]);
    }
  }

  lemma TerminationNeedsNoRebuild(w: Window, workspaceId: string)
    ensures BuildIndex(ApplyTerminated(w, workspaceId).workspaces) == BuildIndex(w.workspaces)
  {
    SameRoutingSameIndex(ApplyTerminated(w, workspaceId).workspaces, w.workspaces);
  }

  lemma ReconcileKeepsIndexCurrent(w: Window, event: EndpointEvent, mint: (nat, nat) -> string)
    requires IndexIsCurrent(w)
    ensures IndexIsCurrent(Reconcile(w, event, mint).0)
  {
    match event
    case WorkspaceTerminated(id) => TerminationNeedsNoRebuild(w, id);
    case InventoryLoaded(endpoint, infos) =>
      var (w', recovered) := ApplyInventory(w, endpoint, infos, mint);
      if recovered == [] {
        assert w'.workspaces == w.workspaces;
      }
    case _ =>
  }

  lemma {:induction false} RunKeepsIndexCurrent(w: Window, steps: seq<Step>)
    requires IndexIsCurrent(w)
    ensures IndexIsCurrent(Run(w, steps))
  {
    if steps != [] {
      var n := |steps| - 1;
      RunKeepsIndexCurrent(w, steps[..n]);
      ReconcileKeepsIndexCurrent(Run(w, steps[..n]), steps[n].event, steps[n].mint);
    }
  }

  // ---------------------------------------------------------------- what a lookup finds

  predicate Shows(ws: Workspace, endpointKey: string, paneId: string) {
    ws.managed && ws.endpoint.Key() == endpointKey && paneId in ws.Leaves()
  }

  // The linear scan: the first managed workspace of the endpoint that shows the pane.
  function ScanOwner(workspaces: seq<Workspace>, endpointKey: string, paneId: string): Option<string> {
    if workspaces == [] then None
    else if Shows(workspaces[0], endpointKey, paneId) then Some(workspaces[0].uuid)
    else ScanOwner(workspaces[1..], endpointKey, paneId)
  }

  // The last one: the entry that survives a rebuild.
  function LastOwner(workspaces: seq<Workspace>, endpointKey: string, paneId: string): Option<string> {
    if workspaces == [] then None
    else
      var n := |workspaces| - 1;
      if Shows(workspaces[n], endpointKey, paneId) then Some(workspaces[n].uuid)
      else LastOwner(workspaces[..n], endpointKey, paneId)
  }

  // Pane ids are the text of uuids: they hold no NUL.
  predicate NulFree(workspaces: seq<Workspace>) {
    forall i, leaf | 0 <= i < |workspaces| && leaf in workspaces[i].Leaves() :: '\0' !in leaf
  }

  // The separator is the last NUL of a composite key.
  lemma SeparatorIsLastNul(endpointKey: string, paneId: string)
    requires '\0' !in paneId
    ensures var key := PaneIndexKey(endpointKey, paneId);
            && key[|endpointKey|] == '\0'
            && (forall i | |endpointKey| < i < |key| :: key[i] != '\0')
            && key[..|endpointKey|] == endpointKey && key[|endpointKey| + 1..] == paneId
  {
    var key := PaneIndexKey(endpointKey, paneId);
    assert key[|endpointKey| + 1..] == paneId;
    forall i | |endpointKey| < i < |key|
      ensures key[i] != '\0'
    {
      assert key[i] == paneId[i - |endpointKey| - 1];
    }
  }

  lemma CompositeKeyIsInjective(k1: string, p1: string, k2: string, p2: string)
    requires '\0' !in p1 && '\0' !in p2 && PaneIndexKey(k1, p1) == PaneIndexKey(k2, p2)
    ensures k1 == k2 && p1 == p2
  {
    SeparatorIsLastNul(k1, p1);
    SeparatorIsLastNul(k2, p2);
  }

  lemma {:induction false} LeavesInIndex(
    index: map<string, (string, string)>, ownerKey: string, uuid: string, leaves: seq<string>,
    endpointKey: string, paneId: string)
    requires '\0' !in paneId && forall leaf | leaf in leaves :: '\0' !in leaf
    ensures var index' := IndexLeaves(index, ownerKey, uuid, leaves);
            var key := PaneIndexKey(endpointKey, paneId);
            if ownerKey == endpointKey && paneId in leaves then key in index' && index'[key] == (uuid, paneId)
            else (key in index' <==> key in index) && (key in index ==> index'[key] == index[key])
  {
    if leaves != [] {
      var n := |leaves| - 1;
      LeavesInIndex(index, ownerKey, uuid, leaves[..n], endpointKey, paneId);
      assert leaves == leaves[..n] + [leaves[n]];
      if PaneIndexKey(ownerKey, leaves[n]) == PaneIndexKey(endpointKey, paneId) {
        CompositeKeyIsInjective(ownerKey, leaves[n], endpointKey, paneId);
      }
    }
  }

  lemma {:induction false} IndexHoldsLastOwner(workspaces: seq<Workspace>, endpointKey: string, paneId: string)
    requires NulFree(workspaces) && '\0' !in paneId
    ensures var key := PaneIndexKey(endpointKey, paneId);
            match LastOwner(workspaces, endpointKey, paneId)
            case None => key !in BuildIndex(workspaces)
            case Some(uuid) => key in BuildIndex(workspaces) && BuildIndex(workspaces)[key] == (uuid, paneId)
  {
    if workspaces != [] {
      var n := |workspaces| - 1;
      var last := workspaces[n];
      IndexHoldsLastOwner(workspaces[..n], endpointKey, paneId);
      LeavesInIndex(BuildIndex(workspaces[..n]), last.endpoint.Key(), last.uuid, last.Leaves(), endpointKey, paneId);
    }
  }

  // ---------------------------------------------------------------- agreement with the scan

  // No two managed workspaces of the endpoint show the same pane.
  ghost predicate PanesAreUnique(workspaces: seq<Workspace>, endpointKey: string) {
    forall i, j, paneId |
      0 <= i < j < |workspaces|
      && Shows(workspaces[i], endpointKey, paneId) && Shows(workspaces[j], endpointKey, paneId) ::
      false
  }

  predicate DistinctUuids(workspaces: seq<Workspace>) {
    forall i, j | 0 <= i < j < |workspaces| :: workspaces[i].uuid != workspaces[j].uuid
  }

  lemma {:induction false} ScanFindsFirst(workspaces: seq<Workspace>, endpointKey: string, paneId: string, i: nat)
    requires i < |workspaces| && Shows(workspaces[i], endpointKey, paneId)
    requires forall j | 0 <= j < i :: !Shows(workspaces[j], endpointKey, paneId)
    ensures ScanOwner(workspaces, endpointKey, paneId) == Some(workspaces[i].uuid)
  {
    if i > 0 {
      ScanFindsFirst(workspaces[1..], endpointKey, paneId, i - 1);
    }
  }

  lemma {:induction false} ScanFindsNone(workspaces: seq<Workspace>, endpointKey: string, paneId: string)
    requires forall j | 0 <= j < |workspaces| :: !Shows(workspaces[j], endpointKey, paneId)
    ensures ScanOwner(workspaces, endpointKey, paneId) == None
  {
    if workspaces != [] {
      ScanFindsNone(workspaces[1..], endpointKey, paneId);
    }
  }

  lemma {:induction false} LastFindsLast(workspaces: seq<Workspace>, endpointKey: string, paneId: string, i: nat)
    requires i < |workspaces| && Shows(workspaces[i], endpointKey, paneId)
    requires forall j | i < j < |workspaces| :: !Shows(workspaces[j], endpointKey, paneId)
    ensures LastOwner(workspaces, endpointKey, paneId) == Some(workspaces[i].uuid)
  {
    var n := |workspaces| - 1;
    if i < n {
      LastFindsLast(workspaces[..n], endpointKey, paneId, i);
    }
  }

  lemma {:induction false} LastFindsNone(workspaces: seq<Workspace>, endpointKey: string, paneId: string)
    requires forall j | 0 <= j < |workspaces| :: !Shows(workspaces[j], endpointKey, paneId)
    ensures LastOwner(workspaces, endpointKey, paneId) == None
  {
    if workspaces != [] {
      LastFindsNone(workspaces[..|workspaces| - 1], endpointKey, paneId);
    }
  }

  lemma FirstShower(workspaces: seq<Workspace>, endpointKey: string, paneId: string, k: nat) returns (first: nat)
    requires k < |workspaces| && Shows(workspaces[k], endpointKey, paneId)
    ensures first <= k && Shows(workspaces[first], endpointKey, paneId)
    ensures ScanOwner(workspaces, endpointKey, paneId) == Some(workspaces[first].uuid)
  {
    first := 0;
    while !Shows(workspaces[first], endpointKey, paneId)
      invariant first <= k
      invariant forall j | 0 <= j < first :: !Shows(workspaces[j], endpointKey, paneId)
      decreases k - first
    {
      first := first + 1;
    }
    ScanFindsFirst(workspaces, endpointKey, paneId, first);
  }

  lemma LastShower(workspaces: seq<Workspace>, endpointKey: string, paneId: string, k: nat) returns (last: nat)
    requires k < |workspaces| && Shows(workspaces[k], endpointKey, paneId)
    ensures k <= last < |workspaces| && Shows(workspaces[last], endpointKey, paneId)
    ensures LastOwner(workspaces, endpointKey, paneId) == Some(workspaces[last].uuid)
  {
    last := |workspaces| - 1;
    while !Shows(workspaces[last], endpointKey, paneId)
      invariant k <= last < |workspaces|
      invariant forall j | last < j < |workspaces| :: !Shows(workspaces[j], endpointKey, paneId)
      decreases last
    {
      last := last - 1;
    }
    LastFindsLast(workspaces, endpointKey, paneId, last);
  }

  // The first and the last workspace that shows a pane.
  lemma Bounds(workspaces: seq<Workspace>, endpointKey: string, paneId: string, k: nat)
    returns (first: nat, last: nat)
    requires k < |workspaces| && Shows(workspaces[k], endpointKey, paneId)
    ensures first <= k <= last < |workspaces|
    ensures Shows(workspaces[first], endpointKey, paneId) && Shows(workspaces[last], endpointKey, paneId)
    ensures ScanOwner(workspaces, endpointKey, paneId) == Some(workspaces[first].uuid)
    ensures LastOwner(workspaces, endpointKey, paneId) == Some(workspaces[last].uuid)
  {
    first := FirstShower(workspaces, endpointKey, paneId, k);
    last := LastShower(workspaces, endpointKey, paneId, k);
  }

  // Panes shown once have one owner, whichever end the search starts from.
  lemma UniquePanesScan(workspaces: seq<Workspace>, endpointKey: string, paneId: string)
    requires PanesAreUnique(workspaces, endpointKey)
    ensures ScanOwner(workspaces, endpointKey, paneId) == LastOwner(workspaces, endpointKey, paneId)
  {
    if k :| 0 <= k < |workspaces| && Shows(workspaces[k], endpointKey, paneId) {
      var first, last := Bounds(workspaces, endpointKey, paneId, k);
    } else {
      ScanFindsNone(workspaces, endpointKey, paneId);
      LastFindsNone(workspaces, endpointKey, paneId);
    }
  }

  // For workspaces with distinct names, the surviving index entries agree with the scan
  // for every pane exactly when no pane is shown twice on the endpoint.
  lemma ScanAgreesIffUnique(workspaces: seq<Workspace>, endpointKey: string)
    requires DistinctUuids(workspaces)
    ensures PanesAreUnique(workspaces, endpointKey)
            <==> forall paneId ::
                   ScanOwner(workspaces, endpointKey, paneId) == LastOwner(workspaces, endpointKey, paneId)
  {
    if PanesAreUnique(workspaces, endpointKey) {
      forall paneId
        ensures ScanOwner(workspaces, endpointKey, paneId) == LastOwner(workspaces, endpointKey, paneId)
      {
        UniquePanesScan(workspaces, endpointKey, paneId);
      }
    } else {
      var i, j, paneId :|
        0 <= i < j < |workspaces|
        && Shows(workspaces[i], endpointKey, paneId) && Shows(workspaces[j], endpointKey, paneId);
      var first, last := Bounds(workspaces, endpointKey, paneId, i);
      var first', last' := Bounds(workspaces, endpointKey, paneId, j);
      assert ScanOwner(workspaces, endpointKey, paneId) != LastOwner(workspaces, endpointKey, paneId);
    }
  }

  // After any run from a current index, looking a pane up is scanning for it.
  lemma LookupEqualsScan(w: Window, steps: seq<Step>, endpoint: Endpoint, paneId: string)
    requires IndexIsCurrent(w)
    requires var after := Run(w, steps).workspaces;
             NulFree(after) && PanesAreUnique(after, endpoint.Key()) && '\0' !in paneId
    ensures RuntimePaneTarget(Run(w, steps), endpoint, paneId)
            == match ScanOwner(Run(w, steps).workspaces, endpoint.Key(), paneId)
               case None => None
               case Some(uuid) => Some((uuid, paneId))
  {
    var after := Run(w, steps);
    RunKeepsIndexCurrent(w, steps);
    IndexHoldsLastOwner(after.workspaces, endpoint.Key(), paneId);
    UniquePanesScan(after.workspaces, endpoint.Key(), paneId);
  }

  // ---------------------------------------------------------------- when a rebuild is needed

  predicate IsComposite(key: string, endpointKey: string, paneId: string) {
    '\0' !in paneId && key == PaneIndexKey(endpointKey, paneId)
  }

  lemma {:induction false} LeafKeysAreComposite(
    index: map<string, (string, string)>, ownerKey: string, uuid: string, leaves: seq<string>, key: string)
    returns (paneId: string)
    requires (forall leaf | leaf in leaves :: '\0' !in leaf) && key in IndexLeaves(index, ownerKey, uuid, leaves)
    ensures key in index || IsComposite(key, ownerKey, paneId)
  {
    if leaves == [] {
      paneId := "";
    } else {
      var n := |leaves| - 1;
      if key == PaneIndexKey(ownerKey, leaves[n]) {
        assert leaves[n] in leaves;
        paneId := leaves[n];
      } else {
        paneId := LeafKeysAreComposite(index, ownerKey, uuid, leaves[..n], key);
      }
    }
  }

  lemma {:induction false} KeysAreComposite(workspaces: seq<Workspace>, key: string)
    returns (endpointKey: string, paneId: string)
    requires NulFree(workspaces) && key in BuildIndex(workspaces)
    ensures IsComposite(key, endpointKey, paneId)
  {
    var n := |workspaces| - 1;
    var last := workspaces[n];
    if key in BuildIndex(workspaces[..n]) {
      endpointKey, paneId := KeysAreComposite(workspaces[..n], key);
    } else {
      endpointKey := last.endpoint.Key();
      paneId := LeafKeysAreComposite(BuildIndex(workspaces[..n]), endpointKey, last.uuid, last.Leaves(), key);
    }
  }

  // Some pane of some endpoint has changed its last owner.
  ghost predicate OwnerChanges(before: seq<Workspace>, after: seq<Workspace>) {
    exists endpointKey, paneId ::
      '\0' !in paneId && LastOwner(before, endpointKey, paneId) != LastOwner(after, endpointKey, paneId)
  }

  // The index of one list of workspaces is stale for another exactly when some pane has
  // changed its last owner.
  lemma StaleIffOwnerChanges(before: seq<Workspace>, after: seq<Workspace>)
    requires NulFree(before) && NulFree(after)
    ensures BuildIndex(before) != BuildIndex(after) <==> OwnerChanges(before, after)
  {
    if OwnerChanges(before, after) {
      var endpointKey, paneId :|
        '\0' !in paneId && LastOwner(before, endpointKey, paneId) != LastOwner(after, endpointKey, paneId);
      IndexHoldsLastOwner(before, endpointKey, paneId);
      IndexHoldsLastOwner(after, endpointKey, paneId);
    } else {
      forall key
        ensures key in BuildIndex(before) <==> key in BuildIndex(after)
        ensures key in BuildIndex(before) ==> BuildIndex(before)[key] == BuildIndex(after)[key]
      {
        SameEntry(before, after, key);
      }
      assert BuildIndex(before).Keys == BuildIndex(after).Keys;
    }
  }

  lemma SameEntry(before: seq<Workspace>, after: seq<Workspace>, key: string)
    requires NulFree(before) && NulFree(after) && !OwnerChanges(before, after)
    ensures key in BuildIndex(before) <==> key in BuildIndex(after)
    ensures key in BuildIndex(before) ==> BuildIndex(before)[key] == BuildIndex(after)[key]
  {
    if key in BuildIndex(before) || key in BuildIndex(after) {
      var endpointKey, paneId;
      if key in BuildIndex(before) {
        endpointKey, paneId := KeysAreComposite(before, key);
      } else {
        endpointKey, paneId := KeysAreComposite(after, key);
      }
      IndexHoldsLastOwner(before, endpointKey, paneId);
      IndexHoldsLastOwner(after, endpointKey, paneId);
    }
  }

  // ---------------------------------------------------------------- which branches need one

  // What workspace i shows decides who owns the pane: no later one shows it, and an earlier
  // owner, if there is one, bears another name.
  predicate Decides(workspaces: seq<Workspace>, i: nat, paneId: string)
    requires i < |workspaces|
  {
    var ws := workspaces[i];
    && ws.managed
    && (forall j | i < j < |workspaces| :: !Shows(workspaces[j], ws.endpoint.Key(), paneId))
    && LastOwner(workspaces[..i], ws.endpoint.Key(), paneId) != Some(ws.uuid)
  }

  // A change of workspace i that keeps its name and endpoint.
  predicate SameOwner(a: Workspace, b: Workspace) {
    a.managed == b.managed && a.endpoint == b.endpoint && a.uuid == b.uuid
  }

  predicate ShownByOne(a: Workspace, b: Workspace, paneId: string) {
    paneId in a.Leaves() <==> paneId !in b.Leaves()
  }

  lemma {:induction false} LastOwnerAt(workspaces: seq<Workspace>, i: nat, endpointKey: string, paneId: string)
    requires i < |workspaces| && forall j | i < j < |workspaces| :: !Shows(workspaces[j], endpointKey, paneId)
    ensures LastOwner(workspaces, endpointKey, paneId)
            == if Shows(workspaces[i], endpointKey, paneId) then Some(workspaces[i].uuid)
               else LastOwner(workspaces[..i], endpointKey, paneId)
  {
    var n := |workspaces| - 1;
    if i < n {
      LastOwnerAt(workspaces[..n], i, endpointKey, paneId);
      assert workspaces[..n][..i] == workspaces[..i];
    }
  }

  lemma {:induction false} LaterOwnerHides(workspaces: seq<Workspace>, i: nat, ws: Workspace, endpointKey: string,
                                           paneId: string, j: nat)
    requires i < j < |workspaces| && Shows(workspaces[j], endpointKey, paneId)
    ensures LastOwner(workspaces[i := ws], endpointKey, paneId) == LastOwner(workspaces, endpointKey, paneId)
  {
    var n := |workspaces| - 1;
    if !Shows(workspaces[n], endpointKey, paneId) {
      assert workspaces[i := ws][..n] == workspaces[..n][i := ws];
      LaterOwnerHides(workspaces[..n], i, ws, endpointKey, paneId, j);
    }
  }

  lemma OwnerAfterChange(workspaces: seq<Workspace>, i: nat, ws: Workspace, endpointKey: string, paneId: string)
    requires i < |workspaces| && SameOwner(workspaces[i], ws)
    ensures LastOwner(workspaces[i := ws], endpointKey, paneId) != LastOwner(workspaces, endpointKey, paneId)
            <==> && endpointKey == ws.endpoint.Key() && ShownByOne(workspaces[i], ws, paneId)
                 && Decides(workspaces, i, paneId)
  {
    var changed := workspaces[i := ws];
    if j :| i < j < |workspaces| && Shows(workspaces[j], endpointKey, paneId) {
      LaterOwnerHides(workspaces, i, ws, endpointKey, paneId, j);
    } else {
      LastOwnerAt(workspaces, i, endpointKey, paneId);
      LastOwnerAt(changed, i, endpointKey, paneId);
      assert changed[..i] == workspaces[..i];
    }
  }

  // Some pane that workspace i alone decides on is shown by it before or after, not both.
  ghost predicate ShowsOtherPanes(workspaces: seq<Workspace>, i: nat, ws: Workspace)
    requires i < |workspaces|
  {
    exists paneId :: ShownByOne(workspaces[i], ws, paneId) && Decides(workspaces, i, paneId)
  }

  lemma StaleIffShowsOtherPanes(workspaces: seq<Workspace>, i: nat, ws: Workspace)
    requires i < |workspaces| && SameOwner(workspaces[i], ws) && NulFree(workspaces) && NulFree([ws])
    ensures BuildIndex(workspaces) != BuildIndex(workspaces[i := ws]) <==> ShowsOtherPanes(workspaces, i, ws)
  {
    var changed := workspaces[i := ws];
    assert [ws][0] == ws;
    StaleIffOwnerChanges(workspaces, changed);
    forall endpointKey, paneId
      ensures LastOwner(changed, endpointKey, paneId) != LastOwner(workspaces, endpointKey, paneId)
              <==> && endpointKey == ws.endpoint.Key() && ShownByOne(workspaces[i], ws, paneId)
                   && Decides(workspaces, i, paneId)
    {
      OwnerAfterChange(workspaces, i, ws, endpointKey, paneId);
    }
    if ShowsOtherPanes(workspaces, i, ws) {
      var paneId :| ShownByOne(workspaces[i], ws, paneId) && Decides(workspaces, i, paneId);
      PaneIsNulFree(workspaces, ws, i, paneId);
      assert LastOwner(changed, ws.endpoint.Key(), paneId) != LastOwner(workspaces, ws.endpoint.Key(), paneId);
    }
  }

  lemma PaneIsNulFree(workspaces: seq<Workspace>, ws: Workspace, i: nat, paneId: string)
    requires i < |workspaces| && NulFree(workspaces) && NulFree([ws])
    requires paneId in ws.Leaves() || paneId in workspaces[i].Leaves()
    ensures '\0' !in paneId
  {
    assert [ws][0] == ws;
  }
}
