// Recovering workspaces from an endpoint's inventory: sound, complete, idempotent, and
// bound by what the user dismissed.
module RecoveryLaws {
  import opened Wrappers
  import opened PaneIndexLaws
  import opened WindowSpec

  // ---------------------------------------------------------------- one pass

  // A recovered workspace comes from a listed runtime that was neither known nor dismissed.
  predicate FromInventory(ws: Workspace, endpoint: Endpoint, infos: seq<WorkspaceInfo>, known: set<string>,
                          dismissed: set<string>) {
    && ws.managed && ws.endpoint == endpoint && ws.runtimeId.Some?
    && ws.runtimeId.value in ListedIds(infos)
    && ws.runtimeId.value !in known && ws.runtimeId.value !in dismissed
    && ws.uuid == InventoryWorkspaceId(endpoint, ws.runtimeId.value)
  }

  predicate DistinctRuntimes(workspaces: seq<Workspace>) {
    forall i, j | 0 <= i < j < |workspaces| :: workspaces[i].runtimeId != workspaces[j].runtimeId
  }

  lemma NewRuntimeStaysDistinct(earlier: seq<Workspace>, ws: Workspace)
    requires DistinctRuntimes(earlier) && (forall i | 0 <= i < |earlier| :: earlier[i].runtimeId.Some?)
    requires ws.runtimeId.Some? && ws.runtimeId.value !in RuntimeIds(earlier)
    ensures DistinctRuntimes(earlier + [ws])
  {
    forall i | 0 <= i < |earlier|
      ensures earlier[i].runtimeId != ws.runtimeId
    {
      assert earlier[i] in earlier && earlier[i].runtimeId.value in RuntimeIds(earlier);
    }
  }

  lemma {:induction false} RecoveredIsSound(
    endpoint: Endpoint, infos: seq<WorkspaceInfo>, known: set<string>, dismissed: set<string>,
    mint: (nat, nat) -> string, n: nat)
    requires n <= |infos|
    ensures var recovered := Recovered(endpoint, infos, known, dismissed, mint, n);
            && (forall i | 0 <= i < |recovered| :: FromInventory(recovered[i], endpoint, infos, known, dismissed))
            && DistinctRuntimes(recovered)
  {
    if n > 0 {
      RecoveredIsSound(endpoint, infos, known, dismissed, mint, n - 1);
      var earlier := Recovered(endpoint, infos, known, dismissed, mint, n - 1);
      var recovered := Recovered(endpoint, infos, known, dismissed, mint, n);
      if recovered != earlier {
        var ws := recovered[|earlier|];
        assert recovered == earlier + [ws];
        assert infos[n - 1] in infos && FromInventory(ws, endpoint, infos, known, dismissed);
        NewRuntimeStaysDistinct(earlier, ws);
      }
    }
  }

  lemma {:induction false} RecoveredIsComplete(
    endpoint: Endpoint, infos: seq<WorkspaceInfo>, known: set<string>, dismissed: set<string>,
    mint: (nat, nat) -> string, n: nat)
    requires n <= |infos|
    ensures forall k | 0 <= k < n && infos[k].id.Some? ::
              var id := infos[k].id.value;
              id in dismissed || id in known || id in RuntimeIds(Recovered(endpoint, infos, known, dismissed, mint, n))
  {
    if n > 0 {
      RecoveredIsComplete(endpoint, infos, known, dismissed, mint, n - 1);
      var earlier := Recovered(endpoint, infos, known, dismissed, mint, n - 1);
      var recovered := Recovered(endpoint, infos, known, dismissed, mint, n);
      if |recovered| > |earlier| {
        RuntimeIdsOfMore(earlier, recovered[|earlier|]);
      }
    }
  }

  lemma RuntimeIdsOfMore(earlier: seq<Workspace>, ws: Workspace)
    requires ws.runtimeId.Some?
    ensures ws.runtimeId.value in RuntimeIds(earlier + [ws])
    ensures RuntimeIds(earlier) <= RuntimeIds(earlier + [ws])
  {
    assert ws in earlier + [ws];
    forall id | id in RuntimeIds(earlier)
      ensures id in RuntimeIds(earlier + [ws])
    {
      var other :| other in earlier && other.runtimeId == Some(id);
      assert other in earlier + [ws];
    }
  }

  // An inventory only appends workspaces. Those it appends are bound to pairwise distinct
  // runtimes, none known or dismissed before, and afterwards every well-formed listed
  // runtime is known on the endpoint or dismissed.
  lemma InventoryRecoversExactlyTheMissing(w: Window, endpoint: Endpoint, infos: seq<WorkspaceInfo>,
                                           mint: (nat, nat) -> string)
    ensures var (w', recovered) := ApplyInventory(w, endpoint, infos, mint);
            && w'.workspaces == w.workspaces + recovered
            && w'.dismissed == w.dismissed * ListedIds(infos)
            && DistinctRuntimes(recovered)
            && (forall i | 0 <= i < |recovered| ::
                  FromInventory(recovered[i], endpoint, infos, KnownRuntimeIds(w.workspaces, endpoint), w.dismissed))
            && ListedIds(infos) <= KnownRuntimeIds(w'.workspaces, endpoint) + w'.dismissed
  {
    var known := KnownRuntimeIds(w.workspaces, endpoint);
    var dismissed := w.dismissed * ListedIds(infos);
    RecoveredIsSound(endpoint, infos, known, dismissed, mint, |infos|);
    RecoveredIsComplete(endpoint, infos, known, dismissed, mint, |infos|);
    var (w', recovered) := ApplyInventory(w, endpoint, infos, mint);
    KnownAfterAppending(w.workspaces, recovered, endpoint);
    forall id | id in ListedIds(infos)
      ensures id in KnownRuntimeIds(w'.workspaces, endpoint) + w'.dismissed
    {
      var info :| info in infos && info.id == Some(id);
      var k :| 0 <= k < |infos| && infos[k] == info;
      assert infos[k].id.Some?;
    }
  }

  lemma KnownAfterAppending(before: seq<Workspace>, more: seq<Workspace>, endpoint: Endpoint)
    requires forall i | 0 <= i < |more| :: more[i].managed && more[i].endpoint == endpoint
    ensures KnownRuntimeIds(before + more, endpoint) == KnownRuntimeIds(before, endpoint) + RuntimeIds(more)
  {
    var all := before + more;
    forall id | id in KnownRuntimeIds(before, endpoint) + RuntimeIds(more)
      ensures id in KnownRuntimeIds(all, endpoint)
    {
      if id in KnownRuntimeIds(before, endpoint) {
        var ws :| ws in before && ws.managed && ws.endpoint == endpoint && ws.runtimeId == Some(id);
        assert ws in all;
      } else {
        var ws :| ws in more && ws.runtimeId == Some(id);
        assert ws in all;
      }
    }
  }

  // Loading the same inventory again recovers nothing, whatever ids are minted.
  lemma SecondPassRecoversNothing(w: Window, endpoint: Endpoint, infos: seq<WorkspaceInfo>,
                                  mint: (nat, nat) -> string, again: (nat, nat) -> string)
    ensures var once := ApplyInventory(w, endpoint, infos, mint).0;
            ApplyInventory(once, endpoint, infos, again) == (once, [])
  {
    InventoryRecoversExactlyTheMissing(w, endpoint, infos, mint);
    var once := ApplyInventory(w, endpoint, infos, mint).0;
    InventoryRecoversExactlyTheMissing(once, endpoint, infos, again);
    var (twice, recovered) := ApplyInventory(once, endpoint, infos, again);
    if recovered != [] {
      assert false;
    }
    assert once.dismissed * ListedIds(infos) == once.dismissed;
    assert once.workspaces + [] == once.workspaces;
  }

  // ---------------------------------------------------------------- recovered layouts

  function InventoryLeaves(panes: seq<PaneInfo>, mint: nat -> string): seq<string> {
    seq(|panes|, j requires 0 <= j < |panes| => if panes[j].id.Some? then panes[j].id.value else mint(j))
  }

  // A recovered layout lists the inventory's panes in order, with minted names only where
  // the daemon's id is malformed.
  lemma {:induction false} RecoveredLayoutListsPanes(panes: seq<PaneInfo>, mint: nat -> string)
    requires panes != []
    ensures LayoutFromInventory(panes, mint).TerminalUuids() == InventoryLeaves(panes, mint)
  {
    if |panes| > 1 {
      var last := |panes| - 1;
      RecoveredLayoutListsPanes(panes[..last], mint);
      assert InventoryLeaves(panes, mint)
          == InventoryLeaves(panes[..last], mint) + [InventoryLeaves(panes, mint)[last]];
    }
  }

  lemma RecoveredLeaves(endpoint: Endpoint, info: WorkspaceInfo, mint: nat -> string)
    requires info.id.Some?
    ensures RecoveredWorkspace(endpoint, info, mint).value.Leaves() == ShownLeaves(info.panes, mint)
  {
    if info.panes != [] {
      RecoveredLayoutListsPanes(info.panes, mint);
    }
  }

  // What the layout recovered from these panes shows: without any, one minted terminal.
  function ShownLeaves(panes: seq<PaneInfo>, mint: nat -> string): seq<string> {
    if panes == [] then [mint(0)] else InventoryLeaves(panes, mint)
  }

  // What a recovered workspace takes over from its entry, and what it starts with.
  predicate Mirrors(ws: Workspace, endpoint: Endpoint, info: WorkspaceInfo, mint: nat -> string) {
    && info.id.Some? && ws.runtimeId == info.id && ws.uuid == InventoryWorkspaceId(endpoint, info.id.value)
    && ws.managed && ws.endpoint == endpoint
    && ws.name == info.name && ws.userRenamed == info.userRenamed
    && (ws.policy.Ephemeral? <==> info.policy == Some(Ephemeral))
    && ws.layout == LayoutFromInventory(info.panes, mint)
    && ws.recovery.Keys == (set uuid | uuid in ws.Leaves())
    && (forall uuid | uuid in ws.recovery :: ws.recovery[uuid].EmptyShell?)
    && ws.activeTerminal == Some(ws.Leaves()[0]) && ws.zoomedTerminal.None?
  }

  lemma {:induction false} RecoveredMirrors(
    endpoint: Endpoint, infos: seq<WorkspaceInfo>, known: set<string>, dismissed: set<string>,
    mint: (nat, nat) -> string, n: nat)
    requires n <= |infos|
    ensures forall ws | ws in Recovered(endpoint, infos, known, dismissed, mint, n) ::
              exists k :: 0 <= k < n && Mirrors(ws, endpoint, infos[k], MintAt(mint, k))
  {
    if n > 0 {
      RecoveredMirrors(endpoint, infos, known, dismissed, mint, n - 1);
      var recovered := Recovered(endpoint, infos, known, dismissed, mint, n);
      forall ws | ws in recovered
        ensures exists k :: 0 <= k < n && Mirrors(ws, endpoint, infos[k], MintAt(mint, k))
      {
        if ws !in Recovered(endpoint, infos, known, dismissed, mint, n - 1) {
          assert Mirrors(ws, endpoint, infos[n - 1], MintAt(mint, n - 1));
        }
      }
    }
  }

  // Whatever an inventory recovers mirrors one of its entries.
  lemma RecoveredMirrorEntries(w: Window, endpoint: Endpoint, infos: seq<WorkspaceInfo>, mint: (nat, nat) -> string)
    ensures forall ws | ws in ApplyInventory(w, endpoint, infos, mint).1 ::
              exists k :: 0 <= k < |infos| && Mirrors(ws, endpoint, infos[k], MintAt(mint, k))
  {
    RecoveredMirrors(endpoint, infos, KnownRuntimeIds(w.workspaces, endpoint), w.dismissed * ListedIds(infos), mint,
                     |infos|);
  }

  // ---------------------------------------------------------------- which entries are recovered

  // The entry is the first of its runtime, and that is neither known nor dismissed.
  predicate IsFirst(infos: seq<WorkspaceInfo>, known: set<string>, dismissed: set<string>, k: nat) {
    && k < |infos| && infos[k].id.Some?
    && infos[k].id.value !in known && infos[k].id.value !in dismissed
    && (forall j | 0 <= j < k :: infos[j].id != infos[k].id)
  }

  // The runtime ids of the first n entries that may be recovered.
  predicate IsOpenIn(infos: seq<WorkspaceInfo>, known: set<string>, dismissed: set<string>, n: nat, id: string)
    requires n <= |infos|
  {
    id !in known && id !in dismissed && exists j :: 0 <= j < n && infos[j].id == Some(id)
  }

  lemma OpenInOneMore(infos: seq<WorkspaceInfo>, known: set<string>, dismissed: set<string>, n: nat, id: string)
    requires n < |infos|
    ensures IsOpenIn(infos, known, dismissed, n + 1, id)
            <==> || IsOpenIn(infos, known, dismissed, n, id)
                 || (id !in known && id !in dismissed && infos[n].id == Some(id))
  {
    if infos[n].id == Some(id) {
      assert infos[n].id == Some(id);
    }
  }

  lemma OneMoreRuntimeId(earlier: seq<Workspace>, ws: Workspace, id: string)
    ensures id in RuntimeIds(earlier + [ws]) <==> id in RuntimeIds(earlier) || ws.runtimeId == Some(id)
  {
    assert forall other :: other in earlier + [ws] <==> other in earlier || other == ws;
    if id in RuntimeIds(earlier) {
      var other :| other in earlier && other.runtimeId == Some(id);
      assert other in earlier + [ws];
    }
  }

  // One more entry: its workspace is added unless its runtime is known, dismissed or there.
  lemma AddedUnlessThere(
    endpoint: Endpoint, infos: seq<WorkspaceInfo>, known: set<string>, dismissed: set<string>,
    mint: (nat, nat) -> string, n: nat)
    returns (added: Option<Workspace>)
    requires n < |infos|
    ensures var earlier := Recovered(endpoint, infos, known, dismissed, mint, n);
            && added == (if infos[n].id.None? || infos[n].id.value in dismissed || infos[n].id.value in known
                            || infos[n].id.value in RuntimeIds(earlier) then None
                         else RecoveredWorkspace(endpoint, infos[n], MintAt(mint, n)))
            && Recovered(endpoint, infos, known, dismissed, mint, n + 1)
               == (if added.None? then earlier else earlier + [added.value])
            && (added.Some? ==> added.value.runtimeId == infos[n].id)
  {
    var earlier := Recovered(endpoint, infos, known, dismissed, mint, n);
    if infos[n].id.None? || infos[n].id.value in dismissed + known + RuntimeIds(earlier) {
      added := None;
    } else {
      added := RecoveredWorkspace(endpoint, infos[n], MintAt(mint, n));
    }
  }

  lemma {:induction false} RecoveredIds(
    endpoint: Endpoint, infos: seq<WorkspaceInfo>, known: set<string>, dismissed: set<string>,
    mint: (nat, nat) -> string, n: nat, id: string)
    requires n <= |infos|
    ensures id in RuntimeIds(Recovered(endpoint, infos, known, dismissed, mint, n))
            <==> IsOpenIn(infos, known, dismissed, n, id)
  {
    if n > 0 {
      RecoveredIds(endpoint, infos, known, dismissed, mint, n - 1, id);
      var added := AddedUnlessThere(endpoint, infos, known, dismissed, mint, n - 1);
      OpenInOneMore(infos, known, dismissed, n - 1, id);
      if added.Some? {
        OneMoreRuntimeId(Recovered(endpoint, infos, known, dismissed, mint, n - 1), added.value, id);
      }
    }
  }

  // The entries yet to be recovered among the first n, as workspaces.
  function Entries(
    endpoint: Endpoint, infos: seq<WorkspaceInfo>, known: set<string>, dismissed: set<string>,
    mint: (nat, nat) -> string, n: nat):
    seq<Workspace>
    requires n <= |infos|
  {
    if n == 0 then []
    else
      var earlier := Entries(endpoint, infos, known, dismissed, mint, n - 1);
      if IsFirst(infos, known, dismissed, n - 1)
      then earlier + [RecoveredWorkspace(endpoint, infos[n - 1], MintAt(mint, n - 1)).value] else earlier
  }

  lemma FirstIffNotOpen(infos: seq<WorkspaceInfo>, known: set<string>, dismissed: set<string>, n: nat)
    requires n < |infos|
    ensures IsFirst(infos, known, dismissed, n)
            <==> && infos[n].id.Some? && infos[n].id.value !in known && infos[n].id.value !in dismissed
                 && !IsOpenIn(infos, known, dismissed, n, infos[n].id.value)
  {
  }

  // A pass recovers exactly the first entries of runtimes neither known nor dismissed.
  lemma {:induction false} RecoveredAreEntries(
    endpoint: Endpoint, infos: seq<WorkspaceInfo>, known: set<string>, dismissed: set<string>,
    mint: (nat, nat) -> string, n: nat)
    requires n <= |infos|
    ensures Recovered(endpoint, infos, known, dismissed, mint, n) == Entries(endpoint, infos, known, dismissed, mint, n)
  {
    if n > 0 {
      RecoveredAreEntries(endpoint, infos, known, dismissed, mint, n - 1);
      var added := AddedUnlessThere(endpoint, infos, known, dismissed, mint, n - 1);
      FirstIffNotOpen(infos, known, dismissed, n - 1);
      if infos[n - 1].id.Some? {
        RecoveredIds(endpoint, infos, known, dismissed, mint, n - 1, infos[n - 1].id.value);
      }
    }
  }

  predicate EachDistinct(workspaces: seq<Workspace>) {
    forall ws | ws in workspaces :: Distinct(ws.Leaves())
  }

  lemma EachDistinctOfMore(earlier: seq<Workspace>, ws: Workspace, leaves: seq<string>)
    requires ws.Leaves() == leaves
    ensures EachDistinct(earlier + [ws]) <==> EachDistinct(earlier) && Distinct(leaves)
  {
    assert forall other :: other in earlier + [ws] <==> other in earlier || other == ws;
  }

  // The k-th entry, if it is yet to be recovered, lists no pane twice.
  predicate ListsOnce(infos: seq<WorkspaceInfo>, known: set<string>, dismissed: set<string>,
                      mint: (nat, nat) -> string, k: nat)
    requires k < |infos|
  {
    IsFirst(infos, known, dismissed, k) ==> Distinct(ShownLeaves(infos[k].panes, MintAt(mint, k)))
  }

  // No entry yet to be recovered, among the first n, lists a pane twice.
  predicate ListsPanesOnce(infos: seq<WorkspaceInfo>, known: set<string>, dismissed: set<string>,
                           mint: (nat, nat) -> string, n: nat)
    requires n <= |infos|
  {
    forall k | 0 <= k < n :: ListsOnce(infos, known, dismissed, mint, k)
  }

  lemma NextEntry(
    endpoint: Endpoint, infos: seq<WorkspaceInfo>, known: set<string>, dismissed: set<string>,
    mint: (nat, nat) -> string, n: nat)
    returns (added: seq<Workspace>)
    requires n < |infos|
    ensures Entries(endpoint, infos, known, dismissed, mint, n + 1)
            == Entries(endpoint, infos, known, dismissed, mint, n) + added
    ensures |added| == (if IsFirst(infos, known, dismissed, n) then 1 else 0)
    ensures added != [] ==> added[0].Leaves() == ShownLeaves(infos[n].panes, MintAt(mint, n))
  {
    if IsFirst(infos, known, dismissed, n) {
      RecoveredLeaves(endpoint, infos[n], MintAt(mint, n));
      added := [RecoveredWorkspace(endpoint, infos[n], MintAt(mint, n)).value];
    } else {
      added := [];
    }
  }

  lemma DistinctWithNext(earlier: seq<Workspace>, added: seq<Workspace>, leaves: seq<string>)
    requires |added| <= 1 && (added != [] ==> added[0].Leaves() == leaves)
    ensures EachDistinct(earlier + added) <==> EachDistinct(earlier) && (added != [] ==> Distinct(leaves))
  {
    if added == [] {
      assert earlier + added == earlier;
    } else {
      assert added == [added[0]];
      EachDistinctOfMore(earlier, added[0], leaves);
    }
  }

  lemma OneMoreDistinct(
    endpoint: Endpoint, infos: seq<WorkspaceInfo>, known: set<string>, dismissed: set<string>,
    mint: (nat, nat) -> string, n: nat)
    requires n < |infos|
    ensures EachDistinct(Entries(endpoint, infos, known, dismissed, mint, n + 1))
            <==> && EachDistinct(Entries(endpoint, infos, known, dismissed, mint, n))
                 && ListsOnce(infos, known, dismissed, mint, n)
  {
    var added := NextEntry(endpoint, infos, known, dismissed, mint, n);
    DistinctWithNext(Entries(endpoint, infos, known, dismissed, mint, n), added,
                     ShownLeaves(infos[n].panes, MintAt(mint, n)));
  }

  // Every recovered workspace shows distinct leaves exactly if no such entry lists one twice.
  lemma {:induction false} EntriesDistinctIff(
    endpoint: Endpoint, infos: seq<WorkspaceInfo>, known: set<string>, dismissed: set<string>,
    mint: (nat, nat) -> string, n: nat)
    requires n <= |infos|
    ensures EachDistinct(Entries(endpoint, infos, known, dismissed, mint, n))
            <==> ListsPanesOnce(infos, known, dismissed, mint, n)
  {
    if n > 0 {
      EntriesDistinctIff(endpoint, infos, known, dismissed, mint, n - 1);
      OneMoreDistinct(endpoint, infos, known, dismissed, mint, n - 1);
    }
  }

  // The name of the last entry recovered, among the first n, that lists the pane.
  function NamesPane(
    endpoint: Endpoint, infos: seq<WorkspaceInfo>, known: set<string>, dismissed: set<string>,
    mint: (nat, nat) -> string, n: nat, paneId: string): Option<string>
    requires n <= |infos|
  {
    if n == 0 then None
    else if IsFirst(infos, known, dismissed, n - 1) && paneId in ShownLeaves(infos[n - 1].panes, MintAt(mint, n - 1))
    then Some(InventoryWorkspaceId(endpoint, infos[n - 1].id.value))
    else NamesPane(endpoint, infos, known, dismissed, mint, n - 1, paneId)
  }

  lemma {:induction false} EntriesOwner(
    endpoint: Endpoint, infos: seq<WorkspaceInfo>, known: set<string>, dismissed: set<string>,
    mint: (nat, nat) -> string, n: nat, paneId: string)
    requires n <= |infos|
    ensures LastOwner(Entries(endpoint, infos, known, dismissed, mint, n), endpoint.Key(), paneId)
            == NamesPane(endpoint, infos, known, dismissed, mint, n, paneId)
  {
    if n > 0 {
      EntriesOwner(endpoint, infos, known, dismissed, mint, n - 1, paneId);
      if IsFirst(infos, known, dismissed, n - 1) {
        RecoveredLeaves(endpoint, infos[n - 1], MintAt(mint, n - 1));
        OwnerOfOneMore(Entries(endpoint, infos, known, dismissed, mint, n - 1),
                       RecoveredWorkspace(endpoint, infos[n - 1], MintAt(mint, n - 1)).value, endpoint.Key(), paneId);
      }
    }
  }

  lemma OwnerOfOneMore(earlier: seq<Workspace>, ws: Workspace, endpointKey: string, paneId: string)
    ensures LastOwner(earlier + [ws], endpointKey, paneId)
            == if Shows(ws, endpointKey, paneId) then Some(ws.uuid) else LastOwner(earlier, endpointKey, paneId)
  {
    assert (earlier + [ws])[..|earlier|] == earlier;
  }

  // Dismissals of runtimes the inventory does not list make no difference.
  lemma OnlyListedDismissalsMatter(infos: seq<WorkspaceInfo>, known: set<string>, dismissed: set<string>, k: nat)
    ensures IsFirst(infos, known, dismissed * ListedIds(infos), k) <==> IsFirst(infos, known, dismissed, k)
  {
    if k < |infos| && infos[k].id.Some? {
      assert infos[k] in infos;
    }
  }

  // ---------------------------------------------------------------- dismissed runtimes

  predicate AlwaysListed(steps: seq<Step>, id: string) {
    forall i | 0 <= i < |steps| && steps[i].event.InventoryLoaded? :: id in ListedIds(steps[i].event.infos)
  }

  lemma DismissalAfterOneEvent(w: Window, step: Step, id: string)
    ensures id in Reconcile(w, step.event, step.mint).0.dismissed
            <==> id in w.dismissed && (step.event.InventoryLoaded? ==> id in ListedIds(step.event.infos))
  {
    match step.event
    case InventoryLoaded(endpoint, infos) => InventoryRecoversExactlyTheMissing(w, endpoint, infos, step.mint);
    case _ =>
  }

  // A dismissal survives a run exactly when every inventory loaded in it lists the runtime,
  // whichever endpoint the inventory is of.
  lemma {:induction false} DismissalSurvivesIffAlwaysListed(w: Window, steps: seq<Step>, id: string)
    requires id in w.dismissed
    ensures id in Run(w, steps).dismissed <==> AlwaysListed(steps, id)
  {
    if steps != [] {
      var n := |steps| - 1;
      DismissalSurvivesIffAlwaysListed(w, steps[..n], id);
      DismissalAfterOneEvent(Run(w, steps[..n]), steps[n], id);
      if AlwaysListed(steps[..n], id) && (steps[n].event.InventoryLoaded? ==> id in ListedIds(steps[n].event.infos)) {
        assert forall i | 0 <= i < |steps| :: i < n ==> steps[..n][i] == steps[i];
      }
      if AlwaysListed(steps, id) {
        assert forall i | 0 <= i < n :: steps[..n][i] == steps[i];
      }
    }
  }

  lemma OnlyInventoriesRecover(w: Window, step: Step)
    ensures Reconcile(w, step.event, step.mint).1.recovered
            == match step.event
               case InventoryLoaded(endpoint, infos) => ApplyInventory(w, endpoint, infos, step.mint).1
               case _ => []
  {
  }

  // While it survives, no event of the run recovers the runtime.
  lemma DismissedIsNotResurrected(w: Window, steps: seq<Step>, id: string, i: nat)
    requires id in w.dismissed && AlwaysListed(steps, id) && i < |steps|
    ensures var recovered := Reconcile(Run(w, steps[..i]), steps[i].event, steps[i].mint).1.recovered;
            forall ws | ws in recovered :: ws.runtimeId != Some(id)
  {
    assert forall j | 0 <= j < i :: steps[..i][j] == steps[j];
    DismissalSurvivesIffAlwaysListed(w, steps[..i], id);
    OnlyInventoriesRecover(Run(w, steps[..i]), steps[i]);
    if steps[i].event.InventoryLoaded? {
      InventoryRecoversExactlyTheMissing(Run(w, steps[..i]), steps[i].event.endpoint, steps[i].event.infos,
                                         steps[i].mint);
    }
  }

  lemma UnknownRuntimeIsRecovered(w: Window, endpoint: Endpoint, info: WorkspaceInfo, mint: (nat, nat) -> string)
    requires info.id.Some? && info.id.value !in KnownRuntimeIds(w.workspaces, endpoint) && info.id.value !in w.dismissed
    ensures var recovered := ApplyInventory(w, endpoint, [info], mint).1;
            |recovered| == 1 && recovered[0].runtimeId == info.id
  {
    var known, dismissed := KnownRuntimeIds(w.workspaces, endpoint), w.dismissed * ListedIds([info]);
    assert Recovered(endpoint, [info], known, dismissed, mint, 0) == [];
  }

  // The hypothesis is needed: one inventory of any endpoint that does not list a dismissed
  // runtime forgets the dismissal, and the next inventory that lists it brings it back.
  lemma OtherEndpointForgetsDismissal(w: Window, other: Endpoint, endpoint: Endpoint, info: WorkspaceInfo,
                                      mint: (nat, nat) -> string)
    requires info.id.Some? && info.id.value !in KnownRuntimeIds(w.workspaces, endpoint)
    ensures var forgotten := ApplyInventory(w, other, [], mint).0;
            var recovered := ApplyInventory(forgotten, endpoint, [info], mint).1;
            |recovered| == 1 && recovered[0].runtimeId == info.id
  {
    InventoryRecoversExactlyTheMissing(w, other, [], mint);
    var (forgotten, nobody) := ApplyInventory(w, other, [], mint);
    assert nobody == [];
    assert forgotten.workspaces == w.workspaces;
    UnknownRuntimeIsRecovered(forgotten, endpoint, info, mint);
  }

  // ---------------------------------------------------------------- names of recovered workspaces

  // Some workspace bears the name a recovery would give the runtime.
  predicate NameIsTaken(w: Window, endpoint: Endpoint, id: string) {
    exists i :: 0 <= i < |w.workspaces| && w.workspaces[i].uuid == InventoryWorkspaceId(endpoint, id)
  }

  // A pass recovers exactly the listed runtimes that are neither known nor dismissed.
  predicate IsMissing(w: Window, endpoint: Endpoint, infos: seq<WorkspaceInfo>, id: string) {
    id in ListedIds(infos) && id !in KnownRuntimeIds(w.workspaces, endpoint) && id !in w.dismissed
  }

  lemma MissingIsRecovered(w: Window, endpoint: Endpoint, infos: seq<WorkspaceInfo>, mint: (nat, nat) -> string,
                           id: string)
    returns (k: nat)
    requires IsMissing(w, endpoint, infos, id)
    ensures var recovered := ApplyInventory(w, endpoint, infos, mint).1;
            && k < |recovered| && recovered[k].runtimeId == Some(id)
            && recovered[k].uuid == InventoryWorkspaceId(endpoint, id)
  {
    var (w', recovered) := ApplyInventory(w, endpoint, infos, mint);
    InventoryRecoversExactlyTheMissing(w, endpoint, infos, mint);
    KnownAfterAppending(w.workspaces, recovered, endpoint);
    assert id in KnownRuntimeIds(w'.workspaces, endpoint);
    assert id in RuntimeIds(recovered);
    var ws :| ws in recovered && ws.runtimeId == Some(id);
    k :| 0 <= k < |recovered| && recovered[k] == ws;
  }

  lemma InventoryNameIsInjective(endpoint: Endpoint, a: string, b: string)
    requires InventoryWorkspaceId(endpoint, a) == InventoryWorkspaceId(endpoint, b)
    ensures a == b
  {
    var prefix := "inventory:" + endpoint.Key() + ":";
    assert InventoryWorkspaceId(endpoint, a)[|prefix|..] == a;
    assert InventoryWorkspaceId(endpoint, b)[|prefix|..] == b;
  }

  lemma SharedNameRepeats(before: seq<Workspace>, recovered: seq<Workspace>, i: nat, k: nat)
    requires i < |before| && k < |recovered| && before[i].uuid == recovered[k].uuid
    ensures !DistinctUuids(before + recovered)
  {
    var all := before + recovered;
    assert all[i].uuid == all[|before| + k].uuid;
  }

  lemma TakenNameRepeats(w: Window, endpoint: Endpoint, infos: seq<WorkspaceInfo>, mint: (nat, nat) -> string,
                         id: string)
    requires IsMissing(w, endpoint, infos, id) && NameIsTaken(w, endpoint, id)
    ensures !DistinctUuids(ApplyInventory(w, endpoint, infos, mint).0.workspaces)
  {
    var k := MissingIsRecovered(w, endpoint, infos, mint, id);
    var i :| 0 <= i < |w.workspaces| && w.workspaces[i].uuid == InventoryWorkspaceId(endpoint, id);
    InventoryRecoversExactlyTheMissing(w, endpoint, infos, mint);
    SharedNameRepeats(w.workspaces, ApplyInventory(w, endpoint, infos, mint).1, i, k);
  }

  lemma RecoveredNameIsNew(w: Window, endpoint: Endpoint, infos: seq<WorkspaceInfo>, recovered: seq<Workspace>, n: nat,
                           i: nat)
    requires forall id | IsMissing(w, endpoint, infos, id) :: !NameIsTaken(w, endpoint, id)
    requires forall j | 0 <= j < |recovered| ::
               FromInventory(recovered[j], endpoint, infos, KnownRuntimeIds(w.workspaces, endpoint), w.dismissed)
    requires DistinctRuntimes(recovered) && n < |recovered| && i < |w.workspaces| + n
    ensures (w.workspaces + recovered)[i].uuid != recovered[n].uuid
  {
    var id := recovered[n].runtimeId.value;
    assert IsMissing(w, endpoint, infos, id);
    if i < |w.workspaces| {
      assert w.workspaces[i].uuid != InventoryWorkspaceId(endpoint, id);
    } else if recovered[i - |w.workspaces|].uuid == recovered[n].uuid {
      InventoryNameIsInjective(endpoint, recovered[i - |w.workspaces|].runtimeId.value, id);
    }
  }

  lemma FreeNamesStayDistinct(w: Window, endpoint: Endpoint, infos: seq<WorkspaceInfo>, recovered: seq<Workspace>)
    requires DistinctUuids(w.workspaces)
    requires forall id | IsMissing(w, endpoint, infos, id) :: !NameIsTaken(w, endpoint, id)
    requires forall j | 0 <= j < |recovered| ::
               FromInventory(recovered[j], endpoint, infos, KnownRuntimeIds(w.workspaces, endpoint), w.dismissed)
    requires DistinctRuntimes(recovered)
    ensures DistinctUuids(w.workspaces + recovered)
  {
    var all := w.workspaces + recovered;
    forall i, j | 0 <= i < j < |all|
      ensures all[i].uuid != all[j].uuid
    {
      if j >= |w.workspaces| {
        RecoveredNameIsNew(w, endpoint, infos, recovered, j - |w.workspaces|, i);
      }
    }
  }

  // Distinct names stay distinct over an inventory exactly when no name is taken that a
  // missing runtime would be recovered under.
  lemma NamesStayDistinctIffFree(w: Window, endpoint: Endpoint, infos: seq<WorkspaceInfo>, mint: (nat, nat) -> string)
    requires DistinctUuids(w.workspaces)
    ensures DistinctUuids(ApplyInventory(w, endpoint, infos, mint).0.workspaces)
            <==> forall id | IsMissing(w, endpoint, infos, id) :: !NameIsTaken(w, endpoint, id)
  {
    if id :| IsMissing(w, endpoint, infos, id) && NameIsTaken(w, endpoint, id) {
      TakenNameRepeats(w, endpoint, infos, mint, id);
    } else {
      InventoryRecoversExactlyTheMissing(w, endpoint, infos, mint);
      FreeNamesStayDistinct(w, endpoint, infos, ApplyInventory(w, endpoint, infos, mint).1);
    }
  }

  // A workspace that was recovered and has since lost its runtime, or been rebound to
  // another, is recovered a second time under its name.
  lemma LostRuntimeIsRecoveredAgain(w: Window, endpoint: Endpoint, info: WorkspaceInfo, mint: (nat, nat) -> string,
                                    i: nat)
    requires info.id.Some? && info.id.value !in KnownRuntimeIds(w.workspaces, endpoint) && info.id.value !in w.dismissed
    requires i < |w.workspaces| && w.workspaces[i].uuid == InventoryWorkspaceId(endpoint, info.id.value)
    ensures var w' := ApplyInventory(w, endpoint, [info], mint).0;
            |w'.workspaces| == |w.workspaces| + 1 && w'.workspaces[|w.workspaces|].uuid == w'.workspaces[i].uuid
  {
    assert info in [info];
    UnknownRuntimeIsRecovered(w, endpoint, info, mint);
    InventoryRecoversExactlyTheMissing(w, endpoint, [info], mint);
  }

  lemma FirstRecovery(endpoint: Endpoint, info: WorkspaceInfo, mint: (nat, nat) -> string)
    requires info.id.Some?
    ensures var first := ApplyInventory(Window([], {}, map[]), endpoint, [info], mint).0;
            && |first.workspaces| == 1 && first.dismissed == {}
            && first.workspaces[0].uuid == InventoryWorkspaceId(endpoint, info.id.value)
            && FindWorkspace(first.workspaces, InventoryWorkspaceId(endpoint, info.id.value)) == Some(0)
  {
    var empty := Window([], {}, map[]);
    UnknownRuntimeIsRecovered(empty, endpoint, info, mint);
    InventoryRecoversExactlyTheMissing(empty, endpoint, [info], mint);
  }

  // The events that take its runtime from a recovered workspace: a termination, and a
  // reopening under another runtime.
  predicate TakesRuntime(event: EndpointEvent, name: string, id: string) {
    || event == WorkspaceTerminated(name)
    || (event.WorkspaceOpened? && event.workspaceId == name && event.runtimeId != id)
  }

  lemma OpenBinds(ws: Workspace, runtimeId: string, snapshot: Snapshot)
    ensures var session := OpenWorkspace(ws, runtimeId, snapshot).session;
            session.uuid == ws.uuid && session.runtimeId == Some(runtimeId)
  {
  }

  lemma RuntimeIsTaken(w: Window, event: EndpointEvent, id: string, mint: (nat, nat) -> string)
    requires |w.workspaces| == 1 && FindWorkspace(w.workspaces, w.workspaces[0].uuid) == Some(0)
    requires TakesRuntime(event, w.workspaces[0].uuid, id)
    ensures var lost := Reconcile(w, event, mint).0;
            && |lost.workspaces| == 1 && lost.dismissed == w.dismissed
            && lost.workspaces[0].uuid == w.workspaces[0].uuid && lost.workspaces[0].runtimeId != Some(id)
  {
    if event.WorkspaceOpened? {
      OpenBinds(w.workspaces[0], event.runtimeId, event.snapshot);
    }
  }

  // From an empty window, on one endpoint: an inventory, an event that takes the recovered
  // workspace its runtime, and the same inventory again leave two workspaces of one name.
  lemma OneEndpointRecoversSameName(endpoint: Endpoint, info: WorkspaceInfo, event: EndpointEvent,
                                    mint: (nat, nat) -> string)
    requires info.id.Some? && TakesRuntime(event, InventoryWorkspaceId(endpoint, info.id.value), info.id.value)
    ensures var first := ApplyInventory(Window([], {}, map[]), endpoint, [info], mint).0;
            var again := ApplyInventory(Reconcile(first, event, mint).0, endpoint, [info], mint).0.workspaces;
            |again| == 2 && again[0].uuid == again[1].uuid == InventoryWorkspaceId(endpoint, info.id.value)
  {
    FirstRecovery(endpoint, info, mint);
    var first := ApplyInventory(Window([], {}, map[]), endpoint, [info], mint).0;
    RuntimeIsTaken(first, event, info.id.value, mint);
    var lost := Reconcile(first, event, mint).0;
    assert info.id.value !in KnownRuntimeIds(lost.workspaces, endpoint);
    LostRuntimeIsRecoveredAgain(lost, endpoint, info, mint, 0);
    InventoryRecoversExactlyTheMissing(lost, endpoint, [info], mint);
  }

  // Known runtimes are compared by endpoint, workspace names by endpoint key: two
  // endpoints of one host that differ in their daemon binary recover the same runtime
  // under the same workspace name.
  lemma SameHostRecoversSameName(host: string, binary: string, info: WorkspaceInfo, mint: (nat, nat) -> string)
    requires info.id.Some?
    ensures var a, b := Remote(host, None), Remote(host, Some(binary));
            var (first, one) := ApplyInventory(Window([], {}, map[]), a, [info], mint);
            var (_, two) := ApplyInventory(first, b, [info], mint);
            |one| == 1 && |two| == 1 && one[0].uuid == two[0].uuid
  {
    var a, b := Remote(host, None), Remote(host, Some(binary));
    var empty := Window([], {}, map[]);
    UnknownRuntimeIsRecovered(empty, a, info, mint);
    InventoryRecoversExactlyTheMissing(empty, a, [info], mint);
    var first := ApplyInventory(empty, a, [info], mint).0;
    assert forall ws | ws in first.workspaces :: ws.endpoint == a;
    UnknownRuntimeIsRecovered(first, b, info, mint);
    InventoryRecoversExactlyTheMissing(first, b, [info], mint);
  }
}
