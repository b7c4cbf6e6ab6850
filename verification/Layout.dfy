// The layout of a workspace: a binary tree of terminals, and the tree the daemon sends.
module Layout {
  import opened Wrappers

  datatype SplitOrientation = Horizontal | Vertical

  datatype LayoutNode =
    | Terminal(uuid: string, profile: Option<string>, cwd: Option<string>, customTitle: Option<string>)
    | Split(orientation: SplitOrientation, ratio: real, first: LayoutNode, second: LayoutNode)
  {
    function TerminalUuids(): (uuids: seq<string>)
      ensures |uuids| > 0
    {
      match this
      case Terminal(uuid, _, _, _) => [uuid]
      case Split(_, _, first, second) => first.TerminalUuids() + second.TerminalUuids()
    }

    predicate ContainsTerminal(target: string) {
      match this
      case Terminal(uuid, _, _, _) => uuid == target
      case Split(_, _, first, second) => first.ContainsTerminal(target) || second.ContainsTerminal(target)
    }

    // Re-keys the first terminal named `old_`; the flag says whether there was one.
    function ReplaceTerminalUuid(old_: string, new_: string): (LayoutNode, bool) {
      match this
      case Terminal(uuid, _, _, _) =>
        if uuid == old_ then (this.(uuid := new_), true) else (this, false)
      case Split(_, _, first, second) =>
        var (first', replaced) := first.ReplaceTerminalUuid(old_, new_);
        if replaced then (this.(first := first'), true)
        else
          var (second', replaced') := second.ReplaceTerminalUuid(old_, new_);
          (this.(first := first', second := second'), replaced')
    }

    // The layout without the terminals named `target`, or nothing if no terminal is left.
    function RemoveTerminal(target: string): Option<LayoutNode> {
      match this
      case Terminal(uuid, _, _, _) => if uuid == target then None else Some(this)
      case Split(orientation, ratio, first, second) =>
        match (first.RemoveTerminal(target), second.RemoveTerminal(target))
        case (None, None) => None
        case (None, Some(s)) => Some(s)
        case (Some(f), None) => Some(f)
        case (Some(f), Some(s)) => Some(Split(orientation, ratio, f, s))
    }

    // Sets the working directory of the first terminal named `target`.
    function SetTerminalCwd(target: string, newCwd: Option<string>): (LayoutNode, bool) {
      match this
      case Terminal(uuid, _, _, _) =>
        if uuid == target then (this.(cwd := newCwd), true) else (this, false)
      case Split(_, _, first, second) =>
        var (first', found) := first.SetTerminalCwd(target, newCwd);
        if found then (this.(first := first'), true)
        else
          var (second', found') := second.SetTerminalCwd(target, newCwd);
          (this.(first := first', second := second'), found')
    }

    function TerminalCwd(target: string): Option<string> {
      match this
      case Terminal(uuid, _, cwd, _) => if uuid == target then cwd else None
      case Split(_, _, first, second) =>
        if first.TerminalCwd(target).Some? then first.TerminalCwd(target) else second.TerminalCwd(target)
    }
  }

  // ---------------------------------------------------------------- leaves as a sequence

  // The reference for re-keying: the first occurrence changes, in place.
  function ReplaceFirst(uuids: seq<string>, old_: string, new_: string): seq<string> {
    if uuids == [] then []
    else if uuids[0] == old_ then [new_] + uuids[1..]
    else [uuids[0]] + ReplaceFirst(uuids[1..], old_, new_)
  }

  // The reference for removal: every occurrence goes, the others keep their order.
  function Without(uuids: seq<string>, target: string): seq<string> {
    if uuids == [] then []
    else (if uuids[0] == target then [] else [uuids[0]]) + Without(uuids[1..], target)
  }

  lemma {:induction false} ContainsIffLeaf(layout: LayoutNode, target: string)
    ensures layout.ContainsTerminal(target) <==> target in layout.TerminalUuids()
  {
    if layout.Split? {
      ContainsIffLeaf(layout.first, target);
      ContainsIffLeaf(layout.second, target);
    }
  }

  lemma {:induction false} ReplaceFirstInSum(a: seq<string>, b: seq<string>, old_: string, new_: string)
    ensures ReplaceFirst(a + b, old_, new_)
            == if old_ in a then ReplaceFirst(a, old_, new_) + b else a + ReplaceFirst(b, old_, new_)
  {
    if a == [] {
      assert a + b == b;
    } else {
      assert (a + b)[1..] == a[1..] + b;
      ReplaceFirstInSum(a[1..], b, old_, new_);
    }
  }

  lemma {:induction false} ReplaceRekeysOneLeaf(layout: LayoutNode, old_: string, new_: string)
    ensures var (layout', replaced) := layout.ReplaceTerminalUuid(old_, new_);
            && layout'.TerminalUuids() == ReplaceFirst(layout.TerminalUuids(), old_, new_)
            && (replaced <==> old_ in layout.TerminalUuids())
            && (!replaced ==> layout' == layout)
  {
    match layout
    case Terminal(uuid, _, _, _) =>
      assert [uuid][1..] == [];
    case Split(_, _, first, second) =>
      ReplaceRekeysOneLeaf(first, old_, new_);
      ReplaceRekeysOneLeaf(second, old_, new_);
      ReplaceFirstInSum(first.TerminalUuids(), second.TerminalUuids(), old_, new_);
  }

  lemma {:induction false} WithoutInSum(a: seq<string>, b: seq<string>, target: string)
    ensures Without(a + b, target) == Without(a, target) + Without(b, target)
  {
    if a == [] {
      assert a + b == b;
    } else {
      assert (a + b)[1..] == a[1..] + b;
      WithoutInSum(a[1..], b, target);
    }
  }

  lemma {:induction false} RemoveDropsOneName(layout: LayoutNode, target: string)
    ensures layout.RemoveTerminal(target).None? <==> Without(layout.TerminalUuids(), target) == []
    ensures layout.RemoveTerminal(target).Some?
            ==> layout.RemoveTerminal(target).value.TerminalUuids() == Without(layout.TerminalUuids(), target)
  {
    match layout
    case Terminal(uuid, _, _, _) =>
      assert [uuid][1..] == [];
    case Split(_, _, first, second) =>
      RemoveDropsOneName(first, target);
      RemoveDropsOneName(second, target);
      WithoutInSum(first.TerminalUuids(), second.TerminalUuids(), target);
  }

  lemma {:induction false} WithoutMembers(uuids: seq<string>, target: string)
    ensures forall u :: u in Without(uuids, target) <==> u in uuids && u != target
  {
    if uuids != [] {
      WithoutMembers(uuids[1..], target);
    }
  }

  lemma {:induction false} WithoutNothing(uuids: seq<string>, target: string)
    requires target !in uuids
    ensures Without(uuids, target) == uuids
  {
    if uuids != [] {
      WithoutNothing(uuids[1..], target);
    }
  }

  lemma {:induction false} SetCwdKeepsLeaves(layout: LayoutNode, target: string, newCwd: Option<string>)
    ensures layout.SetTerminalCwd(target, newCwd).0.TerminalUuids() == layout.TerminalUuids()
  {
    if layout.Split? {
      SetCwdKeepsLeaves(layout.first, target, newCwd);
      SetCwdKeepsLeaves(layout.second, target, newCwd);
    }
  }

  lemma {:induction false} SetCwdOfAbsentTerminal(layout: LayoutNode, target: string, newCwd: Option<string>)
    requires target !in layout.TerminalUuids()
    ensures layout.SetTerminalCwd(target, newCwd) == (layout, false) && layout.TerminalCwd(target) == None
  {
    if layout.Split? {
      SetCwdOfAbsentTerminal(layout.first, target, newCwd);
      SetCwdOfAbsentTerminal(layout.second, target, newCwd);
    }
  }

  // Among distinct leaves, setting one directory sets that one and no other.
  lemma {:induction false} SetCwdSetsOneLeaf(layout: LayoutNode, target: string, newCwd: Option<string>, asked: string)
    requires Distinct(layout.TerminalUuids()) && target in layout.TerminalUuids()
    ensures layout.SetTerminalCwd(target, newCwd).1
    ensures layout.SetTerminalCwd(target, newCwd).0.TerminalCwd(asked)
            == if asked == target then newCwd else layout.TerminalCwd(asked)
  {
    match layout
    case Terminal(_, _, _, _) =>
    case Split(_, _, first, second) =>
      DistinctHalves(first.TerminalUuids(), second.TerminalUuids());
      if target in first.TerminalUuids() {
        SetCwdSetsOneLeaf(first, target, newCwd, asked);
        SetCwdOfAbsentTerminal(second, target, newCwd);
      } else {
        SetCwdOfAbsentTerminal(first, target, newCwd);
        SetCwdSetsOneLeaf(second, target, newCwd, asked);
      }
  }

  // Setting a directory and reading one agree by name, in every layout.
  lemma {:induction false} SetCwdReadsBack(layout: LayoutNode, target: string, newCwd: string, asked: string)
    ensures layout.SetTerminalCwd(target, Some(newCwd)).1 <==> target in layout.TerminalUuids()
    ensures layout.SetTerminalCwd(target, Some(newCwd)).0.TerminalCwd(asked)
            == if asked == target && target in layout.TerminalUuids() then Some(newCwd) else layout.TerminalCwd(asked)
  {
    if layout.Split? {
      SetCwdReadsBack(layout.first, target, newCwd, asked);
      SetCwdReadsBack(layout.second, target, newCwd, asked);
      if target !in layout.first.TerminalUuids() {
        SetCwdOfAbsentTerminal(layout.first, target, Some(newCwd));
      }
    }
  }

  lemma DistinctHalves(a: seq<string>, b: seq<string>)
    requires Distinct(a + b)
    ensures Distinct(a) && Distinct(b) && forall u | u in a :: u !in b
  {
    var all := a + b;
    assert forall i | 0 <= i < |a| :: all[i] == a[i];
    assert forall j | 0 <= j < |b| :: all[|a| + j] == b[j];
  }

  // Re-keying distinct leaves with a fresh name changes exactly one position.
  lemma {:induction false} RekeyPointwise(uuids: seq<string>, old_: string, new_: string)
    requires Distinct(uuids) && old_ in uuids
    ensures var uuids' := ReplaceFirst(uuids, old_, new_);
            && |uuids'| == |uuids|
            && (forall i | 0 <= i < |uuids| :: uuids'[i] == if uuids[i] == old_ then new_ else uuids[i])
  {
    var uuids' := ReplaceFirst(uuids, old_, new_);
    if uuids[0] != old_ {
      RekeyPointwise(uuids[1..], old_, new_);
      assert forall i | 0 < i < |uuids| :: uuids'[i] == ReplaceFirst(uuids[1..], old_, new_)[i - 1];
    }
  }

  lemma RekeyInPlace(uuids: seq<string>, old_: string, new_: string)
    requires Distinct(uuids) && old_ in uuids && new_ !in uuids
    ensures var uuids' := ReplaceFirst(uuids, old_, new_);
            && |uuids'| == |uuids|
            && (forall i | 0 <= i < |uuids| :: uuids'[i] == if uuids[i] == old_ then new_ else uuids[i])
            && Distinct(uuids')
            && new_ in uuids' && old_ !in uuids'
  {
    RekeyPointwise(uuids, old_, new_);
    var uuids' := ReplaceFirst(uuids, old_, new_);
    var k :| 0 <= k < |uuids| && uuids[k] == old_;
    assert uuids'[k] == new_;
    assert forall i | 0 <= i < |uuids| && i != k :: uuids'[i] == uuids[i];
  }

  function Occurrences(uuids: seq<string>, target: string): nat {
    if uuids == [] then 0
    else (if uuids[0] == target then 1 else 0) + Occurrences(uuids[1..], target)
  }

  lemma {:induction false} ReplaceFirstLeavesOneFewer(uuids: seq<string>, old_: string, new_: string)
    requires old_ in uuids && old_ != new_
    ensures Occurrences(ReplaceFirst(uuids, old_, new_), old_) == Occurrences(uuids, old_) - 1
  {
    if uuids[0] == old_ {
      assert ([new_] + uuids[1..])[1..] == uuids[1..];
    } else {
      ReplaceFirstLeavesOneFewer(uuids[1..], old_, new_);
      var r := ReplaceFirst(uuids[1..], old_, new_);
      assert ([uuids[0]] + r)[1..] == r;
    }
  }

  lemma {:induction false} OccursIffIn(uuids: seq<string>, target: string)
    ensures Occurrences(uuids, target) > 0 <==> target in uuids
  {
    if uuids != [] {
      OccursIffIn(uuids[1..], target);
    }
  }

  // Replacing one occurrence loses the old name only if it was the only one.
  lemma {:induction false} ReplaceFirstMembers(uuids: seq<string>, old_: string, new_: string, u: string)
    requires old_ in uuids && old_ != new_
    ensures u in ReplaceFirst(uuids, old_, new_)
            <==> u == new_ || (u in uuids && (u == old_ ==> Occurrences(uuids, old_) > 1))
  {
    if uuids[0] == old_ {
      OccursIffIn(uuids[1..], old_);
      assert uuids == [uuids[0]] + uuids[1..];
    } else {
      ReplaceFirstMembers(uuids[1..], old_, new_, u);
      assert uuids == [uuids[0]] + uuids[1..];
    }
  }

  // ---------------------------------------------------------------- the daemon's pane tree

  datatype Axis = AxisHorizontal | AxisVertical | AxisUnspecified

  // `paneId` is the text of a well-formed id, or nothing if its bytes are not one.
  datatype PaneTree =
    | EmptyNode
    | Leaf(paneId: Option<string>)
    | Branch(axis: Axis, splitRatio: real, left: Option<PaneTree>, right: Option<PaneTree>)

  const MIN_RATIO: real := 0.05
  const MAX_RATIO: real := 0.95

  function Clamp(ratio: real): real {
    if ratio < MIN_RATIO then MIN_RATIO else if ratio > MAX_RATIO then MAX_RATIO else ratio
  }

  function OrientationFromAxis(axis: Axis): SplitOrientation {
    if axis.AxisVertical? then Vertical else Horizontal
  }

  function LayoutFromPaneTree(tree: PaneTree): Option<LayoutNode> {
    match tree
    case EmptyNode => None
    case Leaf(None) => None
    case Leaf(Some(id)) => Some(Terminal(id, None, None, None))
    case Branch(axis, ratio, left, right) =>
      var first := if left.Some? then LayoutFromPaneTree(left.value) else None;
      var second := if right.Some? then LayoutFromPaneTree(right.value) else None;
      match (first, second)
      case (Some(f), Some(s)) => Some(Split(OrientationFromAxis(axis), Clamp(ratio), f, s))
      case (Some(only), None) => Some(only)
      case (None, Some(only)) => Some(only)
      case (None, None) => None
  }

  // The well-formed pane ids of a tree, left to right.
  function TreeLeaves(tree: PaneTree): seq<string> {
    match tree
    case EmptyNode => []
    case Leaf(id) => if id.Some? then [id.value] else []
    case Branch(_, _, left, right) =>
      (if left.Some? then TreeLeaves(left.value) else []) + (if right.Some? then TreeLeaves(right.value) else [])
  }

  predicate RatiosInRange(layout: LayoutNode) {
    match layout
    case Terminal(_, _, _, _) => true
    case Split(_, ratio, first, second) =>
      MIN_RATIO <= ratio <= MAX_RATIO && RatiosInRange(first) && RatiosInRange(second)
  }

  // The adopted layout shows exactly the tree's well-formed panes, in the tree's order,
  // and exists as soon as there is one; malformed parts collapse without taking others along.
  lemma {:induction false} AdoptedLeavesAreTreeLeaves(tree: PaneTree)
    ensures LayoutFromPaneTree(tree) == None <==> TreeLeaves(tree) == []
    ensures LayoutFromPaneTree(tree).Some?
            ==> && LayoutFromPaneTree(tree).value.TerminalUuids() == TreeLeaves(tree)
                && RatiosInRange(LayoutFromPaneTree(tree).value)
  {
    match tree
    case EmptyNode =>
    case Leaf(_) =>
    case Branch(_, _, left, right) =>
      if left.Some? {
        AdoptedLeavesAreTreeLeaves(left.value);
      }
      if right.Some? {
        AdoptedLeavesAreTreeLeaves(right.value);
      }
  }
}
