// The shape of a layout, told without recursion over it: its terminals in order, and for any
// two of them the split where they part. Together these determine the layout.
module LayoutShape {
  import opened Wrappers
  import opened Layout

  // ---------------------------------------------------------------- terminals and partings

  // The terminals themselves, left to right.
  function Terminals(layout: LayoutNode): (terminals: seq<LayoutNode>)
    ensures |terminals| == |layout.TerminalUuids()|
    ensures forall i | 0 <= i < |terminals| ::
              terminals[i].Terminal? && terminals[i].uuid == layout.TerminalUuids()[i]
  {
    match layout
    case Terminal(_, _, _, _) => [layout]
    case Split(_, _, first, second) => Terminals(first) + Terminals(second)
  }

  // The node where two leaves part: its direction and ratio, and which positions it spans,
  // `from` up to `middle` on its first side and `middle` up to `to` on its second.
  datatype Parting<T> = Parting(direction: T, ratio: real, from: nat, middle: nat, to: nat) {
    function Shifted(n: nat): Parting<T> { Parting(direction, ratio, from + n, middle + n, to + n) }
  }

  function LayoutParting(layout: LayoutNode, i: nat, j: nat): (parting: Parting<SplitOrientation>)
    requires i < j < |layout.TerminalUuids()|
    ensures parting.from <= i < parting.middle <= j < parting.to <= |layout.TerminalUuids()|
  {
    match layout
    case Split(orientation, ratio, first, second) =>
      var n := |first.TerminalUuids()|;
      if j < n then LayoutParting(first, i, j)
      else if i >= n then LayoutParting(second, i - n, j - n).Shifted(n)
      else Parting(orientation, ratio, 0, n, n + |second.TerminalUuids()|)
  }

  // ---------------------------------------------------------------- adopting a pane tree

  function LeavesOf(tree: Option<PaneTree>): seq<string> {
    if tree.Some? then TreeLeaves(tree.value) else []
  }

  // The same for the daemon's tree and its well-formed panes.
  function TreeParting(tree: PaneTree, i: nat, j: nat): Parting<Axis>
    requires i < j < |TreeLeaves(tree)|
  {
    match tree
    case Branch(axis, ratio, left, right) =>
      var n := |LeavesOf(left)|;
      if j < n then TreeParting(left.value, i, j)
      else if i >= n then TreeParting(right.value, i - n, j - n).Shifted(n)
      else Parting(axis, ratio, 0, n, n + |LeavesOf(right)|)
  }

  // A split stands for a tree node: it spans the same panes, is vertical exactly if the
  // node's axis is, and has its ratio, kept between one and nineteen twentieths.
  predicate StandsFor(split: Parting<SplitOrientation>, node: Parting<Axis>) {
    && split.from == node.from && split.middle == node.middle && split.to == node.to
    && (split.direction.Vertical? <==> node.direction.AxisVertical?)
    && (0.05 <= node.ratio <= 0.95 ==> split.ratio == node.ratio)
    && (node.ratio < 0.05 ==> split.ratio == 0.05)
    && (node.ratio > 0.95 ==> split.ratio == 0.95)
  }

  // The two sides of a tree node, each adopted by itself.
  lemma SidesShowTheirLeaves(left: Option<PaneTree>, right: Option<PaneTree>)
    ensures left.Some? && LeavesOf(left) != []
            ==> && LayoutFromPaneTree(left.value).Some?
                && LayoutFromPaneTree(left.value).value.TerminalUuids() == LeavesOf(left)
    ensures right.Some? && LeavesOf(right) != []
            ==> && LayoutFromPaneTree(right.value).Some?
                && LayoutFromPaneTree(right.value).value.TerminalUuids() == LeavesOf(right)
    ensures left.Some? && LeavesOf(left) == [] ==> LayoutFromPaneTree(left.value).None?
    ensures right.Some? && LeavesOf(right) == [] ==> LayoutFromPaneTree(right.value).None?
  {
    if left.Some? {
      AdoptedLeavesAreTreeLeaves(left.value);
    }
    if right.Some? {
      AdoptedLeavesAreTreeLeaves(right.value);
    }
  }

  // Panes part in the adopted layout where they part in the tree.
  lemma {:induction false} AdoptedPartsAsTree(tree: PaneTree, i: nat, j: nat)
    requires i < j < |TreeLeaves(tree)|
    ensures LayoutFromPaneTree(tree).Some?
    ensures var layout := LayoutFromPaneTree(tree).value;
            && layout.TerminalUuids() == TreeLeaves(tree)
            && StandsFor(LayoutParting(layout, i, j), TreeParting(tree, i, j))
  {
    AdoptedLeavesAreTreeLeaves(tree);
    SidesShowTheirLeaves(tree.left, tree.right);
    var n := |LeavesOf(tree.left)|;
    if j < n {
      AdoptedPartsAsTree(tree.left.value, i, j);
    } else if i >= n {
      AdoptedPartsAsTree(tree.right.value, i - n, j - n);
    }
  }

  // And its terminals have nothing but their names.
  lemma {:induction false} AdoptedTerminalsAreBare(tree: PaneTree)
    requires TreeLeaves(tree) != []
    ensures LayoutFromPaneTree(tree).Some?
    ensures forall t | t in Terminals(LayoutFromPaneTree(tree).value) :: t == Terminal(t.uuid, None, None, None)
  {
    match tree
    case Leaf(_) =>
    case Branch(_, _, left, right) =>
      if LeavesOf(left) != [] {
        AdoptedTerminalsAreBare(left.value);
      } else if left.Some? {
        AdoptedLeavesAreTreeLeaves(left.value);
      }
      if LeavesOf(right) != [] {
        AdoptedTerminalsAreBare(right.value);
      } else if right.Some? {
        AdoptedLeavesAreTreeLeaves(right.value);
      }
  }

  // ---------------------------------------------------------------- changing one terminal

  // Two layouts of one shape.
  ghost predicate SameShape(a: LayoutNode, b: LayoutNode) {
    && |a.TerminalUuids()| == |b.TerminalUuids()|
    && (forall i, j | 0 <= i < j < |a.TerminalUuids()| :: LayoutParting(a, i, j) == LayoutParting(b, i, j))
  }

  lemma HalvesShareShape(a: LayoutNode, b: LayoutNode)
    requires a.Split? && b.Split? && a.orientation == b.orientation && a.ratio == b.ratio
    requires SameShape(a.first, b.first) && SameShape(a.second, b.second)
    ensures SameShape(a, b)
  {
  }

  // A new working directory changes neither the shape nor anything else of any terminal.
  lemma {:induction false} SetCwdKeepsShape(layout: LayoutNode, target: string, newCwd: Option<string>)
    ensures var layout' := layout.SetTerminalCwd(target, newCwd).0;
            && SameShape(layout, layout')
            && (forall i | 0 <= i < |Terminals(layout)| ::
                  Terminals(layout')[i] == Terminals(layout)[i].(cwd := Terminals(layout')[i].cwd))
  {
    if layout.Split? {
      SetCwdKeepsShape(layout.first, target, newCwd);
      SetCwdKeepsShape(layout.second, target, newCwd);
      HalvesShareShape(layout, layout.SetTerminalCwd(target, newCwd).0);
    }
  }

  // A new name changes neither the shape nor anything else of any terminal.
  lemma {:induction false} RekeyKeepsShape(layout: LayoutNode, old_: string, new_: string)
    ensures var layout' := layout.ReplaceTerminalUuid(old_, new_).0;
            && SameShape(layout, layout')
            && (forall i | 0 <= i < |Terminals(layout)| ::
                  Terminals(layout')[i] == Terminals(layout)[i].(uuid := Terminals(layout')[i].uuid))
  {
    if layout.Split? {
      RekeyKeepsShape(layout.first, old_, new_);
      RekeyKeepsShape(layout.second, old_, new_);
      HalvesShareShape(layout, layout.ReplaceTerminalUuid(old_, new_).0);
    }
  }

  // ---------------------------------------------------------------- removing terminals

  // How many names before position k stay when `target` goes.
  function Rank(uuids: seq<string>, target: string, k: nat): nat
    requires k <= |uuids|
  {
    if k == 0 then 0 else Rank(uuids, target, k - 1) + if uuids[k - 1] == target then 0 else 1
  }

  lemma {:induction false} RankInSum(a: seq<string>, b: seq<string>, target: string, k: nat)
    requires k <= |a + b|
    ensures Rank(a + b, target, k)
            == if k <= |a| then Rank(a, target, k) else Rank(a, target, |a|) + Rank(b, target, k - |a|)
  {
    if k > 0 {
      RankInSum(a, b, target, k - 1);
    }
  }

  lemma {:induction false} RankGrows(uuids: seq<string>, target: string, p: nat, q: nat)
    requires p < q <= |uuids| && uuids[p] != target
    ensures Rank(uuids, target, p) < Rank(uuids, target, q)
  {
    if p < q - 1 {
      RankGrows(uuids, target, p, q - 1);
    }
  }

  lemma {:induction false} RankOfAll(uuids: seq<string>, target: string)
    ensures Rank(uuids, target, |uuids|) == |Without(uuids, target)|
  {
    if uuids != [] {
      var n := |uuids| - 1;
      RankOfAll(uuids[..n], target);
      assert uuids == uuids[..n] + [uuids[n]];
      WithoutInSum(uuids[..n], [uuids[n]], target);
      RankInSum(uuids[..n], [uuids[n]], target, n);
      assert [uuids[n]][1..] == [];
    }
  }

  function Ranked(parting: Parting<SplitOrientation>, uuids: seq<string>, target: string): Parting<SplitOrientation>
    requires parting.from <= |uuids| && parting.middle <= |uuids| && parting.to <= |uuids|
  {
    parting.(from := Rank(uuids, target, parting.from), middle := Rank(uuids, target, parting.middle),
             to := Rank(uuids, target, parting.to))
  }

  lemma RemainderIsWithout(layout: LayoutNode, target: string, p: nat)
    requires p < |layout.TerminalUuids()| && layout.TerminalUuids()[p] != target
    ensures layout.RemoveTerminal(target).Some?
    ensures layout.RemoveTerminal(target).value.TerminalUuids() == Without(layout.TerminalUuids(), target)
    ensures Rank(layout.TerminalUuids(), target, p) < |Without(layout.TerminalUuids(), target)|
  {
    RemoveDropsOneName(layout, target);
    WithoutMembers(layout.TerminalUuids(), target);
    RankGrows(layout.TerminalUuids(), target, p, |layout.TerminalUuids()|);
    RankOfAll(layout.TerminalUuids(), target);
  }

  lemma RestTerminals(layout: LayoutNode, target: string)
    requires layout.Split? && layout.RemoveTerminal(target).Some?
    ensures var first, second := layout.first.RemoveTerminal(target), layout.second.RemoveTerminal(target);
            Terminals(layout.RemoveTerminal(target).value)
            == (if first.Some? then Terminals(first.value) else [])
               + if second.Some? then Terminals(second.value) else []
  {
  }

  predicate Named(terminal: LayoutNode, target: string) { terminal.Terminal? && terminal.uuid == target }

  // What stays of a list of terminals.
  function StayingTerminals(terminals: seq<LayoutNode>, target: string): seq<LayoutNode> {
    if terminals == [] then []
    else
      var rest := StayingTerminals(terminals[1..], target);
      if Named(terminals[0], target) then rest else [terminals[0]] + rest
  }

  lemma {:induction false} StayingInSum(a: seq<LayoutNode>, b: seq<LayoutNode>, target: string)
    ensures StayingTerminals(a + b, target) == StayingTerminals(a, target) + StayingTerminals(b, target)
  {
    if a == [] {
      assert a + b == b;
    } else {
      assert (a + b)[1..] == a[1..] + b;
      StayingInSum(a[1..], b, target);
    }
  }

  // The terminals that stay are as they were, in their order.
  lemma {:induction false} RemovalKeepsTerminals(layout: LayoutNode, target: string)
    ensures StayingTerminals(Terminals(layout), target)
            == if layout.RemoveTerminal(target).None? then [] else Terminals(layout.RemoveTerminal(target).value)
  {
    match layout
    case Terminal(_, _, _, _) =>
    case Split(_, _, first, second) =>
      RemovalKeepsTerminals(first, target);
      RemovalKeepsTerminals(second, target);
      StayingInSum(Terminals(first), Terminals(second), target);
      if layout.RemoveTerminal(target).Some? {
        RestTerminals(layout, target);
      }
  }

  lemma RankedInFirst(first: seq<string>, second: seq<string>, target: string, parting: Parting<SplitOrientation>)
    requires parting.from <= parting.middle <= parting.to <= |first|
    ensures Ranked(parting, first + second, target) == Ranked(parting, first, target)
  {
    RankInSum(first, second, target, parting.from);
    RankInSum(first, second, target, parting.middle);
    RankInSum(first, second, target, parting.to);
  }

  lemma RankShifts(first: seq<string>, second: seq<string>, target: string, k: nat)
    requires k <= |second|
    ensures Rank(first + second, target, k + |first|) == Rank(second, target, k) + |Without(first, target)|
  {
    RankInSum(first, second, target, k + |first|);
    RankOfAll(first, target);
  }

  lemma RankShiftedBy(all: seq<string>, first: seq<string>, second: seq<string>, target: string, k: nat, at: nat)
    requires all == first + second && k <= |second| && at == k + |first|
    ensures Rank(all, target, at) == Rank(second, target, k) + |Without(first, target)|
  {
    RankShifts(first, second, target, k);
  }

  // Where what is left of the two sides parts.
  lemma RestOfFirstParts(layout: LayoutNode, target: string, i: nat, j: nat)
    requires layout.Split? && layout.first.RemoveTerminal(target).Some?
    requires i < j < |layout.first.RemoveTerminal(target).value.TerminalUuids()|
    ensures layout.RemoveTerminal(target).Some?
    ensures var rest := layout.RemoveTerminal(target).value;
            && j < |rest.TerminalUuids()|
            && LayoutParting(rest, i, j) == LayoutParting(layout.first.RemoveTerminal(target).value, i, j)
  {
  }

  lemma RestOfSecondParts(layout: LayoutNode, target: string, i: nat, j: nat, n: nat)
    requires layout.Split? && layout.second.RemoveTerminal(target).Some?
    requires i < j < |layout.second.RemoveTerminal(target).value.TerminalUuids()|
    requires n == |Without(layout.first.TerminalUuids(), target)|
    ensures layout.RemoveTerminal(target).Some?
    ensures var rest := layout.RemoveTerminal(target).value;
            && j + n < |rest.TerminalUuids()|
            && LayoutParting(rest, i + n, j + n)
               == LayoutParting(layout.second.RemoveTerminal(target).value, i, j).Shifted(n)
  {
    RemoveDropsOneName(layout.first, target);
  }

  lemma RestPartsAcross(layout: LayoutNode, target: string, i: nat, j: nat)
    requires layout.Split?
    requires layout.first.RemoveTerminal(target).Some? && layout.second.RemoveTerminal(target).Some?
    requires var n := |layout.first.RemoveTerminal(target).value.TerminalUuids()|;
             i < n <= j < n + |layout.second.RemoveTerminal(target).value.TerminalUuids()|
    ensures layout.RemoveTerminal(target).Some?
    ensures var rest := layout.RemoveTerminal(target).value;
            var n := |layout.first.RemoveTerminal(target).value.TerminalUuids()|;
            && j < |rest.TerminalUuids()|
            && LayoutParting(rest, i, j)
               == Parting(layout.orientation, layout.ratio, 0, n,
                          n + |layout.second.RemoveTerminal(target).value.TerminalUuids()|)
  {
  }

  lemma PartingsOfFirst(layout: LayoutNode, target: string, p: nat, q: nat)
    requires layout.Split? && p < q < |layout.first.TerminalUuids()|
    ensures LayoutParting(layout, p, q) == LayoutParting(layout.first, p, q)
    ensures Ranked(LayoutParting(layout, p, q), layout.TerminalUuids(), target)
            == Ranked(LayoutParting(layout.first, p, q), layout.first.TerminalUuids(), target)
  {
    RankedInFirst(layout.first.TerminalUuids(), layout.second.TerminalUuids(), target,
                  LayoutParting(layout.first, p, q));
  }

  lemma PartingsOfSecond(layout: LayoutNode, target: string, p: nat, q: nat)
    requires layout.Split? && |layout.first.TerminalUuids()| <= p < q < |layout.TerminalUuids()|
    ensures var n := |layout.first.TerminalUuids()|;
            Ranked(LayoutParting(layout, p, q), layout.TerminalUuids(), target)
            == Ranked(LayoutParting(layout.second, p - n, q - n), layout.second.TerminalUuids(), target)
               .Shifted(|Without(layout.first.TerminalUuids(), target)|)
  {
    var a, b := layout.first.TerminalUuids(), layout.second.TerminalUuids();
    var outer, inner := LayoutParting(layout, p, q), LayoutParting(layout.second, p - |a|, q - |a|);
    RankShiftedBy(layout.TerminalUuids(), a, b, target, inner.from, outer.from);
    RankShiftedBy(layout.TerminalUuids(), a, b, target, inner.middle, outer.middle);
    RankShiftedBy(layout.TerminalUuids(), a, b, target, inner.to, outer.to);
  }

  lemma PartingsAcross(layout: LayoutNode, target: string, p: nat, q: nat)
    requires layout.Split? && p < |layout.first.TerminalUuids()| <= q < |layout.TerminalUuids()|
    ensures var a, b := layout.first.TerminalUuids(), layout.second.TerminalUuids();
            var n, m := |Without(a, target)|, |Without(b, target)|;
            Ranked(LayoutParting(layout, p, q), layout.TerminalUuids(), target)
            == Parting(layout.orientation, layout.ratio, 0, n, n + m)
  {
    var a, b := layout.first.TerminalUuids(), layout.second.TerminalUuids();
    RankInSum(a, b, target, 0);
    RankShifts(a, b, target, 0);
    RankShifts(a, b, target, |b|);
    RankOfAll(b, target);
  }

  // What is kept of a parting: the same direction and ratio, over what stays of its span.
  ghost predicate KeepsParting(layout: LayoutNode, target: string, p: nat, q: nat, i: nat, j: nat)
    requires p < q < |layout.TerminalUuids()|
  {
    var rest := layout.RemoveTerminal(target);
    && rest.Some? && i < j < |rest.value.TerminalUuids()|
    && LayoutParting(rest.value, i, j) == Ranked(LayoutParting(layout, p, q), layout.TerminalUuids(), target)
  }

  lemma FirstKeepsParting(layout: LayoutNode, target: string, p: nat, q: nat, i: nat, j: nat)
    requires layout.Split? && p < q < |layout.first.TerminalUuids()|
    requires KeepsParting(layout.first, target, p, q, i, j)
    ensures KeepsParting(layout, target, p, q, i, j)
  {
    RestOfFirstParts(layout, target, i, j);
    PartingsOfFirst(layout, target, p, q);
  }

  // Positions p and q of the whole are p' and q' of its second side.
  predicate InSecond(layout: LayoutNode, p: nat, q: nat, p': nat, q': nat) {
    && layout.Split? && p' < q' < |layout.second.TerminalUuids()|
    && p == p' + |layout.first.TerminalUuids()| && q == q' + |layout.first.TerminalUuids()|
  }

  lemma SecondKeepsParting(layout: LayoutNode, target: string, p: nat, q: nat, p': nat, q': nat, i: nat, j: nat)
    requires InSecond(layout, p, q, p', q') && KeepsParting(layout.second, target, p', q', i, j)
    ensures var gone := |Without(layout.first.TerminalUuids(), target)|;
            KeepsParting(layout, target, p, q, i + gone, j + gone)
  {
    RestOfSecondParts(layout, target, i, j, |Without(layout.first.TerminalUuids(), target)|);
    PartingsOfSecond(layout, target, p, q);
  }

  lemma BothKeepParting(layout: LayoutNode, target: string, p: nat, q: nat, i: nat, j: nat)
    requires layout.Split? && p < |layout.first.TerminalUuids()| <= q < |layout.TerminalUuids()|
    requires layout.first.RemoveTerminal(target).Some? && layout.second.RemoveTerminal(target).Some?
    requires var n := |Without(layout.first.TerminalUuids(), target)|;
             i < n <= j < n + |Without(layout.second.TerminalUuids(), target)|
    ensures KeepsParting(layout, target, p, q, i, j)
  {
    RemoveDropsOneName(layout.first, target);
    RemoveDropsOneName(layout.second, target);
    RestPartsAcross(layout, target, i, j);
    PartingsAcross(layout, target, p, q);
  }

  lemma BothStay(layout: LayoutNode, target: string, p: nat, q: nat)
    requires layout.Split? && p < |layout.first.TerminalUuids()| && q < |layout.second.TerminalUuids()|
    requires layout.first.TerminalUuids()[p] != target && layout.second.TerminalUuids()[q] != target
    ensures var a, b := layout.first.TerminalUuids(), layout.second.TerminalUuids();
            KeepsParting(layout, target, p, q + |a|, Rank(a, target, p), Rank(b, target, q) + |Without(a, target)|)
  {
    var a, b := layout.first.TerminalUuids(), layout.second.TerminalUuids();
    RemainderIsWithout(layout.first, target, p);
    RemainderIsWithout(layout.second, target, q);
    BothKeepParting(layout, target, p, q + |a|, Rank(a, target, p), Rank(b, target, q) + |Without(a, target)|);
  }

  // Two terminals that stay keep their parting, at the positions they move up to.
  ghost predicate StayParted(layout: LayoutNode, target: string, p: nat, q: nat)
    requires p < q < |layout.TerminalUuids()|
  {
    var uuids := layout.TerminalUuids();
    KeepsParting(layout, target, p, q, Rank(uuids, target, p), Rank(uuids, target, q))
  }

  lemma StayPartedInFirst(layout: LayoutNode, target: string, p: nat, q: nat)
    requires layout.Split? && p < q < |layout.first.TerminalUuids()|
    requires StayParted(layout.first, target, p, q)
    ensures StayParted(layout, target, p, q)
  {
    var a := layout.first.TerminalUuids();
    FirstKeepsParting(layout, target, p, q, Rank(a, target, p), Rank(a, target, q));
    RankInSum(a, layout.second.TerminalUuids(), target, p);
    RankInSum(a, layout.second.TerminalUuids(), target, q);
  }

  lemma StayPartedInSecond(layout: LayoutNode, target: string, p: nat, q: nat, p': nat, q': nat)
    requires InSecond(layout, p, q, p', q') && StayParted(layout.second, target, p', q')
    ensures StayParted(layout, target, p, q)
  {
    var b := layout.second.TerminalUuids();
    SecondKeepsParting(layout, target, p, q, p', q', Rank(b, target, p'), Rank(b, target, q'));
    RankShifts(layout.first.TerminalUuids(), b, target, p');
    RankShifts(layout.first.TerminalUuids(), b, target, q');
  }

  lemma StayPartedAcross(layout: LayoutNode, target: string, p: nat, q: nat)
    requires layout.Split? && p < |layout.first.TerminalUuids()| && q < |layout.second.TerminalUuids()|
    requires layout.first.TerminalUuids()[p] != target && layout.second.TerminalUuids()[q] != target
    ensures var n := |layout.first.TerminalUuids()|; StayParted(layout, target, p, q + n)
  {
    BothStay(layout, target, p, q);
    RankInSum(layout.first.TerminalUuids(), layout.second.TerminalUuids(), target, p);
    RankShifts(layout.first.TerminalUuids(), layout.second.TerminalUuids(), target, q);
  }

  // Terminals that stay part where they did, at a node that spans what stays of its own.
  lemma {:induction false} RemovalKeepsPartings(layout: LayoutNode, target: string, p: nat, q: nat)
    requires p < q < |layout.TerminalUuids()|
    requires layout.TerminalUuids()[p] != target && layout.TerminalUuids()[q] != target
    ensures StayParted(layout, target, p, q)
  {
    var n := |layout.first.TerminalUuids()|;
    if q < n {
      RemovalKeepsPartings(layout.first, target, p, q);
      StayPartedInFirst(layout, target, p, q);
    } else if p >= n {
      RemovalKeepsPartings(layout.second, target, p - n, q - n);
      StayPartedInSecond(layout, target, p, q, p - n, q - n);
    } else {
      StayPartedAcross(layout, target, p, q - n);
    }
  }
}
