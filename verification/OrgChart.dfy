/**
 * The organisation chart as the program builds it (apps/frontend/lib/org-chart-layout.ts):
 * layout nodes linked through a mutable map, depths and positions written into the nodes, and
 * boxes and edges pushed into two shared arrays. Each method is proved against the functions
 * on finite trees.
 */
module OrgChart {
  import opened Wrappers
  import opened Seqs
  import opened OrgTree
  import opened OrgLayout

  class LayoutNode {
    const unit: OrgUnit
    var children: seq<LayoutNode>
    var depth: int
    var x: int
    var y: int
    var width: int

    constructor (unit: OrgUnit)
      ensures this.unit == unit && children == [] && depth == 0 && x == 0 && y == 0 && width == MIN_NODE_WIDTH
    {
      this.unit := unit;
      children, depth, x, y, width := [], 0, 0, 0, MIN_NODE_WIDTH;
    }

    method Position(startX: int, subtreeWidth: int)
      modifies this`x, this`y, this`width
      ensures x == startX && y == Y(depth) && width == subtreeWidth
    {
      width := subtreeWidth;
      x := startX;
      y := depth * (NODE_HEIGHT + VERTICAL_GAP);
    }
  }

  type UnitMap = map<string, LayoutNode>

  /** One node per id, carrying the unit a lookup by that id finds. */
  ghost predicate Indexes(nodes: UnitMap, units: seq<OrgUnit>) {
    && (forall id :: id in nodes <==> UnitOf(units, id).Some?)
    && (forall id :: id in nodes ==> nodes[id].unit == UnitOf(units, id).value)
    && (forall a, b :: a in nodes && b in nodes && nodes[a] == nodes[b] ==> a == b)
  }

  function NodesOf(nodes: UnitMap, us: seq<OrgUnit>): (ns: seq<LayoutNode>)
    requires forall u :: u in us ==> u.id in nodes
    ensures |ns| == |us| && forall i :: 0 <= i < |us| ==> ns[i] == nodes[us[i].id]
  {
    if us == [] then [] else [nodes[us[0].id]] + NodesOf(nodes, us[1..])
  }

  /** The children arrays after the first `n` units have been linked. */
  ghost predicate Linking(nodes: UnitMap, units: seq<OrgUnit>, n: nat)
    requires n <= |units|
    reads nodes.Values
  {
    forall id {:trigger LinkedNode(nodes, units[..n], id)} :: id in nodes ==> LinkedNode(nodes, units[..n], id)
  }

  ghost predicate LinkedNode(nodes: UnitMap, units: seq<OrgUnit>, id: string)
    requires id in nodes
    reads nodes.Values
  {
    && (forall u :: u in ChildUnits(units, id) ==> u.id in nodes)
    && nodes[id].children == NodesOf(nodes, ChildUnits(units, id))
  }

  lemma ChildrenIndexed(nodes: UnitMap, units: seq<OrgUnit>, n: nat, id: string)
    requires n <= |units| && Indexes(nodes, units)
    ensures forall u :: u in ChildUnits(units[..n], id) ==> u.id in nodes
  {
    forall u | u in ChildUnits(units[..n], id) ensures u.id in nodes {
      ChildUnitsMember(units[..n], id, u);
      UnitOfFound(units, u.id);
    }
  }

  method IndexUnits(units: seq<OrgUnit>) returns (nodes: UnitMap)
    ensures Indexes(nodes, units)
    ensures forall id :: id in nodes ==> fresh(nodes[id]) && nodes[id].children == []
  {
    nodes := map[];
    for i := 0 to |units|
      invariant Indexes(nodes, units[..i])
      invariant forall id :: id in nodes ==> fresh(nodes[id]) && nodes[id].children == []
    {
      var node := new LayoutNode(units[i]);
      nodes := nodes[units[i].id := node];
      assert units[..i + 1][..i] == units[..i];
    }
    assert units[..|units|] == units;
  }

  /** One more unit of the list makes its parent's children one longer, and no other. */
  lemma NextChildren(nodes: UnitMap, units: seq<OrgUnit>, n: nat, id: string)
    requires n < |units| && Indexes(nodes, units)
    ensures units[n].id in nodes
    ensures forall u :: u in ChildUnits(units[..n], id) || u in ChildUnits(units[..n + 1], id) ==> u.id in nodes
    ensures NodesOf(nodes, ChildUnits(units[..n + 1], id)) ==
            NodesOf(nodes, ChildUnits(units[..n], id))
            + if Parent(units[n]) == Some(id) then [nodes[units[n].id]] else []
  {
    UnitOfFound(units, units[n].id);
    ChildrenIndexed(nodes, units, n, id);
    ChildrenIndexed(nodes, units, n + 1, id);
    assert units[..n + 1][..n] == units[..n];
  }

  /** The second pass of `buildTree` at unit `n`, when the unit has a parent pointer. */
  method LinkToParent(nodes: UnitMap, units: seq<OrgUnit>, n: nat)
    requires n < |units| && Indexes(nodes, units) && Linking(nodes, units, n) && Parent(units[n]).Some?
    modifies set id | id in nodes :: nodes[id]
    ensures Linking(nodes, units, n + 1)
  {
    UnitOfFound(units, units[n].id);
    var node := nodes[units[n].id];
    var parentId := units[n].parentId.value;
    ghost var before := map id | id in nodes :: nodes[id].children;
    forall id | id in nodes ensures LinkedNode(nodes, units[..n], id) {}
    if parentId in nodes {
      var parent := nodes[parentId];
      parent.children := parent.children + [node];
    }
    forall id | id in nodes ensures LinkedNode(nodes, units[..n + 1], id) {
      NextChildren(nodes, units, n, id);
      assert nodes[id].children == before[id] + if id == parentId then [node] else [];
    }
  }

  /** The layout nodes, linked parent to child, and the last parentless one. */
  method BuildTree(units: seq<OrgUnit>) returns (root: LayoutNode?, nodes: UnitMap)
    ensures Indexes(nodes, units) && Linking(nodes, units, |units|)
    ensures forall id :: id in nodes ==> fresh(nodes[id])
    ensures RootUnit(units).None? ==> root == null
    ensures RootUnit(units).Some? ==> RootUnit(units).value.id in nodes && root == nodes[RootUnit(units).value.id]
  {
    nodes := IndexUnits(units);
    root := null;
    for i := 0 to |units|
      invariant Linking(nodes, units, i)
      invariant RootUnit(units[..i]).None? ==> root == null
      invariant RootUnit(units[..i]).Some? ==>
                  RootUnit(units[..i]).value.id in nodes && root == nodes[RootUnit(units[..i]).value.id]
    {
      assert units[..i + 1][..i] == units[..i];
      if units[i].parentId.Some? && units[i].parentId.value != "" {
        LinkToParent(nodes, units, i);
      } else {
        UnitOfFound(units, units[i].id);
        forall id | id in nodes ensures LinkedNode(nodes, units[..i + 1], id) {
          NextChildren(nodes, units, i, id);
          assert LinkedNode(nodes, units[..i], id);
        }
        root := nodes[units[i].id];
      }
    }
    assert units[..|units|] == units;
  }

  // ----- When the recursions over the nodes end -----

  /** A recursion over the children arrays, as deep as `n` calls, ends below a node. */
  ghost predicate CallsEnd(nodes: UnitMap, node: LayoutNode, n: nat)
    reads nodes.Values`children, node`children
    decreases n
  {
    n > 0 && forall i :: 0 <= i < |node.children| ==>
      node.children[i] in nodes.Values && CallsEnd(nodes, node.children[i], n - 1)
  }

  lemma {:induction false} CallsFollowIds(nodes: UnitMap, units: seq<OrgUnit>, id: string, n: nat)
    requires Indexes(nodes, units) && Linking(nodes, units, |units|) && id in nodes
    ensures CallsEnd(nodes, nodes[id], n) <==> Ends(units, id, n)
    decreases n
  {
    if n > 0 {
      var kids := ChildUnits(units, id);
      assert units[..|units|] == units && LinkedNode(nodes, units[..|units|], id);
      forall i | 0 <= i < |kids|
        ensures nodes[id].children[i] == nodes[kids[i].id] && nodes[id].children[i] in nodes.Values
        ensures CallsEnd(nodes, nodes[id].children[i], n - 1) <==> Ends(units, kids[i].id, n - 1)
      {
        assert kids[i] in kids;
        CallsFollowIds(nodes, units, kids[i].id, n - 1);
      }
      forall u | u in kids && CallsEnd(nodes, nodes[id], n) ensures Ends(units, u.id, n - 1) {
        var i :| 0 <= i < |kids| && kids[i] == u;
      }
      if Ends(units, id, n) {
        forall i | 0 <= i < |kids| ensures Ends(units, kids[i].id, n - 1) { assert kids[i] in kids; }
      }
    }
  }

  /**
   * Whatever the list, the recursions over the nodes that `BuildTree` links (depths, widths, positions,
   * emission) end below a node exactly if no chain of child ids comes back to an id it has passed.
   */
  lemma CallsEndIff(nodes: UnitMap, units: seq<OrgUnit>, id: string)
    requires Indexes(nodes, units) && Linking(nodes, units, |units|) && id in nodes
    ensures (exists n: nat :: CallsEnd(nodes, nodes[id], n)) <==> !Repeats(units, id)
  {
    RecursionEndsIff(units, id);
    if n: nat :| CallsEnd(nodes, nodes[id], n) { CallsFollowIds(nodes, units, id, n); }
    if n: nat :| Ends(units, id, n) { CallsFollowIds(nodes, units, id, n); }
  }

  // ----- The finite tree below a node -----

  ghost predicate Injective(nodes: UnitMap) {
    forall a, b :: a in nodes && b in nodes && nodes[a] == nodes[b] ==> a == b
  }

  /** The links below the node of `t` form exactly the tree `t`. */
  ghost predicate Shape(nodes: UnitMap, t: Tree)
    reads nodes.Values`children
    decreases t, 1
  {
    && t.unit.id in nodes && nodes[t.unit.id].unit == t.unit
    && ShapeAll(nodes, nodes[t.unit.id].children, t.children)
  }

  ghost predicate ShapeAll(nodes: UnitMap, ns: seq<LayoutNode>, ts: seq<Tree>)
    reads nodes.Values`children
    decreases ts, 0
  {
    && |ns| == |ts|
    && forall i :: 0 <= i < |ts| ==> Shape(nodes, ts[i]) && ns[i] == nodes[ts[i].unit.id]
  }

  /** Whatever the list, the nodes that `BuildTree` links have the shape of the unfolded tree. */
  lemma {:induction false} BuiltShape(nodes: UnitMap, units: seq<OrgUnit>, id: string, n: nat)
    requires Indexes(nodes, units) && Linking(nodes, units, |units|) && id in nodes && Ends(units, id, n)
    ensures Shape(nodes, Unfold(units, id, n))
    decreases n
  {
    var kids, trees := ChildUnits(units, id), Unfold(units, id, n).children;
    UnitOfFound(units, id);
    ChildrenFound(units, id);
    assert units[..|units|] == units && LinkedNode(nodes, units[..|units|], id);
    forall i | 0 <= i < |kids|
      ensures Shape(nodes, trees[i]) && nodes[id].children[i] == nodes[trees[i].unit.id]
    {
      assert kids[i] in kids;
      UnitOfFound(units, kids[i].id);
      BuiltShape(nodes, units, kids[i].id, n - 1);
    }
  }

  lemma {:induction false} ShapeUnits(nodes: UnitMap, t: Tree, depth: nat, x: int)
    requires Shape(nodes, t)
    ensures ShowsUnits(nodes, Place(t, depth, x))
    decreases t, 1
  {
    ShapeAllUnits(nodes, nodes[t.unit.id].children, t.children, depth + 1, x);
  }

  lemma {:induction false} ShapeAllUnits(nodes: UnitMap, ns: seq<LayoutNode>, ts: seq<Tree>, depth: nat, x: int)
    requires ShapeAll(nodes, ns, ts)
    ensures ShowsUnits(nodes, PlaceAll(ts, depth, x))
    decreases ts, 0
  {
    if ts != [] {
      ShapeUnits(nodes, ts[0], depth, x);
      ShapeAllUnits(nodes, ns[1..], ts[1..], depth, x + Width(ts[0]) + HORIZONTAL_GAP);
    }
  }

  /** The boxes carry the units of their nodes. */
  ghost predicate ShowsUnits(nodes: UnitMap, boxes: seq<Box>) {
    forall b :: b in boxes ==> b.unit.id in nodes && nodes[b.unit.id].unit == b.unit
  }

  // ----- Rows -----

  lemma {:induction false} RowSnoc(source: string, ts: seq<Tree>, i: nat, depth: nat, x: int)
    requires i < |ts|
    ensures PlaceAll(ts[..i + 1], depth, x) == PlaceAll(ts[..i], depth, x) + Place(ts[i], depth, Offset(ts, i, x))
    ensures EdgesTo(source, ts[..i + 1]) ==
            EdgesTo(source, ts[..i]) + [Edge(source, ts[i].unit.id)] + Edges(ts[i])
  {
    if i > 0 {
      assert ts[..i + 1][1..] == ts[1..][..i] && ts[..i][1..] == ts[1..][..i - 1];
      RowSnoc(source, ts[1..], i - 1, depth, x + Width(ts[0]) + HORIZONTAL_GAP);
    } else {
      assert ts[..1] == [ts[0]] && [ts[0]][1..] == [] && ts[..0] == [];
    }
  }

  /** The boxes of a node and its first `i` subtrees. */
  function PlaceUpTo(t: Tree, i: nat, depth: nat, x: int): seq<Box>
    requires i <= |t.children|
  {
    [Box(t.unit, x, Y(depth), Width(t))] + PlaceAll(t.children[..i], depth + 1, x)
  }

  lemma PlaceNext(t: Tree, i: nat, depth: nat, x: int)
    requires i < |t.children|
    ensures PlaceUpTo(t, i + 1, depth, x)
         == PlaceUpTo(t, i, depth, x) + Place(t.children[i], depth + 1, Offset(t.children, i, x))
  {
    RowSnoc(t.unit.id, t.children, i, depth + 1, x);
  }

  lemma PlaceEnds(t: Tree, depth: nat, x: int)
    ensures PlaceUpTo(t, 0, depth, x) == [Box(t.unit, x, Y(depth), Width(t))]
    ensures PlaceUpTo(t, |t.children|, depth, x) == Place(t, depth, x)
  {
    assert t.children[..0] == [] && t.children[..|t.children|] == t.children;
  }

  // ----- Depths -----

  ghost function Depths(nodes: UnitMap): map<string, int>
    reads nodes.Values`depth
  {
    map id | id in nodes :: nodes[id].depth
  }

  /** Each id has the depth of its last box, or its old depth if it has no box. */
  ghost predicate DepthsWritten(before: map<string, int>, boxes: seq<Box>, after: map<string, int>) {
    && before.Keys == after.Keys
    && forall id :: id in before ==>
         match LastBox(boxes, id)
         case Some(b) => Y(after[id]) == b.y
         case None => after[id] == before[id]
  }

  lemma DepthsCompose(
    before: map<string, int>, a: seq<Box>, middle: map<string, int>, b: seq<Box>, after: map<string, int>)
    requires DepthsWritten(before, a, middle) && DepthsWritten(middle, b, after)
    ensures DepthsWritten(before, a + b, after)
  {
    forall id | id in before
      ensures match LastBox(a + b, id) case Some(c) => Y(after[id]) == c.y case None => after[id] == before[id]
    {
      LastBoxConcat(a, b, id);
    }
  }

  method AssignDepths(node: LayoutNode, depth: nat, ghost x: int, ghost nodes: UnitMap, ghost t: Tree)
    requires Injective(nodes) && Shape(nodes, t) && node == nodes[t.unit.id]
    modifies nodes.Values`depth
    ensures DepthsWritten(old(Depths(nodes)), Place(t, depth, x), Depths(nodes))
    decreases t
  {
    ghost var before := Depths(nodes);
    node.depth := depth;
    PlaceEnds(t, depth, x);
    for i := 0 to |node.children|
      invariant DepthsWritten(before, PlaceUpTo(t, i, depth, x), Depths(nodes))
    {
      ghost var middle := Depths(nodes);
      AssignDepths(node.children[i], depth + 1, Offset(t.children, i, x), nodes, t.children[i]);
      PlaceNext(t, i, depth, x);
      DepthsCompose(before, PlaceUpTo(t, i, depth, x), middle,
                    Place(t.children[i], depth + 1, Offset(t.children, i, x)), Depths(nodes));
    }
  }

  // ----- Positions -----

  lemma {:induction false} WidthsSnoc(ts: seq<Tree>, i: nat)
    requires i < |ts|
    ensures Widths(ts[..i + 1]) == Widths(ts[..i]) + Width(ts[i])
  {
    if i > 0 {
      assert ts[..i + 1][1..] == ts[1..][..i] && ts[..i][1..] == ts[1..][..i - 1];
      WidthsSnoc(ts[1..], i - 1);
    } else {
      assert ts[..1] == [ts[0]] && [ts[0]][1..] == [];
    }
  }

  method CalculateSubtreeWidth(node: LayoutNode, ghost nodes: UnitMap, ghost t: Tree) returns (width: int)
    requires Shape(nodes, t) && node == nodes[t.unit.id]
    ensures width == Width(t)
    decreases t
  {
    if |node.children| == 0 {
      return MIN_NODE_WIDTH;
    }
    var childrenWidth := 0;
    for i := 0 to |node.children|
      invariant childrenWidth == Widths(t.children[..i])
    {
      var w := CalculateSubtreeWidth(node.children[i], nodes, t.children[i]);
      childrenWidth := childrenWidth + w;
      WidthsSnoc(t.children, i);
    }
    assert t.children[..|t.children|] == t.children;
    var gapsWidth := (|node.children| - 1) * HORIZONTAL_GAP;
    width := Max(MIN_NODE_WIDTH, childrenWidth + gapsWidth);
  }

  datatype Spot = Spot(x: int, y: int, width: int)

  ghost function Spots(nodes: UnitMap): map<string, Spot>
    reads nodes.Values`x, nodes.Values`y, nodes.Values`width
  {
    map id | id in nodes :: Spot(nodes[id].x, nodes[id].y, nodes[id].width)
  }

  /** Each id has the place and width of its last box, in the row of its own depth, or what it had before. */
  ghost predicate SpotsWritten(
    depths: map<string, int>, before: map<string, Spot>, boxes: seq<Box>, after: map<string, Spot>) {
    && before.Keys == after.Keys == depths.Keys
    && forall id :: id in before ==>
         match LastBox(boxes, id)
         case Some(b) => after[id] == Spot(b.x, Y(depths[id]), b.width)
         case None => after[id] == before[id]
  }

  lemma SpotsCompose(
    depths: map<string, int>, before: map<string, Spot>, a: seq<Box>, middle: map<string, Spot>, b: seq<Box>,
    after: map<string, Spot>)
    requires SpotsWritten(depths, before, a, middle) && SpotsWritten(depths, middle, b, after)
    ensures SpotsWritten(depths, before, a + b, after)
  {
    forall id | id in before
      ensures match LastBox(a + b, id)
              case Some(c) => after[id] == Spot(c.x, Y(depths[id]), c.width)
              case None => after[id] == before[id]
    {
      LastBoxConcat(a, b, id);
    }
  }

  lemma {:induction false} OffsetNext(ts: seq<Tree>, i: nat, x: int)
    requires i < |ts|
    ensures Offset(ts, i + 1, x) == Offset(ts, i, x) + Width(ts[i]) + HORIZONTAL_GAP
    decreases i
  {
    if i > 0 { OffsetNext(ts[1..], i - 1, x + Width(ts[0]) + HORIZONTAL_GAP); }
  }

  method PositionNodes(node: LayoutNode, startX: int, ghost depth: nat, ghost nodes: UnitMap, ghost t: Tree)
    requires Injective(nodes) && Shape(nodes, t) && node == nodes[t.unit.id]
    modifies nodes.Values`x, nodes.Values`y, nodes.Values`width
    ensures SpotsWritten(Depths(nodes), old(Spots(nodes)), Place(t, depth, startX), Spots(nodes))
    decreases t, 1
  {
    ghost var before, depths := Spots(nodes), Depths(nodes);
    PositionItself(node, startX, depth, nodes, t);
    PlaceEnds(t, depth, startX);
    var childX := startX;
    for i := 0 to |node.children|
      invariant childX == Offset(t.children, i, startX)
      invariant SpotsWritten(depths, before, PlaceUpTo(t, i, depth, startX), Spots(nodes))
    {
      ghost var middle := Spots(nodes);
      childX := PositionChild(node.children[i], childX, startX, depth, nodes, t, i);
      PlaceNext(t, i, depth, startX);
      SpotsCompose(depths, before, PlaceUpTo(t, i, depth, startX), middle,
                   Place(t.children[i], depth + 1, Offset(t.children, i, startX)), Spots(nodes));
    }
  }

  method PositionItself(node: LayoutNode, startX: int, ghost depth: nat, ghost nodes: UnitMap, ghost t: Tree)
    requires Injective(nodes) && Shape(nodes, t) && node == nodes[t.unit.id]
    modifies nodes.Values`x, nodes.Values`y, nodes.Values`width
    ensures SpotsWritten(Depths(nodes), old(Spots(nodes)), [Box(t.unit, startX, Y(depth), Width(t))], Spots(nodes))
  {
    var subtreeWidth := CalculateSubtreeWidth(node, nodes, t);
    node.Position(startX, subtreeWidth);
  }

  method PositionChild(
    child: LayoutNode, childX: int, ghost startX: int, ghost depth: nat, ghost nodes: UnitMap, ghost t: Tree, ghost i: nat
  ) returns (nextX: int)
    requires i < |t.children| && childX == Offset(t.children, i, startX)
    requires Injective(nodes) && Shape(nodes, t.children[i]) && child == nodes[t.children[i].unit.id]
    modifies nodes.Values`x, nodes.Values`y, nodes.Values`width
    ensures nextX == Offset(t.children, i + 1, startX)
    ensures SpotsWritten(Depths(nodes), old(Spots(nodes)), Place(t.children[i], depth + 1, childX), Spots(nodes))
    decreases t, 0
  {
    PositionNodes(child, childX, depth + 1, nodes, t.children[i]);
    OffsetNext(t.children, i, startX);
    var w := CalculateSubtreeWidth(child, nodes, t.children[i]);
    nextX := childX + w + HORIZONTAL_GAP;
  }

  // ----- Emission -----

  /** The two arrays the recursion pushes into. */
  class Chart {
    var nodes: seq<Box>
    var edges: seq<Edge>

    constructor ()
      ensures nodes == [] && edges == []
    {
      nodes, edges := [], [];
    }
  }

  /** Each id of a box is where its last box is. */
  ghost predicate AreSettled(nodes: UnitMap, all: seq<Box>)
    reads nodes.Values`x, nodes.Values`y, nodes.Values`width
  {
    forall id :: id in nodes ==>
      match LastBox(all, id)
      case Some(b) => b == Box(nodes[id].unit, nodes[id].x, nodes[id].y, nodes[id].width)
      case None => true
  }

  lemma WritesSettle(
    nodes: UnitMap, all: seq<Box>, depths: map<string, int>, spots: map<string, Spot>)
    requires ShowsUnits(nodes, all) && depths.Keys == nodes.Keys
    requires DepthsWritten(depths, all, Depths(nodes)) && SpotsWritten(Depths(nodes), spots, all, Spots(nodes))
    ensures AreSettled(nodes, all)
  {
    forall id | id in nodes && LastBox(all, id).Some?
      ensures LastBox(all, id).value == Box(nodes[id].unit, nodes[id].x, nodes[id].y, nodes[id].width)
    {
      LastBoxFound(all, id);
      assert id in depths && id in spots;
    }
  }

  lemma EmitNext(boxes: seq<Box>, edges: seq<Edge>, t: Tree, i: nat, depth: nat, x: int, all: seq<Box>)
    requires i < |t.children|
    ensures (boxes + Settle(PlaceUpTo(t, i, depth, x), all))
            + Settle(Place(t.children[i], depth + 1, Offset(t.children, i, x)), all)
         == boxes + Settle(PlaceUpTo(t, i + 1, depth, x), all)
    ensures (edges + EdgesTo(t.unit.id, t.children[..i]))
            + ([Edge(t.unit.id, t.children[i].unit.id)] + Edges(t.children[i]))
         == edges + EdgesTo(t.unit.id, t.children[..i + 1])
  {
    var child := Place(t.children[i], depth + 1, Offset(t.children, i, x));
    PlaceNext(t, i, depth, x);
    RowSnoc(t.unit.id, t.children, i, depth + 1, x);
    SettleConcat(PlaceUpTo(t, i, depth, x), child, all);
    Associate(boxes, Settle(PlaceUpTo(t, i, depth, x), all), Settle(child, all));
    Associate(edges, EdgesTo(t.unit.id, t.children[..i]), [Edge(t.unit.id, t.children[i].unit.id)] + Edges(t.children[i]));
    Associate(EdgesTo(t.unit.id, t.children[..i]), [Edge(t.unit.id, t.children[i].unit.id)], Edges(t.children[i]));
  }

  method TreeToNodesAndEdges(
    node: LayoutNode, chart: Chart, ghost depth: nat, ghost x: int, ghost nodes: UnitMap, ghost t: Tree,
    ghost all: seq<Box>
  )
    requires Shape(nodes, t) && node == nodes[t.unit.id] && AreSettled(nodes, all)
    requires forall b :: b in Place(t, depth, x) ==> b in all
    modifies chart
    ensures chart.nodes == old(chart.nodes) + Settle(Place(t, depth, x), all)
    ensures chart.edges == old(chart.edges) + Edges(t)
    decreases t, 1
  {
    ghost var boxes, edges := chart.nodes, chart.edges;
    PlaceEnds(t, depth, x);
    PushNode(node, chart, Box(t.unit, x, Y(depth), Width(t)), nodes, all);
    for i := 0 to |node.children|
      invariant chart.nodes == boxes + Settle(PlaceUpTo(t, i, depth, x), all)
      invariant chart.edges == edges + EdgesTo(t.unit.id, t.children[..i])
    {
      EmitChild(node, i, chart, depth, x, nodes, t, all);
      EmitNext(boxes, edges, t, i, depth, x, all);
    }
    assert t.children[..|t.children|] == t.children;
  }

  method PushNode(node: LayoutNode, chart: Chart, ghost box: Box, ghost nodes: UnitMap, ghost all: seq<Box>)
    requires AreSettled(nodes, all) && box in all && box.unit.id in nodes && node == nodes[box.unit.id]
    modifies chart`nodes
    ensures chart.nodes == old(chart.nodes) + Settle([box], all)
  {
    LastBoxFound(all, box.unit.id);
    chart.nodes := chart.nodes + [Box(node.unit, node.x, node.y, node.width)];
  }

  method EmitChild(
    node: LayoutNode, i: nat, chart: Chart, ghost depth: nat, ghost x: int, ghost nodes: UnitMap, ghost t: Tree,
    ghost all: seq<Box>
  )
    requires Shape(nodes, t) && node == nodes[t.unit.id] && AreSettled(nodes, all) && i < |t.children|
    requires forall b :: b in Place(t, depth, x) ==> b in all
    modifies chart
    ensures chart.nodes == old(chart.nodes) + Settle(Place(t.children[i], depth + 1, Offset(t.children, i, x)), all)
    ensures chart.edges == old(chart.edges) + ([Edge(t.unit.id, t.children[i].unit.id)] + Edges(t.children[i]))
    decreases t, 0
  {
    var child := node.children[i];
    chart.edges := chart.edges + [Edge(node.unit.id, child.unit.id)];
    OffsetPlaced(t.children, i, depth + 1, x);
    TreeToNodesAndEdges(child, chart, depth + 1, Offset(t.children, i, x), nodes, t.children[i], all);
  }

  method LayoutTree(root: LayoutNode, ghost nodes: UnitMap, ghost t: Tree) returns (chart: Chart)
    requires Injective(nodes) && Shape(nodes, t) && root == nodes[t.unit.id]
    modifies nodes.Values
    ensures chart.nodes == Drawn(t) && chart.edges == Edges(t)
  {
    ghost var all := Place(t, 0, 0);
    ghost var depths, spots := Depths(nodes), Spots(nodes);
    AssignDepths(root, 0, 0, nodes, t);
    PositionNodes(root, 0, 0, nodes, t);
    ShapeUnits(nodes, t, 0, 0);
    WritesSettle(nodes, all, depths, spots);
    chart := new Chart();
    TreeToNodesAndEdges(root, chart, 0, 0, nodes, t, all);
  }

  /**
   * The chart of a flat list whose recursion below the root ends: every unit that a chain of child ids leads
   * to, as often as it does, each time where its last occurrence was placed.
   */
  method LayoutOrgChart(units: seq<OrgUnit>) returns (nodes: seq<Box>, edges: seq<Edge>)
    requires RootUnit(units).Some? ==> !Repeats(units, RootUnit(units).value.id)
    ensures RootUnit(units).None? ==> nodes == [] && edges == []
    ensures RootUnit(units).Some? ==> nodes == Drawn(ChartTree(units)) && edges == Edges(ChartTree(units))
  {
    var root, unitMap := BuildTree(units);
    if root == null {
      return [], [];
    }
    ghost var id := RootUnit(units).value.id;
    RecursionEndsIff(units, id);
    BuiltShape(unitMap, units, id, |units|);
    UnitOfFound(units, id);
    var chart := LayoutTree(root, unitMap, ChartTree(units));
    nodes, edges := chart.nodes, chart.edges;
  }

  /** The chart's rectangles are apart exactly if no unit is reached twice; for unique ids it is the placed tree itself. */
  lemma ChartApartIff(units: seq<OrgUnit>)
    requires RootUnit(units).Some? && !Repeats(units, RootUnit(units).value.id)
    ensures AllApart(Drawn(ChartTree(units))) <==> UniqueIds(Preorder(ChartTree(units)))
    ensures UniqueIds(units) ==>
              ChartTree(units) == BuiltTree(units) && Drawn(ChartTree(units)) == Place(BuiltTree(units), 0, 0)
  {
    DrawnApartIff(ChartTree(units));
    if UniqueIds(units) {
      UniqueIdsChart(units);
      TreeHoldsReachableUnits(units);
    }
  }
}
