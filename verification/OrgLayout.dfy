/**
 * The geometry of the organisation chart (apps/frontend/lib/org-chart-layout.ts), on finite
 * trees: subtree widths, positions, and the emitted boxes and edges.
 */
module OrgLayout {
  import opened Wrappers
  import opened OrgTree

  const MIN_NODE_WIDTH: nat := 280
  const NODE_HEIGHT: nat := 90
  const HORIZONTAL_GAP: nat := 40
  const VERTICAL_GAP: nat := 100

  /** An emitted node: its unit, position and width. */
  datatype Box = Box(unit: OrgUnit, x: int, y: int, width: int)

  datatype Edge = Edge(source: string, target: string)

  function Max(a: int, b: int): int { if a < b then b else a }

  function Width(t: Tree): int {
    if t.children == [] then MIN_NODE_WIDTH
    else Max(MIN_NODE_WIDTH, Widths(t.children) + (|t.children| - 1) * HORIZONTAL_GAP)
  }

  function Widths(ts: seq<Tree>): int {
    if ts == [] then 0 else Width(ts[0]) + Widths(ts[1..])
  }

  function Y(depth: int): int { depth * (NODE_HEIGHT + VERTICAL_GAP) }

  /** The boxes of a tree in emission order. */
  function Place(t: Tree, depth: nat, x: int): seq<Box> {
    [Box(t.unit, x, Y(depth), Width(t))] + PlaceAll(t.children, depth + 1, x)
  }

  function PlaceAll(ts: seq<Tree>, depth: nat, x: int): seq<Box> {
    if ts == [] then []
    else Place(ts[0], depth, x) + PlaceAll(ts[1..], depth, x + Width(ts[0]) + HORIZONTAL_GAP)
  }

  function Edges(t: Tree): seq<Edge>
    decreases t, 1
  {
    EdgesTo(t.unit.id, t.children)
  }

  function EdgesTo(source: string, ts: seq<Tree>): seq<Edge>
    decreases ts, 0
  {
    if ts == [] then []
    else [Edge(source, ts[0].unit.id)] + Edges(ts[0]) + EdgesTo(source, ts[1..])
  }

  // ----- Widths -----

  function Leaves(t: Tree): nat {
    if t.children == [] then 1 else LeavesAll(t.children)
  }

  function LeavesAll(ts: seq<Tree>): nat {
    if ts == [] then 0 else Leaves(ts[0]) + LeavesAll(ts[1..])
  }

  /** A subtree is exactly as wide as its leaves side by side. */
  lemma {:induction false} WidthByLeaves(t: Tree)
    ensures Leaves(t) > 0 && Width(t) == 320 * Leaves(t) - 40
    decreases t, 1
  {
    if t.children != [] { WidthsByLeaves(t.children); }
  }

  lemma {:induction false} WidthsByLeaves(ts: seq<Tree>)
    ensures LeavesAll(ts) >= |ts| && Widths(ts) == 320 * LeavesAll(ts) - 40 * |ts|
    decreases ts, 0
  {
    if ts != [] {
      WidthByLeaves(ts[0]);
      WidthsByLeaves(ts[1..]);
    }
  }

  /** The minimum width decides the width of a leaf only. */
  lemma MinimumNeverBinds(t: Tree)
    requires t.children != []
    ensures Width(t) == Widths(t.children) + (|t.children| - 1) * HORIZONTAL_GAP
  {
    WidthByLeaves(t);
    WidthsByLeaves(t.children);
  }

  // ----- Positions -----

  ghost predicate Within(b: Box, x: int, width: int) {
    x <= b.x && b.x + b.width <= x + width
  }

  /** Every box of a tree lies inside the tree's own interval, at or below its row. */
  lemma {:induction false} PlacedInside(t: Tree, depth: nat, x: int)
    ensures forall b :: b in Place(t, depth, x) ==> Within(b, x, Width(t))
    ensures forall b :: b in Place(t, depth, x) ==> exists d :: depth <= d && b.y == Y(d)
    decreases t, 1
  {
    PlacedAllInside(t.children, depth + 1, x);
    if t.children != [] { MinimumNeverBinds(t); }
    assert Within(Place(t, depth, x)[0], x, Width(t));
  }

  lemma {:induction false} PlacedAllInside(ts: seq<Tree>, depth: nat, x: int)
    ensures forall b :: b in PlaceAll(ts, depth, x) ==>
              ts != [] && Within(b, x, Widths(ts) + (|ts| - 1) * HORIZONTAL_GAP)
    ensures forall b :: b in PlaceAll(ts, depth, x) ==> exists d :: depth <= d && b.y == Y(d)
    decreases ts, 0
  {
    if ts != [] {
      var next := x + Width(ts[0]) + HORIZONTAL_GAP;
      PlacedInside(ts[0], depth, x);
      PlacedAllInside(ts[1..], depth, next);
      WidthByLeaves(ts[0]);
      WidthsByLeaves(ts[1..]);
      var first, rest := Place(ts[0], depth, x), PlaceAll(ts[1..], depth, next);
      forall b | b in PlaceAll(ts, depth, x)
        ensures Within(b, x, Widths(ts) + (|ts| - 1) * HORIZONTAL_GAP)
        ensures exists d :: depth <= d && b.y == Y(d)
      {
        assert b in first || b in rest;
      }
    }
  }

  /** Two boxes in one row are at least the gap apart; boxes in different rows do not meet vertically. */
  ghost predicate Apart(a: Box, b: Box) {
    if a.y == b.y then a.x + a.width + HORIZONTAL_GAP <= b.x
    else a.y + NODE_HEIGHT + VERTICAL_GAP <= b.y || b.y + NODE_HEIGHT + VERTICAL_GAP <= a.y
  }

  ghost predicate AllApart(boxes: seq<Box>) {
    forall i, j :: 0 <= i < j < |boxes| ==> Apart(boxes[i], boxes[j])
  }

  lemma AllApartConcat(a: seq<Box>, b: seq<Box>)
    requires AllApart(a) && AllApart(b)
    requires forall p, q :: p in a && q in b ==> Apart(p, q)
    ensures AllApart(a + b)
  {
    var all := a + b;
    forall i, j | 0 <= i < j < |all| ensures Apart(all[i], all[j]) {
      if i < |a| && |a| <= j { assert all[i] in a && all[j] in b; }
    }
  }

  lemma RowsApart(d: int, e: int)
    requires d < e
    ensures Y(d) + NODE_HEIGHT + VERTICAL_GAP <= Y(e)
  {}

  lemma {:induction false} PlacedApart(t: Tree, depth: nat, x: int)
    ensures AllApart(Place(t, depth, x))
    decreases t, 1
  {
    PlacedAllApart(t.children, depth + 1, x);
    PlacedAllInside(t.children, depth + 1, x);
    var top, below := [Box(t.unit, x, Y(depth), Width(t))], PlaceAll(t.children, depth + 1, x);
    forall p, q | p in top && q in below ensures Apart(p, q) {
      var d :| depth + 1 <= d && q.y == Y(d);
      RowsApart(depth, d);
    }
    AllApartConcat(top, below);
  }

  lemma {:induction false} PlacedAllApart(ts: seq<Tree>, depth: nat, x: int)
    ensures AllApart(PlaceAll(ts, depth, x))
    decreases ts, 0
  {
    if ts != [] {
      var next := x + Width(ts[0]) + HORIZONTAL_GAP;
      PlacedApart(ts[0], depth, x);
      PlacedAllApart(ts[1..], depth, next);
      PlacedInside(ts[0], depth, x);
      PlacedAllInside(ts[1..], depth, next);
      var first, rest := Place(ts[0], depth, x), PlaceAll(ts[1..], depth, next);
      forall p, q | p in first && q in rest ensures Apart(p, q) {
        var d :| depth <= d && p.y == Y(d);
        var e :| depth <= e && q.y == Y(e);
        if d < e { RowsApart(d, e); }
        if e < d { RowsApart(e, d); }
      }
      AllApartConcat(first, rest);
    }
  }

  /** No two emitted rectangles overlap. */
  lemma NoOverlap(t: Tree, i: nat, j: nat)
    requires i < j < |Place(t, 0, 0)|
    ensures var a, b := Place(t, 0, 0)[i], Place(t, 0, 0)[j];
            || a.x + a.width + HORIZONTAL_GAP <= b.x
            || a.y + NODE_HEIGHT + VERTICAL_GAP <= b.y
            || b.y + NODE_HEIGHT + VERTICAL_GAP <= a.y
  {
    PlacedApart(t, 0, 0);
  }

  // ----- Subtrees, by the path of child indices that leads to them -----

  ghost predicate IsPath(t: Tree, path: seq<nat>) {
    path == [] || (path[0] < |t.children| && IsPath(t.children[path[0]], path[1..]))
  }

  ghost function Subtree(t: Tree, path: seq<nat>): Tree
    requires IsPath(t, path)
  {
    if path == [] then t else Subtree(t.children[path[0]], path[1..])
  }

  /** The left edge of the `i`-th tree of a row that starts at `x`. */
  ghost function Offset(ts: seq<Tree>, i: nat, x: int): int
    requires i <= |ts|
  {
    if i == 0 then x else Offset(ts[1..], i - 1, x + Width(ts[0]) + HORIZONTAL_GAP)
  }

  ghost function XAt(t: Tree, path: seq<nat>, x: int): int
    requires IsPath(t, path)
  {
    if path == [] then x else XAt(t.children[path[0]], path[1..], Offset(t.children, path[0], x))
  }

  /** The box emitted for the subtree at a path. */
  ghost function BoxAt(t: Tree, path: seq<nat>, depth: nat, x: int): Box
    requires IsPath(t, path)
  {
    Box(Subtree(t, path).unit, XAt(t, path, x), Y(depth + |path|), Width(Subtree(t, path)))
  }

  lemma {:induction false} OffsetPlaced(ts: seq<Tree>, i: nat, depth: nat, x: int)
    requires i < |ts|
    ensures forall b :: b in Place(ts[i], depth, Offset(ts, i, x)) ==> b in PlaceAll(ts, depth, x)
    ensures x <= Offset(ts, i, x)
    ensures Offset(ts, i, x) + Width(ts[i]) <= x + Widths(ts) + (|ts| - 1) * HORIZONTAL_GAP
    decreases ts
  {
    WidthByLeaves(ts[0]);
    WidthsByLeaves(ts[1..]);
    if i > 0 { OffsetPlaced(ts[1..], i - 1, depth, x + Width(ts[0]) + HORIZONTAL_GAP); }
  }

  /** Every subtree's box is emitted. */
  lemma {:induction false} BoxEmitted(t: Tree, path: seq<nat>, depth: nat, x: int)
    requires IsPath(t, path)
    ensures BoxAt(t, path, depth, x) in Place(t, depth, x)
    decreases |path|
  {
    if path != [] {
      var i := path[0];
      BoxEmitted(t.children[i], path[1..], depth + 1, Offset(t.children, i, x));
      OffsetPlaced(t.children, i, depth + 1, x);
    }
  }

  lemma {:induction false} PathConcat(t: Tree, path: seq<nat>, more: seq<nat>, x: int)
    requires IsPath(t, path) && IsPath(Subtree(t, path), more)
    ensures IsPath(t, path + more)
    ensures Subtree(t, path + more) == Subtree(Subtree(t, path), more)
    ensures XAt(t, path + more, x) == XAt(Subtree(t, path), more, XAt(t, path, x))
    decreases |path|
  {
    if path == [] {
      assert path + more == more;
    } else {
      assert (path + more)[1..] == path[1..] + more;
      PathConcat(t.children[path[0]], path[1..], more, Offset(t.children, path[0], x));
    }
  }

  lemma BoxInside(t: Tree, path: seq<nat>, depth: nat, x: int)
    requires IsPath(t, path)
    ensures Within(BoxAt(t, path, depth, x), x, Width(t))
  {
    BoxEmitted(t, path, depth, x);
    PlacedInside(t, depth, x);
  }

  /** A descendant's horizontal interval lies inside its ancestor's. */
  lemma DescendantInsideAncestor(t: Tree, path: seq<nat>, more: seq<nat>, depth: nat, x: int)
    requires IsPath(t, path) && IsPath(Subtree(t, path), more)
    ensures IsPath(t, path + more)
    ensures var a, b := BoxAt(t, path, depth, x), BoxAt(t, path + more, depth, x);
            Within(b, a.x, a.width)
  {
    PathConcat(t, path, more, x);
    var sub, left := Subtree(t, path), XAt(t, path, x);
    BoxInside(sub, more, 0, left);
  }

  // ----- Leaves -----

  /** The left edges of the leaves' boxes, in emission order. */
  function LeafXs(t: Tree, x: int): seq<int> {
    if t.children == [] then [x] else LeafXsAll(t.children, x)
  }

  function LeafXsAll(ts: seq<Tree>, x: int): seq<int> {
    if ts == [] then [] else LeafXs(ts[0], x) + LeafXsAll(ts[1..], x + Width(ts[0]) + HORIZONTAL_GAP)
  }

  /** The `i`-th leaf is at 320 times `i`. */
  lemma {:induction false} LeavesEvenlySpaced(t: Tree, x: int)
    ensures |LeafXs(t, x)| == Leaves(t) && forall i :: 0 <= i < Leaves(t) ==> LeafXs(t, x)[i] == x + 320 * i
    decreases t, 1
  {
    if t.children != [] { LeavesAllEvenlySpaced(t.children, x); }
  }

  lemma {:induction false} LeavesAllEvenlySpaced(ts: seq<Tree>, x: int)
    ensures |LeafXsAll(ts, x)| == LeavesAll(ts)
    ensures forall i :: 0 <= i < LeavesAll(ts) ==> LeafXsAll(ts, x)[i] == x + 320 * i
    decreases ts, 0
  {
    if ts != [] {
      WidthByLeaves(ts[0]);
      LeavesEvenlySpaced(ts[0], x);
      LeavesAllEvenlySpaced(ts[1..], x + Width(ts[0]) + HORIZONTAL_GAP);
    }
  }

  /** The number of leaves that come before the subtree at a path. */
  ghost function LeavesBefore(t: Tree, path: seq<nat>): nat
    requires IsPath(t, path)
  {
    if path == [] then 0
    else LeavesAll(t.children[..path[0]]) + LeavesBefore(t.children[path[0]], path[1..])
  }

  lemma {:induction false} OffsetByLeaves(ts: seq<Tree>, i: nat, x: int)
    requires i <= |ts|
    ensures Offset(ts, i, x) == x + 320 * LeavesAll(ts[..i])
    decreases i
  {
    if i > 0 {
      WidthByLeaves(ts[0]);
      OffsetByLeaves(ts[1..], i - 1, x + Width(ts[0]) + HORIZONTAL_GAP);
      assert ts[..i][1..] == ts[1..][..i - 1];
    }
  }

  /** Every node, leaf or not, starts 320 times the number of leaves before it. */
  lemma {:induction false} PositionByLeaves(t: Tree, path: seq<nat>, x: int)
    requires IsPath(t, path)
    ensures XAt(t, path, x) == x + 320 * LeavesBefore(t, path)
    decreases |path|
  {
    if path != [] {
      OffsetByLeaves(t.children, path[0], x);
      PositionByLeaves(t.children[path[0]], path[1..], Offset(t.children, path[0], x));
    }
  }

  // ----- Order and edges -----

  function Units(boxes: seq<Box>): (us: seq<OrgUnit>)
    ensures |us| == |boxes| && forall i :: 0 <= i < |us| ==> us[i] == boxes[i].unit
  {
    if boxes == [] then [] else [boxes[0].unit] + Units(boxes[1..])
  }

  lemma UnitsConcat(a: seq<Box>, b: seq<Box>)
    ensures Units(a + b) == Units(a) + Units(b)
  {}

  /** Boxes are emitted in preorder. */
  lemma {:induction false} EmittedInPreorder(t: Tree, depth: nat, x: int)
    ensures Units(Place(t, depth, x)) == Preorder(t)
    decreases t, 1
  {
    EmittedAllInPreorder(t.children, depth + 1, x);
  }

  lemma {:induction false} EmittedAllInPreorder(ts: seq<Tree>, depth: nat, x: int)
    ensures Units(PlaceAll(ts, depth, x)) == PreorderAll(ts)
    decreases ts, 0
  {
    if ts != [] {
      var next := x + Width(ts[0]) + HORIZONTAL_GAP;
      EmittedInPreorder(ts[0], depth, x);
      EmittedAllInPreorder(ts[1..], depth, next);
      UnitsConcat(Place(ts[0], depth, x), PlaceAll(ts[1..], depth, next));
    }
  }

  /** The `i`-th edge leads to the unit emitted right after it, one row below its source, which is emitted earlier. */
  ghost predicate EdgeFits(boxes: seq<Box>, edges: seq<Edge>, i: nat)
    requires |boxes| == |edges| + 1 && i < |edges|
  {
    && edges[i].target == boxes[i + 1].unit.id
    && exists j :: 0 <= j <= i && IsParentBox(boxes, j, i, edges[i])
  }

  ghost predicate IsParentBox(boxes: seq<Box>, j: nat, i: nat, e: Edge)
    requires j <= i < |boxes| - 1
  {
    && boxes[j].unit.id == e.source
    && boxes[i + 1].y == boxes[j].y + NODE_HEIGHT + VERTICAL_GAP
    && Within(boxes[i + 1], boxes[j].x, boxes[j].width)
  }

  ghost predicate EdgesFit(boxes: seq<Box>, edges: seq<Edge>) {
    |boxes| == |edges| + 1 && forall i :: 0 <= i < |edges| ==> EdgeFits(boxes, edges, i)
  }

  /** Every node but the root is the target of exactly one edge, which comes from the row above. */
  lemma {:induction false} EdgesMatchBoxes(t: Tree, depth: nat, x: int)
    ensures EdgesFit(Place(t, depth, x), Edges(t))
    decreases t, 1
  {
    var top := Box(t.unit, x, Y(depth), Width(t));
    PlacedAllInside(t.children, depth + 1, x);
    if t.children != [] { MinimumNeverBinds(t); }
    RowEdges(t.children, depth, x, top);
  }

  lemma {:induction false} RowEdges(ts: seq<Tree>, depth: nat, x: int, top: Box)
    requires top.y == Y(depth)
    requires forall b :: b in PlaceAll(ts, depth + 1, x) ==> Within(b, top.x, top.width)
    ensures EdgesFit([top] + PlaceAll(ts, depth + 1, x), EdgesTo(top.unit.id, ts))
    decreases ts, 0
  {
    if ts != [] {
      var id := top.unit.id;
      var next := x + Width(ts[0]) + HORIZONTAL_GAP;
      var first, rest := Place(ts[0], depth + 1, x), PlaceAll(ts[1..], depth + 1, next);
      EdgesMatchBoxes(ts[0], depth + 1, x);
      assert forall b :: b in rest ==> b in PlaceAll(ts, depth + 1, x);
      RowEdges(ts[1..], depth, next, top);
      RowConcat(top, first, rest, Edges(ts[0]), EdgesTo(id, ts[1..]), depth);
    }
  }

  lemma RowConcat(top: Box, first: seq<Box>, rest: seq<Box>, inner: seq<Edge>, outer: seq<Edge>, depth: nat)
    requires EdgesFit(first, inner) && EdgesFit([top] + rest, outer)
    requires top.y == Y(depth) && first[0].y == Y(depth + 1) && Within(first[0], top.x, top.width)
    ensures EdgesFit([top] + (first + rest), [Edge(top.unit.id, first[0].unit.id)] + inner + outer)
  {
    var boxes, edges := [top] + (first + rest), [Edge(top.unit.id, first[0].unit.id)] + inner + outer;
    forall i | 0 <= i < |edges| ensures EdgeFits(boxes, edges, i) {
      if i == 0 {
        assert IsParentBox(boxes, 0, 0, edges[0]);
      } else if i <= |inner| {
        assert EdgeFits(first, inner, i - 1);
        var j :| 0 <= j <= i - 1 && IsParentBox(first, j, i - 1, inner[i - 1]);
        assert IsParentBox(boxes, j + 1, i, edges[i]);
      } else {
        var k := i - 1 - |inner|;
        assert EdgeFits([top] + rest, outer, k);
        var j :| 0 <= j <= k && IsParentBox([top] + rest, j, k, outer[k]);
        assert IsParentBox(boxes, if j == 0 then 0 else j + |first|, i, edges[i]);
      }
    }
  }

  // ----- Units that occur more than once -----

  /** The last box of an id. */
  function LastBox(boxes: seq<Box>, id: string): Option<Box> {
    if boxes == [] then None
    else match LastBox(boxes[1..], id)
      case Some(b) => Some(b)
      case None => if boxes[0].unit.id == id then Some(boxes[0]) else None
  }

  /** The boxes with, for each, the last box of its id in its place: what is drawn when a node is placed more than once. */
  function Settle(boxes: seq<Box>, all: seq<Box>): (settled: seq<Box>)
    ensures |settled| == |boxes|
    ensures forall i :: 0 <= i < |boxes| ==>
              settled[i] == match LastBox(all, boxes[i].unit.id) case Some(b) => b case None => boxes[i]
  {
    if boxes == [] then []
    else [match LastBox(all, boxes[0].unit.id) case Some(b) => b case None => boxes[0]] + Settle(boxes[1..], all)
  }

  lemma SettleConcat(a: seq<Box>, b: seq<Box>, all: seq<Box>)
    ensures Settle(a + b, all) == Settle(a, all) + Settle(b, all)
  {}

  lemma {:induction false} LastBoxConcat(a: seq<Box>, b: seq<Box>, id: string)
    ensures LastBox(a + b, id) == match LastBox(b, id) case Some(c) => Some(c) case None => LastBox(a, id)
  {
    if a == [] {
      assert a + b == b;
    } else {
      assert (a + b)[1..] == a[1..] + b;
      LastBoxConcat(a[1..], b, id);
    }
  }

  lemma {:induction false} LastBoxFound(boxes: seq<Box>, id: string)
    ensures match LastBox(boxes, id)
            case Some(b) => b in boxes && b.unit.id == id
            case None => forall b :: b in boxes ==> b.unit.id != id
  {
    if boxes != [] {
      LastBoxFound(boxes[1..], id);
      assert boxes == [boxes[0]] + boxes[1..];
    }
  }

  lemma SettleUnique(boxes: seq<Box>)
    requires UniqueIds(Units(boxes))
    ensures Settle(boxes, boxes) == boxes
  {
    forall i | 0 <= i < |boxes| ensures LastBox(boxes, boxes[i].unit.id) == Some(boxes[i]) {
      OnlyBox(boxes, i);
    }
  }

  lemma {:induction false} OnlyBox(boxes: seq<Box>, i: nat)
    requires UniqueIds(Units(boxes)) && i < |boxes|
    ensures LastBox(boxes, boxes[i].unit.id) == Some(boxes[i])
  {
    LastBoxFound(boxes, boxes[i].unit.id);
    assert boxes[i] in boxes;
    var j :| 0 <= j < |boxes| && boxes[j] == LastBox(boxes, boxes[i].unit.id).value;
    assert Units(boxes)[i].id == Units(boxes)[j].id;
  }

  /** Every box is in the row of its depth, 190 below the one above it, and at least 280 wide. */
  lemma RowsAndWidths(t: Tree, path: seq<nat>, depth: nat, x: int)
    requires IsPath(t, path)
    ensures BoxAt(t, path, depth, x) in Place(t, depth, x)
    ensures BoxAt(t, path, depth, x).y == 190 * (depth + |path|)
    ensures BoxAt(t, path, depth, x).width == 320 * Leaves(Subtree(t, path)) - 40 >= 280
  {
    BoxEmitted(t, path, depth, x);
    WidthByLeaves(Subtree(t, path));
  }

  /** Two different boxes of a chart are at least 40 apart in one row, or their rows, 90 high, at least 100. */
  lemma GapsInPixels(t: Tree, i: nat, j: nat)
    requires i < j < |Place(t, 0, 0)|
    ensures var a, b := Place(t, 0, 0)[i], Place(t, 0, 0)[j];
            if a.y == b.y then a.x + a.width + 40 <= b.x else a.y + 90 + 100 <= b.y || b.y + 90 + 100 <= a.y
  {
    PlacedApart(t, 0, 0);
  }

  /** What is drawn for a tree, which may hold a unit more than once. */
  function Drawn(t: Tree): seq<Box> {
    Settle(Place(t, 0, 0), Place(t, 0, 0))
  }

  /** A unit that occurs twice is drawn twice in one place. */
  lemma DrawnTwice(t: Tree, i: nat, j: nat)
    requires i < j < |Preorder(t)| && Preorder(t)[i].id == Preorder(t)[j].id
    ensures |Drawn(t)| == |Preorder(t)| && Drawn(t)[i] == Drawn(t)[j]
    ensures Drawn(t)[i].unit.id == Preorder(t)[i].id && Drawn(t)[i].width > 0
  {
    var boxes := Place(t, 0, 0);
    EmittedInPreorder(t, 0, 0);
    assert Units(boxes)[i] == boxes[i].unit && Units(boxes)[j] == boxes[j].unit;
    LastBoxFound(boxes, boxes[i].unit.id);
    assert boxes[i] in boxes;
    WideBoxes(t, 0, 0);
  }

  lemma {:induction false} WideBoxes(t: Tree, depth: nat, x: int)
    ensures forall b :: b in Place(t, depth, x) ==> b.width > 0
    decreases t, 1
  {
    WidthByLeaves(t);
    WideRow(t.children, depth + 1, x);
  }

  lemma {:induction false} WideRow(ts: seq<Tree>, depth: nat, x: int)
    ensures forall b :: b in PlaceAll(ts, depth, x) ==> b.width > 0
    decreases ts, 0
  {
    if ts != [] {
      WideBoxes(ts[0], depth, x);
      WideRow(ts[1..], depth, x + Width(ts[0]) + HORIZONTAL_GAP);
    }
  }

  /** The drawn rectangles are apart exactly if no unit occurs twice, and each is then where its unit was placed. */
  lemma DrawnApartIff(t: Tree)
    ensures AllApart(Drawn(t)) <==> UniqueIds(Preorder(t))
    ensures UniqueIds(Preorder(t)) ==> Drawn(t) == Place(t, 0, 0)
  {
    EmittedInPreorder(t, 0, 0);
    if UniqueIds(Preorder(t)) {
      SettleUnique(Place(t, 0, 0));
      PlacedApart(t, 0, 0);
    } else {
      var us := Preorder(t);
      var i, j :| 0 <= i < j < |us| && us[i].id == us[j].id;
      DrawnTwice(t, i, j);
      assert !Apart(Drawn(t)[i], Drawn(t)[j]);
    }
  }

  /** From a nested organisation to the chart: nodes in flatten order and one edge fewer than nodes. */
  lemma ChartOfOrg(o: Org)
    requires UniqueIds(Flatten(o, None)) && NonEmptyIds(Flatten(o, None))
    ensures RootUnit(Flatten(o, None)).Some?
    ensures var t := BuiltTree(Flatten(o, None));
            && Units(Place(t, 0, 0)) == Flatten(o, None)
            && |Edges(t)| == |Flatten(o, None)| - 1
            && EdgesFit(Place(t, 0, 0), Edges(t))
  {
    FlattenRoundTrip(o);
    var t := BuiltTree(Flatten(o, None));
    EmittedInPreorder(t, 0, 0);
    EdgesMatchBoxes(t, 0, 0);
  }

  // ----- Edges are the parent pointers -----

  ghost predicate Linked(t: Tree)
    decreases t, 1
  {
    LinkedTo(t.unit.id, t.children)
  }

  ghost predicate LinkedTo(id: string, ts: seq<Tree>)
    decreases ts, 0
  {
    ts == [] || (Parent(ts[0].unit) == Some(id) && Linked(ts[0]) && LinkedTo(id, ts[1..]))
  }

  lemma {:induction false} LinkedForest(id: string, ts: seq<Tree>)
    requires forall i :: 0 <= i < |ts| ==> Parent(ts[i].unit) == Some(id) && Linked(ts[i])
    ensures LinkedTo(id, ts)
    decreases |ts|
  {
    if ts != [] { LinkedForest(id, ts[1..]); }
  }

  lemma {:induction false} BuildLinked(units: seq<OrgUnit>, root: string, u: OrgUnit, k: nat)
    requires At(units, root, u, k)
    ensures Linked(Build(units, root, u, k))
    decreases |units| - k
  {
    DepthBound(units, root, u, k);
    ChildrenAt(units, root, u, k);
    var kids := ChildUnits(units, u.id);
    var trees := BuildAll(units, root, kids, k + 1);
    forall i | 0 <= i < |trees| ensures Parent(trees[i].unit) == Some(u.id) && Linked(trees[i]) {
      assert kids[i] in kids;
      ChildUnitsMember(units, u.id, kids[i]);
      BuildLinked(units, root, kids[i], k + 1);
    }
    LinkedForest(u.id, trees);
    assert Build(units, root, u, k) == Tree(u, trees);
  }

  ghost predicate Points(us: seq<OrgUnit>, edges: seq<Edge>) {
    && |us| == |edges|
    && forall i :: 0 <= i < |us| ==> edges[i].target == us[i].id && Parent(us[i]) == Some(edges[i].source)
  }

  lemma {:induction false} EdgesPoint(t: Tree)
    requires Linked(t)
    ensures Points(Preorder(t)[1..], Edges(t))
    decreases t, 1
  {
    EdgesToPoint(t.unit.id, t.children);
    assert Preorder(t)[1..] == PreorderAll(t.children);
  }

  lemma {:induction false} EdgesToPoint(id: string, ts: seq<Tree>)
    requires LinkedTo(id, ts)
    ensures Points(PreorderAll(ts), EdgesTo(id, ts))
    decreases ts, 0
  {
    if ts != [] {
      EdgesPoint(ts[0]);
      EdgesToPoint(id, ts[1..]);
      assert Preorder(ts[0]) == [ts[0].unit] + Preorder(ts[0])[1..];
    }
  }

  /**
   * The edges of a chart are the parent pointers of the units it shows: the only edge into a
   * unit other than the root comes from its parent, and the root has none.
   */
  lemma EdgesAreParentPointers(units: seq<OrgUnit>)
    requires UniqueIds(units) && RootUnit(units).Some?
    ensures var t := BuiltTree(units);
            var us, edges := Preorder(t), Edges(t);
            && us[0] == RootUnit(units).value && |us| == |edges| + 1
            && (forall i, j :: 0 <= i < |us| && 0 <= j < |edges| ==> (edges[j].target == us[i].id <==> i == j + 1))
            && (forall j :: 0 <= j < |edges| ==> Parent(us[j + 1]) == Some(edges[j].source))
  {
    RootAt(units);
    var root := RootUnit(units).value;
    BuildLinked(units, root.id, root, 0);
    var t := BuiltTree(units);
    EdgesPoint(t);
    TreeHoldsReachableUnits(units);
    assert forall j :: 0 <= j < |Edges(t)| ==> Preorder(t)[1..][j] == Preorder(t)[j + 1];
  }
}
