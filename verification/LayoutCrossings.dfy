/** Edges that skip a column: which boxes in between they are drawn through. */
module LayoutCrossings {
  import opened GraphLayout
  import opened LayoutGeometry
  import opened LayoutOrder
  import opened Sequences

  // ----- A line and a box, in numbers

  function Lesser(a: real, b: real): real { if a < b then a else b }

  function Greater(a: real, b: real): real { if a < b then b else a }

  /** How far below the top of `b` the line from `left` to `right` runs at `x`, times the line's width. */
  function HeightAt(left: Box, right: Box, b: Box, x: int): int {
    (left.y + NODE_HEIGHT / 2 - b.y) * (right.x - left.x - NODE_WIDTH) + (x - left.x - NODE_WIDTH) * (right.y - left.y)
  }

  /** The line runs above the bottom of `b` at one of its sides and below its top at one of them. */
  predicate Cuts(left: Box, right: Box, b: Box) {
    var (p, q) := (HeightAt(left, right, b, b.x), HeightAt(left, right, b, b.x + NODE_WIDTH));
    var bottom := NODE_HEIGHT * (right.x - left.x - NODE_WIDTH);
    (p < bottom || q < bottom) && (p > 0 || q > 0)
  }

  lemma Quotient(v: real, d: real) returns (u: real)
    requires d != 0.0
    ensures u * d == v
    ensures d > 0.0 && 0.0 < v < d ==> 0.0 < u < 1.0
    ensures d < 0.0 && d < v < 0.0 ==> 0.0 < u < 1.0
  {
    u := v / d;
    var size := if d > 0.0 then d else -d;
    if u <= 0.0 {
      Product(-u, size);
    } else if u >= 1.0 {
      Product(u - 1.0, size);
    }
  }

  /** A line from `a` to `a + d` meets the open strip between 0 and `h`. */
  lemma MeetsStrip(a: real, d: real, h: real) returns (u: real)
    requires h > 0.0 && (a < h || a + d < h) && (a > 0.0 || a + d > 0.0)
    ensures 0.0 < u < 1.0 && 0.0 < a + u * d < h
  {
    if d == 0.0 {
      u := 0.5;
    } else {
      var low := Greater(0.0, Lesser(a, a + d));
      var high := Lesser(h, Greater(a, a + d));
      var v := (low + high) / 2.0;
      u := Quotient(v - a, d);
    }
  }

  lemma StaysBetween(a: real, d: real, u: real)
    requires 0.0 < u < 1.0
    ensures Lesser(a, a + d) <= a + u * d <= Greater(a, a + d)
  {
    if d >= 0.0 {
      Product(u, d);
      Product(1.0 - u, d);
    } else {
      Product(u, -d);
      Product(1.0 - u, -d);
    }
  }

  /** That measure at the left side of `b`, what it gains across `b`, and the width. */
  predicate Heights(left: Box, right: Box, b: Box, a: real, d: real, width: real) {
    && width == (right.x - left.x - 200) as real
    && a == (left.y + 17 - b.y) as real * width + (b.x - left.x - 200) as real * (right.y - left.y) as real
    && d == 200.0 * (right.y - left.y) as real
  }

  predicate MeetsBox(a: real, d: real, width: real) {
    (a < 34.0 * width || a + d < 34.0 * width) && (a > 0.0 || a + d > 0.0)
  }

  lemma HeightsAre(left: Box, right: Box, b: Box) returns (a: real, d: real, width: real)
    requires left.x + NODE_WIDTH < right.x
    ensures width > 0.0 && Heights(left, right, b, a, d, width)
    ensures Cuts(left, right, b) <==> MeetsBox(a, d, width)
  {
    width := (right.x - left.x - NODE_WIDTH) as real;
    a := HeightAt(left, right, b, b.x) as real;
    d := 200.0 * (right.y - left.y) as real;
    var (h, x, dx, dy) := (left.y + 17 - b.y, b.x - left.x - 200, right.x - left.x - 200, right.y - left.y);
    assert (x + 200) * dy == x * dy + 200 * dy;
    assert (h * dx) as real == h as real * dx as real;
    assert (x * dy) as real == x as real * dy as real;
  }

  /** The segment runs from the right side of one box to the left side of the other, middle to middle. */
  predicate Joining(s: Segment, left: Box, right: Box) {
    s.x1 == left.x + 200 && s.x2 == right.x && s.y1 == left.y + 17 && s.y2 == right.y + 17
  }

  /** The point where the line passes the place `u` of the way across `b`, where the measure is `h`. */
  lemma PlaceOnLine(s: Segment, left: Box, right: Box, b: Box, t: real, u: real, h: real, a: real, d: real, width: real)
    returns (x: real, y: real, rise: real)
    requires Joining(s, left, right) && Heights(left, right, b, a, d, width)
    requires t * width == (b.x - s.x1) as real + 200.0 * u && h == a + u * d
    ensures x == s.x1 as real + t * (s.x2 - s.x1) as real && y == s.y1 as real + t * (s.y2 - s.y1) as real
    ensures x - b.x as real == 200.0 * u && y - b.y as real == rise && width * rise == h
  {
    var (g, z, dy) := ((left.y + 17 - b.y) as real, (b.x - left.x - 200) as real, (right.y - left.y) as real);
    x := s.x1 as real + t * (s.x2 - s.x1) as real;
    y := s.y1 as real + t * (s.y2 - s.y1) as real;
    rise := g + t * dy;
    assert width * (t * dy) == (t * width) * dy;
    assert (z + 200.0 * u) * dy == z * dy + u * (200.0 * dy);
    assert width * (g + t * dy) == g * width + width * (t * dy);
  }

  lemma ScaledStrip(width: real, y: real, h: real)
    requires width > 0.0 && width * y == h
    ensures 0.0 < h < 34.0 * width <==> 0.0 < y < 34.0
  {
    if 0.0 < y < 34.0 {
      Positive(width, y);
      Positive(width, 34.0 - y);
    } else if y <= 0.0 {
      Product(width, -y);
    } else {
      Product(width, y - 34.0);
    }
  }

  lemma Positive(a: real, b: real)
    requires a > 0.0 && b > 0.0
    ensures a * b > 0.0
  {
  }

  lemma InsideExactly(s: Segment, left: Box, right: Box, b: Box, t: real, u: real, h: real, a: real, d: real,
                      width: real)
    requires Joining(s, left, right) && Heights(left, right, b, a, d, width) && width > 0.0
    requires t * width == (b.x - s.x1) as real + 200.0 * u && h == a + u * d
    ensures InsideAt(s, t, b) <==> 0.0 < u < 1.0 && 0.0 < h < 34.0 * width
  {
    var x, y, rise := PlaceOnLine(s, left, right, b, t, u, h, a, d, width);
    ScaledStrip(width, rise, h);
    InsideIs(s, t, b, x, y);
  }

  lemma InsideIs(s: Segment, t: real, b: Box, x: real, y: real)
    requires x == s.x1 as real + t * (s.x2 - s.x1) as real && y == s.y1 as real + t * (s.y2 - s.y1) as real
    ensures InsideAt(s, t, b) <==> 0.0 < x - b.x as real < 200.0 && 0.0 < y - b.y as real < 34.0
  {
  }

  lemma PlaceIsCrossed(s: Segment, left: Box, right: Box, b: Box, u: real, h: real, a: real, d: real, width: real)
    requires Joining(s, left, right) && Heights(left, right, b, a, d, width) && width > 0.0
    requires left.x + NODE_WIDTH < b.x && b.x + NODE_WIDTH < right.x
    requires h == a + u * d && 0.0 < u < 1.0 && 0.0 < h < 34.0 * width
    ensures Crosses(s, b)
  {
    var t := Quotient((b.x - s.x1) as real + 200.0 * u, width);
    InsideExactly(s, left, right, b, t, u, h, a, d, width);
    assert InsideAt(s, t, b);
  }

  lemma CutIsCrossed(s: Segment, left: Box, right: Box, b: Box, a: real, d: real, width: real)
    requires Joining(s, left, right) && Heights(left, right, b, a, d, width) && width > 0.0
    requires left.x + NODE_WIDTH < b.x && b.x + NODE_WIDTH < right.x && MeetsBox(a, d, width)
    ensures Crosses(s, b)
  {
    var u := MeetsStrip(a, d, 34.0 * width);
    PlaceIsCrossed(s, left, right, b, u, a + u * d, a, d, width);
  }

  lemma PlaceOf(s: Segment, t: real, b: Box, width: real) returns (u: real)
    requires width == (s.x2 - s.x1) as real
    ensures t * width == (b.x - s.x1) as real + 200.0 * u
  {
    u := (t * width - (b.x - s.x1) as real) / 200.0;
  }

  lemma CrossedIsCut(s: Segment, left: Box, right: Box, b: Box, t: real, a: real, d: real, width: real)
    requires Joining(s, left, right) && Heights(left, right, b, a, d, width) && width > 0.0
    requires InsideAt(s, t, b)
    ensures MeetsBox(a, d, width)
  {
    var u := PlaceOf(s, t, b, width);
    InsideExactly(s, left, right, b, t, u, a + u * d, a, d, width);
    StaysBetween(a, d, u);
  }

  lemma JoinedCrosses(s: Segment, left: Box, right: Box, b: Box)
    requires Joining(s, left, right) && left.x + NODE_WIDTH < b.x && b.x + NODE_WIDTH < right.x
    ensures Crosses(s, b) <==> Cuts(left, right, b)
  {
    var a, d, width := HeightsAre(left, right, b);
    if MeetsBox(a, d, width) {
      CutIsCrossed(s, left, right, b, a, d, width);
    }
    if t: real :| 0.0 <= t <= 1.0 && InsideAt(s, t, b) {
      CrossedIsCut(s, left, right, b, t, a, d, width);
    }
  }

  /** Which way a segment is drawn does not matter. */
  lemma ReversedCrosses(s: Segment, r: Segment, b: Box)
    requires r.x1 == s.x2 && r.x2 == s.x1 && r.y1 == s.y2 && r.y2 == s.y1
    requires Crosses(s, b)
    ensures Crosses(r, b)
  {
    var t: real :| 0.0 <= t <= 1.0 && InsideAt(s, t, b);
    ReversedInside(s, r, b, t);
    assert InsideAt(r, 1.0 - t, b);
  }

  lemma ReversedInside(s: Segment, r: Segment, b: Box, t: real)
    requires r.x1 == s.x2 && r.x2 == s.x1 && r.y1 == s.y2 && r.y2 == s.y1 && InsideAt(s, t, b)
    ensures InsideAt(r, 1.0 - t, b)
  {
    Backwards(s.x1, s.x2, t);
    Backwards(s.y1, s.y2, t);
  }

  lemma Backwards(p: int, q: int, t: real)
    ensures q as real + (1.0 - t) * (p - q) as real == p as real + t * (q - p) as real
  {
  }

  /** An edge between two columns crosses exactly the boxes of the columns between them whose
      height its line passes. */
  lemma EdgeCrossesExactly(nodes: seq<Node>, edges: seq<Edge>, passes: nat, e: Edge, from: Box, to: Box, b: Box)
    requires var boxes := LayoutOf(nodes, edges, passes).nodes; from in boxes && to in boxes && b in boxes
    requires from.x != to.x
    ensures var (left, right) := if from.x < to.x then (from, to) else (to, from);
            Crosses(SegmentBetween(e, from, to), b) <==> left.x < b.x < right.x && Cuts(left, right, b)
  {
    SameColumnSameKind(nodes, edges, passes, from, to);
    SameColumnSameKind(nodes, edges, passes, from, b);
    SameColumnSameKind(nodes, edges, passes, to, b);
    var (left, right) := if from.x < to.x then (from, to) else (to, from);
    if left.x < b.x < right.x {
      InnerEdgeCrosses(e, from, to, left, right, b);
    } else {
      CrossColumnMisses(e, from, to, b);
    }
  }

  lemma InnerEdgeCrosses(e: Edge, from: Box, to: Box, left: Box, right: Box, b: Box)
    requires left.x + NODE_WIDTH < b.x && b.x + NODE_WIDTH < right.x
    requires (left, right) == if from.x < to.x then (from, to) else (to, from)
    ensures Crosses(SegmentBetween(e, from, to), b) <==> Cuts(left, right, b)
  {
    var s, forward := SegmentBetween(e, from, to), SegmentBetween(e, left, right);
    JoinedCrosses(forward, left, right, b);
    if from.x > to.x && Crosses(s, b) {
      ReversedCrosses(s, forward, b);
    }
    if from.x > to.x && Crosses(forward, b) {
      ReversedCrosses(forward, s, b);
    }
  }

  lemma LevelCuts(left: Box, right: Box, b: Box)
    requires left.x + NODE_WIDTH < right.x && left.y == right.y == b.y
    ensures Cuts(left, right, b)
  {
    var dx := right.x - left.x - 200;
    Flat(b.x - left.x - 200, right.y - left.y);
    Flat(b.x, right.y - left.y);
    assert HeightAt(left, right, b, b.x) == 17 * dx;
  }

  lemma Flat(x: int, dy: int)
    requires dy == 0
    ensures x * dy == 0
  {
  }

  /** An edge along one row that skips a column goes straight through the box in between. */
  lemma SkippedRowIsCrossed(nodes: seq<Node>, edges: seq<Edge>, passes: nat, e: Edge, from: Box, to: Box, b: Box)
    requires var boxes := LayoutOf(nodes, edges, passes).nodes; from in boxes && to in boxes && b in boxes
    requires from.x < b.x < to.x && from.y == to.y == b.y
    ensures Crosses(SegmentBetween(e, from, to), b)
  {
    EdgeCrossesExactly(nodes, edges, passes, e, from, to, b);
    SameColumnSameKind(nodes, edges, passes, from, to);
    LevelCuts(from, to, b);
  }

  // ----- Graphs that have such an edge

  ghost predicate DistinctKinds(nodes: seq<Node>) {
    forall i, j :: 0 <= i < j < |nodes| ==> nodes[i].kind != nodes[j].kind
  }

  lemma SameKindSameNode(nodes: seq<Node>, n: Node, m: Node)
    requires DistinctKinds(nodes) && n in nodes && m in nodes
    ensures n.kind == m.kind ==> n == m
  {
    var i :| 0 <= i < |nodes| && nodes[i] == n;
    var j :| 0 <= j < |nodes| && nodes[j] == m;
  }

  lemma SingleRow(board: Board, nodes: seq<Node>, rank: nat, n: Node, i: nat)
    requires Holds(board.columns, nodes) && DistinctKinds(nodes) && AllRowsMatch(board)
    requires rank in board.columns && i < |board.columns[rank]| && n == board.columns[rank][i]
    ensures Get(board.rowOf, n.id, 0) == 0
  {
    var column := board.columns[rank];
    ColumnMember(board.columns, nodes, rank, column[0]);
    ColumnMember(board.columns, nodes, rank, n);
    RankDecides(column[0], n);
    SameKindSameNode(nodes, column[0], n);
    assert RowsMatch(board.rowOf, column);
  }

  lemma RankDecides(n: Node, m: Node)
    requires Rank(n.kind) == Rank(m.kind)
    ensures n.kind == m.kind
  {
  }

  lemma {:induction false} TopRowIn(board: Board, ranks: seq<nat>, nodes: seq<Node>, i: nat)
    requires Holds(board.columns, nodes) && DistinctKinds(nodes) && AllRowsMatch(board)
    requires (forall k :: k in ranks ==> k in board.columns) && i < |Boxes(board, ranks)|
    ensures Boxes(board, ranks)[i].y == HEADER_HEIGHT
  {
    var last := |ranks| - 1;
    var front := Boxes(board, ranks[..last]);
    if i < |front| {
      TopRowIn(board, ranks[..last], nodes, i);
    } else {
      SingleRow(board, nodes, ranks[last], board.columns[ranks[last]][i - |front|], i - |front|);
    }
  }

  /** With one node of each kind everything stands on the top row. */
  lemma TopRow(nodes: seq<Node>, edges: seq<Edge>, passes: nat, b: Box)
    requires DistinctIds(nodes) && DistinctKinds(nodes) && b in LayoutOf(nodes, edges, passes).nodes
    ensures b.y == HEADER_HEIGHT
  {
    var board := BoardAfter(nodes, edges, passes);
    RowsAreBijective(nodes, edges, passes);
    var i :| 0 <= i < |LayoutOf(nodes, edges, passes).nodes| && LayoutOf(nodes, edges, passes).nodes[i] == b;
    TopRowIn(board, Ranks(nodes), nodes, i);
  }

  lemma KindsDrawnOnce(nodes: seq<Node>, edges: seq<Edge>, passes: nat, boxes: seq<Box>)
    requires DistinctIds(nodes) && DistinctKinds(nodes) && boxes == LayoutOf(nodes, edges, passes).nodes
    ensures |boxes| == |nodes|
    ensures forall i, j :: 0 <= i < j < |boxes| ==> boxes[i].x != boxes[j].x
  {
    var drawn := DrawnNodes(boxes);
    EveryNodeDrawnOnce(nodes, edges, passes);
    assert |multiset(drawn)| == |multiset(nodes)|;
    InjectivePermutes(nodes, drawn);
    forall i, j | 0 <= i < j < |boxes| ensures boxes[i].x != boxes[j].x {
      SameMembers(drawn, nodes, drawn[i]);
      SameMembers(drawn, nodes, drawn[j]);
      SameColumnSameKind(nodes, edges, passes, boxes[i], boxes[j]);
      SameKindSameNode(nodes, drawn[i], drawn[j]);
      assert drawn[i] != drawn[j];
    }
  }

  lemma InOrderOfX(boxes: seq<Box>) returns (left: Box, mid: Box, right: Box)
    requires |boxes| == 3 && forall i, j :: 0 <= i < j < |boxes| ==> boxes[i].x != boxes[j].x
    ensures left in boxes && mid in boxes && right in boxes && left.x < mid.x < right.x
  {
    left, mid, right := boxes[0], boxes[1], boxes[2];
    if mid.x < left.x { left, mid := mid, left; }
    if right.x < mid.x { mid, right := right, mid; }
    if mid.x < left.x { left, mid := mid, left; }
  }

  lemma TopRowIsCrossed(nodes: seq<Node>, edges: seq<Edge>, passes: nat, from: Box, b: Box, to: Box)
    requires DistinctIds(nodes) && DistinctKinds(nodes) && from.x < b.x < to.x
    requires var boxes := LayoutOf(nodes, edges, passes).nodes; from in boxes && b in boxes && to in boxes
    ensures Crosses(SegmentBetween(Edge(from.id, to.id), from, to), b)
  {
    TopRow(nodes, edges, passes, from);
    TopRow(nodes, edges, passes, b);
    TopRow(nodes, edges, passes, to);
    SkippedRowIsCrossed(nodes, edges, passes, Edge(from.id, to.id), from, to, b);
  }

  /** In the layout of any three nodes of three kinds, an edge between the outer two would be drawn
      through the box of the third. */
  lemma ThreeKindsCross(nodes: seq<Node>, edges: seq<Edge>, passes: nat) returns (from: Box, b: Box, to: Box)
    requires |nodes| == 3 && DistinctIds(nodes) && DistinctKinds(nodes)
    ensures var boxes := LayoutOf(nodes, edges, passes).nodes;
            from in boxes && b in boxes && to in boxes && from.x < b.x < to.x
    ensures Crosses(SegmentBetween(Edge(from.id, to.id), from, to), b)
  {
    var boxes := LayoutOf(nodes, edges, passes).nodes;
    KindsDrawnOnce(nodes, edges, passes, boxes);
    from, b, to := InOrderOfX(boxes);
    TopRowIsCrossed(nodes, edges, passes, from, b, to);
  }
}
