/** What the drawn layout looks like: rows are a bijection after every pass, every node is
    drawn exactly once, boxes never collide, and edges run between facing sides. */
module LayoutGeometry {
  import opened Sequences
  import opened GraphLayout
  import opened LayoutOrder

  // ----- Rows

  ghost predicate DistinctColumns(columns: map<nat, seq<Node>>) {
    && (forall r :: r in columns ==> DistinctIds(columns[r]))
    && (forall r, q, n, m :: r in columns && q in columns && n in columns[r] && m in columns[q] && n.id == m.id ==>
        r == q)
  }

  /** The row map is the inverse of the columns: it sends the i-th node of a column to i. */
  ghost predicate RowsMatch(rowOf: map<Id, nat>, column: seq<Node>) {
    forall i :: 0 <= i < |column| ==> column[i].id in rowOf && rowOf[column[i].id] == i
  }

  ghost predicate AllRowsMatch(board: Board) {
    forall r :: r in board.columns ==> RowsMatch(board.rowOf, board.columns[r])
  }

  lemma DistinctPermutes(nodes: seq<Node>, nodes': seq<Node>)
    requires multiset(nodes) == multiset(nodes') && DistinctIds(nodes)
    ensures DistinctIds(nodes')
  {
    InjectivePermutes(nodes, nodes');
    forall i, j | 0 <= i < j < |nodes'| ensures nodes'[i].id != nodes'[j].id {
      SameMembers(nodes, nodes', nodes'[i]);
      SameMembers(nodes, nodes', nodes'[j]);
      if nodes'[i].id == nodes'[j].id {
        SameIdSameNode(nodes, nodes'[i], nodes'[j]);
      }
    }
  }

  lemma SameIdSameNode(nodes: seq<Node>, n: Node, m: Node)
    requires DistinctIds(nodes) && n in nodes && m in nodes && n.id == m.id
    ensures n == m
  {
    var i :| 0 <= i < |nodes| && nodes[i] == n;
    var j :| 0 <= j < |nodes| && nodes[j] == m;
  }

  lemma {:induction false} FilterDistinct(p: Node -> bool, nodes: seq<Node>)
    requires DistinctIds(nodes)
    ensures DistinctIds(Filter(p, nodes))
  {
    if nodes != [] {
      FilterDistinct(p, nodes[1..]);
      var rest := Filter(p, nodes[1..]);
      forall i | 0 <= i < |rest| ensures rest[i].id != nodes[0].id {
        FilterMembers(p, nodes[1..], rest[i]);
      }
    }
  }

  lemma ColumnMember(columns: map<nat, seq<Node>>, nodes: seq<Node>, r: nat, n: Node)
    requires Holds(columns, nodes) && r in columns && n in columns[r]
    ensures n in nodes && Rank(n.kind) == r
  {
    assert ColumnHolds(columns, r, nodes);
    SameMembers(columns[r], Filter(OfRank(r), nodes), n);
    FilterMembers(OfRank(r), nodes, n);
  }

  lemma HoldsDistinct(columns: map<nat, seq<Node>>, nodes: seq<Node>)
    requires Holds(columns, nodes) && DistinctIds(nodes)
    ensures DistinctColumns(columns)
  {
    forall r | r in columns ensures DistinctIds(columns[r]) {
      assert ColumnHolds(columns, r, nodes);
      FilterDistinct(OfRank(r), nodes);
      DistinctPermutes(Filter(OfRank(r), nodes), columns[r]);
    }
    forall r, q, n, m | r in columns && q in columns && n in columns[r] && m in columns[q] && n.id == m.id
      ensures r == q
    {
      ColumnMember(columns, nodes, r, n);
      ColumnMember(columns, nodes, q, m);
      SameIdSameNode(nodes, n, m);
    }
  }

  lemma {:induction false} WrittenRows(rowOf: map<Id, nat>, column: seq<Node>)
    requires DistinctIds(column)
    ensures RowsMatch(WriteRows(rowOf, column), column)
    ensures forall id :: id !in IdSet(column) && id in rowOf ==>
              id in WriteRows(rowOf, column) && WriteRows(rowOf, column)[id] == rowOf[id]
  {
    if column != [] {
      var front, last := column[..|column| - 1], column[|column| - 1];
      WrittenRows(rowOf, front);
      assert column == front + [last];
      assert IdSet(front) <= IdSet(column);
      forall i | 0 <= i < |column|
        ensures column[i].id in WriteRows(rowOf, column) && WriteRows(rowOf, column)[column[i].id] == i
      {
        if i < |front| {
          assert front[i] == column[i];
        }
      }
    }
  }

  lemma WritingKeepsOthers(rowOf: map<Id, nat>, column: seq<Node>, other: seq<Node>)
    requires DistinctIds(column) && RowsMatch(rowOf, other)
    requires forall n, m :: n in column && m in other ==> n.id != m.id
    ensures RowsMatch(WriteRows(rowOf, column), other)
  {
    WrittenRows(rowOf, column);
    forall i | 0 <= i < |other| ensures other[i].id !in IdSet(column) {
    }
  }

  lemma {:induction false} InitialRowsMatch(columns: map<nat, seq<Node>>, ranks: seq<nat>)
    requires DistinctColumns(columns) && forall r :: r in ranks ==> r in columns
    ensures forall r :: r in ranks ==> RowsMatch(WriteAllRows(columns, ranks), columns[r])
  {
    if ranks != [] {
      var front, last := ranks[..|ranks| - 1], ranks[|ranks| - 1];
      assert ranks == front + [last];
      InitialRowsMatch(columns, front);
      var before := WriteAllRows(columns, front);
      WrittenRows(before, columns[last]);
      forall r | r in ranks ensures RowsMatch(WriteAllRows(columns, ranks), columns[r]) {
        if r != last {
          assert r in front;
          WritingKeepsOthers(before, columns[last], columns[r]);
        }
      }
    }
  }

  lemma ReorderRowsMatch(board: Board, edges: seq<Edge>, rank: nat)
    requires rank in board.columns && DistinctColumns(board.columns) && AllRowsMatch(board)
    ensures AllRowsMatch(Reorder(board, edges, rank))
  {
    var after := Reorder(board, edges, rank);
    var column := SortedColumn(board.rowOf, edges, board.columns[rank]);
    DistinctPermutes(board.columns[rank], column);
    WrittenRows(board.rowOf, column);
    forall r | r in after.columns ensures RowsMatch(after.rowOf, after.columns[r]) {
      if r != rank {
        forall n, m | n in column && m in board.columns[r] ensures n.id != m.id {
          SameMembers(column, board.columns[rank], n);
        }
        WritingKeepsOthers(board.rowOf, column, board.columns[r]);
      }
    }
  }

  lemma {:induction false} SweepRowsMatch(board: Board, edges: seq<Edge>, ranks: seq<nat>, nodes: seq<Node>)
    requires forall k :: k in ranks ==> k in board.columns
    requires Holds(board.columns, nodes) && DistinctIds(nodes) && AllRowsMatch(board)
    ensures AllRowsMatch(Sweep(board, edges, ranks))
  {
    if ranks != [] {
      var front := ranks[..|ranks| - 1];
      SweepRowsMatch(board, edges, front, nodes);
      var before := SweepHolds(board, edges, front, nodes);
      HoldsDistinct(before.columns, nodes);
      ReorderRowsMatch(before, edges, ranks[|ranks| - 1]);
    }
  }

  lemma SweepOnce(board: Board, edges: seq<Edge>, ranks: seq<nat>, nodes: seq<Node>) returns (after: Board)
    requires (forall k :: k in ranks ==> k in board.columns) && DistinctIds(nodes)
    requires Holds(board.columns, nodes) && AllRowsMatch(board)
    ensures after == Sweep(board, edges, ranks) && after.columns.Keys == board.columns.Keys
    ensures Holds(after.columns, nodes) && AllRowsMatch(after)
  {
    after := SweepHolds(board, edges, ranks, nodes);
    SweepRowsMatch(board, edges, ranks, nodes);
  }

  lemma {:induction false} PassesRowsMatch(board: Board, edges: seq<Edge>, ranks: seq<nat>, count: nat,
                                           nodes: seq<Node>)
    returns (after: Board)
    requires (forall k :: k in ranks ==> k in board.columns) && DistinctIds(nodes)
    requires Holds(board.columns, nodes) && AllRowsMatch(board)
    ensures after == Passes(board, edges, ranks, count) && after.columns.Keys == board.columns.Keys
    ensures Holds(after.columns, nodes) && AllRowsMatch(after)
  {
    after := board;
    if count > 0 {
      after := PassesRowsMatch(board, edges, ranks, count - 1, nodes);
      after := SweepOnce(after, edges, ranks, nodes);
    }
  }

  /** After any number of passes the row map and the columns are inverse to each other:
      within each column, rows are a bijection onto 0..n-1. */
  lemma RowsAreBijective(nodes: seq<Node>, edges: seq<Edge>, passes: nat)
    requires DistinctIds(nodes)
    ensures AllRowsMatch(BoardAfter(nodes, edges, passes))
  {
    var start := InitialBoard(nodes);
    var sorted := SortBy(ById(), nodes);
    InitialHolds(nodes);
    HoldsDistinct(start.columns, nodes);
    InitialRowsMatch(start.columns, RanksSeen(sorted));
    forall k: nat | k in Ranks(nodes) ensures k in start.columns { RanksAreKeys(start.columns, nodes, k); }
    var after := PassesRowsMatch(start, Drawable(nodes, edges), Ranks(nodes), passes, nodes);
  }

  // ----- Every node is drawn, once

  ghost predicate Increasing(ranks: seq<nat>) {
    forall i, j :: 0 <= i < j < |ranks| ==> ranks[i] < ranks[j]
  }

  lemma {:induction false} RanksSeenDistinct(nodes: seq<Node>)
    ensures Injective(RanksSeen(nodes))
  {
    if nodes != [] {
      RanksSeenDistinct(nodes[..|nodes| - 1]);
    }
  }

  lemma SortedDistinctIncrease(seen: seq<nat>)
    requires Injective(seen)
    ensures Increasing(SortBy(Ascending(), seen))
  {
    var ranks := SortBy(Ascending(), seen);
    SortBySorted(Ascending(), seen);
    InjectivePermutes(seen, ranks);
    forall i, j | 0 <= i < j < |ranks| ensures ranks[i] < ranks[j] {
      assert Ascending()(ranks[i], ranks[j]);
    }
  }

  lemma RanksIncrease(nodes: seq<Node>)
    ensures Increasing(Ranks(nodes))
  {
    RanksSeenDistinct(SortBy(ById(), nodes));
    SortedDistinctIncrease(RanksSeen(SortBy(ById(), nodes)));
  }

  function NodeOf(b: Box): Node {
    Node(b.id, b.kind, b.title)
  }

  function DrawnNodes(boxes: seq<Box>): (r: seq<Node>)
    ensures |r| == |boxes|
  {
    seq(|boxes|, i requires 0 <= i < |boxes| => NodeOf(boxes[i]))
  }

  lemma {:induction false} DrawnCount(board: Board, ranks: seq<nat>, nodes: seq<Node>, n: Node)
    requires Holds(board.columns, nodes) && Increasing(ranks) && forall k :: k in ranks ==> k in board.columns
    ensures multiset(DrawnNodes(Boxes(board, ranks)))[n] == if Rank(n.kind) in ranks then multiset(nodes)[n] else 0
  {
    if ranks != [] {
      var front, last := ranks[..|ranks| - 1], ranks[|ranks| - 1];
      assert ranks == front + [last];
      DrawnCount(board, front, nodes, n);
      var column := board.columns[last];
      assert DrawnNodes(Boxes(board, ranks)) == DrawnNodes(Boxes(board, front)) + column;
      assert ColumnHolds(board.columns, last, nodes);
      FilterCount(OfRank(last), nodes, n);
    }
  }

  /** The boxes carry exactly the nodes given: none lost, none drawn twice. */
  lemma EveryNodeDrawnOnce(nodes: seq<Node>, edges: seq<Edge>, passes: nat)
    ensures multiset(DrawnNodes(LayoutOf(nodes, edges, passes).nodes)) == multiset(nodes)
  {
    if nodes != [] {
      var board := BoardAfter(nodes, edges, passes);
      RanksIncrease(nodes);
      forall n ensures multiset(DrawnNodes(Boxes(board, Ranks(nodes))))[n] == multiset(nodes)[n] {
        DrawnCount(board, Ranks(nodes), nodes, n);
        if n in nodes {
          HoldsNode(board.columns, nodes, n);
        }
      }
    }
  }

  // ----- Boxes

  /** No common interior point. */
  ghost predicate Apart(b: Box, c: Box) {
    || b.x + NODE_WIDTH <= c.x || c.x + NODE_WIDTH <= b.x
    || b.y + NODE_HEIGHT <= c.y || c.y + NODE_HEIGHT <= b.y
  }

  lemma BoxInColumn(board: Board, ranks: seq<nat>, nodes: seq<Node>, b: Box) returns (k: nat)
    requires Settled(board, ranks, nodes) && b in Boxes(board, ranks)
    ensures k < |ranks| && b.x == k * COLUMN_WIDTH && ranks[k] == Rank(b.kind)
  {
    var i :| 0 <= i < |Boxes(board, ranks)| && Boxes(board, ranks)[i] == b;
    k := BoxAtIndex(board, ranks, nodes, i);
  }

  lemma {:induction false} BoxAtIndex(board: Board, ranks: seq<nat>, nodes: seq<Node>, i: nat) returns (k: nat)
    requires Holds(board.columns, nodes) && forall k :: k in ranks ==> k in board.columns
    requires i < |Boxes(board, ranks)|
    ensures var b := Boxes(board, ranks)[i];
            k < |ranks| && b.x == k * COLUMN_WIDTH && ranks[k] == Rank(b.kind)
  {
    var last := |ranks| - 1;
    var front := Boxes(board, ranks[..last]);
    if i < |front| {
      k := BoxAtIndex(board, ranks[..last], nodes, i);
    } else {
      k := last;
      ColumnMember(board.columns, nodes, ranks[last], board.columns[ranks[last]][i - |front|]);
    }
  }

  lemma {:induction false} BoxesApartIn(board: Board, ranks: seq<nat>, nodes: seq<Node>, i: nat, j: nat)
    requires Holds(board.columns, nodes) && AllRowsMatch(board) && forall k :: k in ranks ==> k in board.columns
    requires i < j < |Boxes(board, ranks)|
    ensures Apart(Boxes(board, ranks)[i], Boxes(board, ranks)[j])
  {
    var last := |ranks| - 1;
    var front := Boxes(board, ranks[..last]);
    if j < |front| {
      BoxesApartIn(board, ranks[..last], nodes, i, j);
    } else if i < |front| {
      var k := BoxAtIndex(board, ranks[..last], nodes, i);
    } else {
      assert RowsMatch(board.rowOf, board.columns[ranks[last]]);
    }
  }

  lemma BoxesNeverCollide(nodes: seq<Node>, edges: seq<Edge>, passes: nat)
    requires DistinctIds(nodes)
    ensures var boxes := LayoutOf(nodes, edges, passes).nodes;
            forall i, j :: 0 <= i < j < |boxes| ==> Apart(boxes[i], boxes[j])
  {
    if nodes != [] {
      var board := BoardAfter(nodes, edges, passes);
      RowsAreBijective(nodes, edges, passes);
      forall i, j | 0 <= i < j < |Boxes(board, Ranks(nodes))|
        ensures Apart(Boxes(board, Ranks(nodes))[i], Boxes(board, Ranks(nodes))[j])
      {
        BoxesApartIn(board, Ranks(nodes), nodes, i, j);
      }
    }
  }

  /** Two boxes share a column or are a full column width apart. */
  ghost predicate Gridded(b: Box, c: Box) {
    b.x == c.x || b.x + COLUMN_WIDTH <= c.x || c.x + COLUMN_WIDTH <= b.x
  }

  lemma ColumnKinds(board: Board, ranks: seq<nat>, nodes: seq<Node>, b: Box, c: Box)
    requires Settled(board, ranks, nodes) && Increasing(ranks)
    requires b in Boxes(board, ranks) && c in Boxes(board, ranks)
    ensures b.x == c.x <==> b.kind == c.kind
    ensures Gridded(b, c)
  {
    var k := BoxInColumn(board, ranks, nodes, b);
    var m := BoxInColumn(board, ranks, nodes, c);
    assert b.x == 296 * k && c.x == 296 * m;
    if k < m {
      assert ranks[k] < ranks[m];
    } else if m < k {
      assert ranks[m] < ranks[k];
    }
  }

  /** Columns are the kinds: two boxes share an x exactly when they share a kind. */
  lemma SameColumnSameKind(nodes: seq<Node>, edges: seq<Edge>, passes: nat, b: Box, c: Box)
    requires b in LayoutOf(nodes, edges, passes).nodes && c in LayoutOf(nodes, edges, passes).nodes
    ensures b.x == c.x <==> b.kind == c.kind
    ensures Gridded(b, c)
  {
    RanksIncrease(nodes);
    ColumnKinds(BoardAfter(nodes, edges, passes), Ranks(nodes), nodes, b, c);
  }

  // ----- Edges

  /** The point a fraction `t` of the way along the segment lies strictly inside the box. */
  ghost predicate InsideAt(s: Segment, t: real, b: Box) {
    var x := s.x1 as real + t * (s.x2 - s.x1) as real;
    var y := s.y1 as real + t * (s.y2 - s.y1) as real;
    && b.x as real < x < (b.x + NODE_WIDTH) as real
    && b.y as real < y < (b.y + NODE_HEIGHT) as real
  }

  ghost predicate Crosses(s: Segment, b: Box) {
    exists t: real :: 0.0 <= t <= 1.0 && InsideAt(s, t, b)
  }

  lemma Between(p: real, q: real, t: real, x: real)
    requires 0.0 <= t <= 1.0 && x == p + t * (q - p)
    ensures p <= x <= q || q <= x <= p
  {
    if p <= q {
      Product(t, q - p);
      Product(1.0 - t, q - p);
    } else {
      Product(t, p - q);
      Product(1.0 - t, p - q);
    }
  }

  lemma Product(a: real, b: real)
    requires a >= 0.0 && b >= 0.0
    ensures a * b >= 0.0
  {
  }

  lemma ScaledDifference(t: real, p: int, q: int) returns (move: real)
    ensures move == t * (q - p) as real
    ensures move == t * (q as real - p as real)
  {
    assert (q - p) as real == q as real - p as real;
    move := t * (q - p) as real;
  }

  lemma PointOf(s: Segment, t: real, b: Box) returns (x: real)
    requires InsideAt(s, t, b)
    ensures x == (s.x1 as real) + t * ((s.x2 as real) - (s.x1 as real))
    ensures b.x as real < x < (b.x + NODE_WIDTH) as real
  {
    var move := ScaledDifference(t, s.x1, s.x2);
    x := (s.x1 as real) + move;
  }

  /** Ends on one side of a box keep the whole segment on that side. */
  lemma CrossColumnMisses(e: Edge, from: Box, to: Box, b: Box)
    requires Gridded(from, to) && Gridded(from, b) && Gridded(to, b) && from.x != to.x
    requires (b.x <= from.x && b.x <= to.x) || (b.x >= from.x && b.x >= to.x)
    ensures !Crosses(SegmentBetween(e, from, to), b)
  {
    var s := SegmentBetween(e, from, to);
    assert (s.x1 <= b.x && s.x2 <= b.x) || (s.x1 >= b.x + NODE_WIDTH && s.x2 >= b.x + NODE_WIDTH);
    if t: real :| 0.0 <= t <= 1.0 && InsideAt(s, t, b) {
      var x := PointOf(s, t, b);
      Between(s.x1 as real, s.x2 as real, t, x);
    }
  }

  lemma SmallStep(dy: real) returns (t: real)
    ensures 0.0 < t < 1.0 && -17.0 < t * dy < 17.0
  {
    var size := if dy < 0.0 then -dy else dy;
    t := 17.0 / (2.0 * (size + 17.0));
    assert t * (2.0 * (size + 17.0)) == 17.0;
    assert t * size + t * size + t * 34.0 == 17.0;
    assert t > 0.0;
    assert t * size >= 0.0;
    assert t * dy == (if dy < 0.0 then -(t * size) else t * size);
  }

  lemma SameColumnCrosses(e: Edge, from: Box, to: Box)
    requires from.x == to.x
    ensures Crosses(SegmentBetween(e, from, to), from)
  {
    var s := SegmentBetween(e, from, to);
    var t := SmallStep((s.y2 - s.y1) as real);
    assert InsideAt(s, t, from);
  }

  /** The program says an edge is never drawn through a label it connects. That holds exactly
      when its ends are of different kinds: inside one column the segment runs back through its own box. */
  lemma EdgeMissesItsLabels(nodes: seq<Node>, edges: seq<Edge>, passes: nat, i: nat)
    returns (from: Box, to: Box)
    requires i < |LayoutOf(nodes, edges, passes).edges|
    ensures var l := LayoutOf(nodes, edges, passes);
            && from in l.nodes && to in l.nodes
            && from.id == l.edges[i].src && to.id == l.edges[i].dst
            && (!Crosses(l.edges[i], from) && !Crosses(l.edges[i], to) <==> from.kind != to.kind)
  {
    var l := LayoutOf(nodes, edges, passes);
    var boxes := l.nodes;
    var e := Drawable(nodes, edges)[i];
    PositionsOf(boxes);
    DrawableEndsPlaced(BoardAfter(nodes, edges, passes), Ranks(nodes), nodes, edges);
    assert e in Drawable(nodes, edges);
    from, to := Positions(boxes)[e.src], Positions(boxes)[e.dst];
    SameColumnSameKind(nodes, edges, passes, from, to);
    if from.x != to.x {
      CrossColumnMisses(e, from, to, from);
      CrossColumnMisses(e, from, to, to);
    } else {
      SameColumnCrosses(e, from, to);
    }
  }

  lemma BoxIsOfNode(nodes: seq<Node>, edges: seq<Edge>, passes: nat, b: Box)
    requires b in LayoutOf(nodes, edges, passes).nodes
    ensures exists n :: n in nodes && n.id == b.id && n.kind == b.kind
  {
    var drawn := DrawnNodes(LayoutOf(nodes, edges, passes).nodes);
    EveryNodeDrawnOnce(nodes, edges, passes);
    var i :| 0 <= i < |drawn| && LayoutOf(nodes, edges, passes).nodes[i] == b;
    SameMembers(drawn, nodes, drawn[i]);
  }

  lemma EdgeKeepsEnds(nodes: seq<Node>, e: Edge, passes: nat)
    requires e.src in IdSet(nodes) && e.dst in IdSet(nodes)
    ensures var l := LayoutOf(nodes, [e], passes);
            |l.edges| == 1 && l.edges[0].src == e.src && l.edges[0].dst == e.dst
  {
    assert Drawable(nodes, [e]) == [e];
  }

  /** So an edge in a graph of one kind, two nodes being enough, breaks the promise. */
  lemma SameKindEdgeCrosses(nodes: seq<Node>, e: Edge, passes: nat, kind: Kind) returns (from: Box, to: Box)
    requires e.src in IdSet(nodes) && e.dst in IdSet(nodes) && forall n :: n in nodes ==> n.kind == kind
    ensures var l := LayoutOf(nodes, [e], passes);
            && |l.edges| == 1 && from in l.nodes && to in l.nodes && from.id == e.src && to.id == e.dst
            && (Crosses(l.edges[0], from) || Crosses(l.edges[0], to))
  {
    EdgeKeepsEnds(nodes, e, passes);
    from, to := EdgeMissesItsLabels(nodes, [e], passes, 0);
    BoxIsOfNode(nodes, [e], passes, from);
    BoxIsOfNode(nodes, [e], passes, to);
  }

  /** An edge between neighbouring columns stays in the gutter and touches no box at all. */
  lemma GutterEdgesTouchNothing(nodes: seq<Node>, edges: seq<Edge>, passes: nat, e: Edge, from: Box, to: Box, b: Box)
    requires var boxes := LayoutOf(nodes, edges, passes).nodes; from in boxes && to in boxes && b in boxes
    requires from.x - to.x == COLUMN_WIDTH || to.x - from.x == COLUMN_WIDTH
    ensures !Crosses(SegmentBetween(e, from, to), b)
  {
    SameColumnSameKind(nodes, edges, passes, from, to);
    SameColumnSameKind(nodes, edges, passes, from, b);
    SameColumnSameKind(nodes, edges, passes, to, b);
    CrossColumnMisses(e, from, to, b);
  }
}
