/** The layered trace-graph layout (`layoutGraph`): one column per node kind, rows
    ordered by four barycentre passes, boxes and edges placed on a fixed grid. */
module GraphLayout {
  import opened Sequences

  /** A node id, by its place in collation order. */
  type Id = int

  datatype Kind = Br | Sr | Task | Plan | Spec
  datatype Node = Node(id: Id, kind: Kind, title: string)
  datatype Edge = Edge(src: Id, dst: Id)
  datatype Box = Box(id: Id, kind: Kind, title: string, x: int, y: int)
  datatype Segment = Segment(src: Id, dst: Id, x1: int, y1: int, x2: int, y2: int)
  datatype Column = Column(kind: Kind, x: int)
  datatype Layout = Layout(nodes: seq<Box>, edges: seq<Segment>, columns: seq<Column>, width: int, height: int)

  /** The state the passes work on: the nodes of each rank, top to bottom, and the row of each id. */
  datatype Board = Board(columns: map<nat, seq<Node>>, rowOf: map<Id, nat>)

  const NODE_WIDTH := 200
  const NODE_HEIGHT := 34
  const COLUMN_WIDTH := NODE_WIDTH + 96
  const ROW_HEIGHT := NODE_HEIGHT + 12
  const HEADER_HEIGHT := 28
  const BARYCENTRE_PASSES := 4

  function Rank(kind: Kind): nat {
    match kind
    case Br => 0
    case Sr => 1
    case Task => 2
    case Plan => 3
    case Spec => 4
  }

  function Get<V>(m: map<Id, V>, id: Id, default: V): V {
    if id in m then m[id] else default
  }

  // ----- Columns and rows

  function ById(): (Node, Node) -> bool {
    (a: Node, b: Node) => a.id <= b.id
  }

  function OfRank(rank: nat): Node -> bool {
    (n: Node) => Rank(n.kind) == rank
  }

  function IdSet(nodes: seq<Node>): set<Id> {
    set n | n in nodes :: n.id
  }

  /** The ranks that occur, in order of first appearance: the key order of a JavaScript `Map`. */
  function RanksSeen(nodes: seq<Node>): (r: seq<nat>) {
    if nodes == [] then []
    else
      var seen := RanksSeen(nodes[..|nodes| - 1]);
      var rank := Rank(nodes[|nodes| - 1].kind);
      if rank in seen then seen else seen + [rank]
  }

  function ColumnsOf(nodes: seq<Node>): map<nat, seq<Node>> {
    map rank | rank in RanksSeen(nodes) :: Filter(OfRank(rank), nodes)
  }

  function WriteRows(rowOf: map<Id, nat>, column: seq<Node>): map<Id, nat> {
    if column == [] then rowOf
    else
      var last := |column| - 1;
      WriteRows(rowOf, column[..last])[column[last].id := last]
  }

  function WriteAllRows(columns: map<nat, seq<Node>>, ranks: seq<nat>): map<Id, nat>
    requires forall r :: r in ranks ==> r in columns
  {
    if ranks == [] then map[]
    else
      var last := |ranks| - 1;
      WriteRows(WriteAllRows(columns, ranks[..last]), columns[ranks[last]])
  }

  lemma RanksSeenAre(nodes: seq<Node>)
    ensures forall rank :: rank in RanksSeen(nodes) <==> exists n :: n in nodes && Rank(n.kind) == rank
    ensures forall rank :: rank in RanksSeen(nodes) ==> rank < 5
  {
    if nodes != [] {
      var front, last := nodes[..|nodes| - 1], nodes[|nodes| - 1];
      RanksSeenAre(front);
      assert nodes == front + [last];
      forall rank | rank in RanksSeen(nodes) ensures exists n :: n in nodes && Rank(n.kind) == rank {
        if rank in RanksSeen(front) {
          var n :| n in front && Rank(n.kind) == rank;
          assert n in nodes;
        } else {
          assert last in nodes && Rank(last.kind) == rank;
        }
      }
    }
  }

  function InitialBoard(nodes: seq<Node>): Board {
    var sorted := SortBy(ById(), nodes);
    Board(ColumnsOf(sorted), WriteAllRows(ColumnsOf(sorted), RanksSeen(sorted)))
  }

  function Ascending(): (nat, nat) -> bool {
    (a: nat, b: nat) => a <= b
  }

  /** The keys of the column map, ascending. */
  function Ranks(nodes: seq<Node>): seq<nat> {
    SortBy(Ascending(), RanksSeen(SortBy(ById(), nodes)))
  }

  // ----- Barycentres

  function DrawableBetween(present: set<Id>): Edge -> bool {
    (e: Edge) => e.src in present && e.dst in present
  }

  function Drawable(nodes: seq<Node>, edges: seq<Edge>): seq<Edge> {
    Filter(DrawableBetween(IdSet(nodes)), edges)
  }

  function EndsAt(id: Id): Edge -> seq<Id> {
    (e: Edge) => (if e.src == id then [e.dst] else []) + (if e.dst == id then [e.src] else [])
  }

  function Neighbours(edges: seq<Edge>, id: Id): seq<Id> {
    FlatMap(EndsAt(id), edges)
  }

  function RowIn(rowOf: map<Id, nat>): Id -> seq<nat> {
    (id: Id) => if id in rowOf then [rowOf[id]] else []
  }

  function KnownRows(rowOf: map<Id, nat>, ids: seq<Id>): seq<nat> {
    FlatMap(RowIn(rowOf), ids)
  }

  function Sum(rows: seq<nat>): nat {
    if rows == [] then 0 else Sum(rows[..|rows| - 1]) + rows[|rows| - 1]
  }

  function Mean(rows: seq<nat>, own: nat): real {
    if |rows| > 0 then Sum(rows) as real / |rows| as real else own as real
  }

  function Barycentres(rowOf: map<Id, nat>, edges: seq<Edge>, column: seq<Node>): map<Id, real> {
    map id | id in IdSet(column) :: Mean(KnownRows(rowOf, Neighbours(edges, id)), Get(rowOf, id, 0))
  }

  /** Barycentre first, id as the final tiebreak. */
  function ByBarycentre(means: map<Id, real>): (Node, Node) -> bool {
    (a: Node, b: Node) =>
      var (m, n) := (Get(means, a.id, 0.0), Get(means, b.id, 0.0));
      m < n || (m == n && a.id <= b.id)
  }

  function SortedColumn(rowOf: map<Id, nat>, edges: seq<Edge>, column: seq<Node>): (r: seq<Node>)
    ensures multiset(r) == multiset(column)
  {
    SortBy(ByBarycentre(Barycentres(rowOf, edges, column)), column)
  }

  function Reorder(board: Board, edges: seq<Edge>, rank: nat): Board
    requires rank in board.columns
  {
    var column := SortedColumn(board.rowOf, edges, board.columns[rank]);
    Board(board.columns[rank := column], WriteRows(board.rowOf, column))
  }

  function Sweep(board: Board, edges: seq<Edge>, ranks: seq<nat>): (r: Board)
    requires forall k :: k in ranks ==> k in board.columns
    ensures r.columns.Keys == board.columns.Keys
  {
    if ranks == [] then board
    else
      var last := |ranks| - 1;
      Reorder(Sweep(board, edges, ranks[..last]), edges, ranks[last])
  }

  /** Each pass re-sorts every column once, left to right, each seeing the rows just written. */
  function Passes(board: Board, edges: seq<Edge>, ranks: seq<nat>, count: nat): (r: Board)
    requires forall k :: k in ranks ==> k in board.columns
    ensures r.columns.Keys == board.columns.Keys
  {
    if count == 0 then board else Sweep(Passes(board, edges, ranks, count - 1), edges, ranks)
  }

  // ----- Geometry

  function BoxAt(board: Board, n: Node, x: int): Box {
    Box(n.id, n.kind, n.title, x, HEADER_HEIGHT + Get(board.rowOf, n.id, 0) * ROW_HEIGHT)
  }

  function ColumnBoxes(board: Board, column: seq<Node>, x: int): (r: seq<Box>)
    ensures |r| == |column|
    ensures forall i :: 0 <= i < |column| ==> r[i] == BoxAt(board, column[i], x)
  {
    if column == [] then []
    else ColumnBoxes(board, column[..|column| - 1], x) + [BoxAt(board, column[|column| - 1], x)]
  }

  /** Ranks are packed left to right over the columns that exist. */
  function Boxes(board: Board, ranks: seq<nat>): seq<Box>
    requires forall k :: k in ranks ==> k in board.columns
  {
    if ranks == [] then []
    else
      var last := |ranks| - 1;
      Boxes(board, ranks[..last]) + ColumnBoxes(board, board.columns[ranks[last]], last * COLUMN_WIDTH)
  }

  function Positions(boxes: seq<Box>): map<Id, Box> {
    if boxes == [] then map[]
    else Positions(boxes[..|boxes| - 1])[boxes[|boxes| - 1].id := boxes[|boxes| - 1]]
  }

  function SegmentBetween(e: Edge, from: Box, to: Box): Segment {
    var fromIsLeft := from.x <= to.x;
    Segment(e.src, e.dst,
            if fromIsLeft then from.x + NODE_WIDTH else from.x, from.y + NODE_HEIGHT / 2,
            if fromIsLeft then to.x else to.x + NODE_WIDTH, to.y + NODE_HEIGHT / 2)
  }

  function Segments(edges: seq<Edge>, positions: map<Id, Box>): (r: seq<Segment>)
    requires forall e :: e in edges ==> e.src in positions && e.dst in positions
    ensures |r| == |edges|
    ensures forall i :: 0 <= i < |edges| ==>
              r[i] == SegmentBetween(edges[i], positions[edges[i].src], positions[edges[i].dst])
  {
    if edges == [] then []
    else
      var e := edges[|edges| - 1];
      Segments(edges[..|edges| - 1], positions) + [SegmentBetween(e, positions[e.src], positions[e.dst])]
  }

  function ColumnHeads(board: Board, ranks: seq<nat>): seq<Column>
    requires forall k :: k in ranks ==> k in board.columns && board.columns[k] != []
  {
    if ranks == [] then []
    else
      var last := |ranks| - 1;
      ColumnHeads(board, ranks[..last]) + [Column(board.columns[ranks[last]][0].kind, last * COLUMN_WIDTH)]
  }

  function MaxOf(values: seq<int>): (r: int)
    requires values != []
    ensures r in values && forall v :: v in values ==> v <= r
  {
    if |values| == 1 then values[0]
    else
      var front, last := MaxOf(values[..|values| - 1]), values[|values| - 1];
      assert values == values[..|values| - 1] + [last];
      if last > front then last else front
  }

  function RightEdges(boxes: seq<Box>): seq<int> {
    seq(|boxes|, i requires 0 <= i < |boxes| => boxes[i].x + NODE_WIDTH)
  }

  function BottomEdges(boxes: seq<Box>): seq<int> {
    seq(|boxes|, i requires 0 <= i < |boxes| => boxes[i].y + NODE_HEIGHT)
  }

  // ----- The whole layout

  ghost predicate ColumnHolds(columns: map<nat, seq<Node>>, rank: nat, nodes: seq<Node>) {
    if rank in columns then
      rank < 5 && columns[rank] != [] && multiset(columns[rank]) == multiset(Filter(OfRank(rank), nodes))
    else
      Filter(OfRank(rank), nodes) == []
  }

  /** The columns hold exactly the given nodes, each in the column of its kind. */
  ghost predicate Holds(columns: map<nat, seq<Node>>, nodes: seq<Node>) {
    forall rank :: ColumnHolds(columns, rank, nodes)
  }

  lemma InitialHolds(nodes: seq<Node>)
    ensures Holds(InitialBoard(nodes).columns, nodes)
  {
    var sorted := SortBy(ById(), nodes);
    var columns := ColumnsOf(sorted);
    RanksSeenAre(sorted);
    forall rank ensures ColumnHolds(columns, rank, nodes) {
      var kept := Filter(OfRank(rank), sorted);
      FilterPermutes(OfRank(rank), sorted, nodes);
      if rank in columns {
        var n :| n in sorted && Rank(n.kind) == rank;
        FilterMembers(OfRank(rank), sorted, n);
      } else if kept != [] {
        FilterMembers(OfRank(rank), sorted, kept[0]);
      }
      assert |multiset(kept)| == |multiset(Filter(OfRank(rank), nodes))|;
    }
  }

  lemma HoldsNode(columns: map<nat, seq<Node>>, nodes: seq<Node>, n: Node)
    requires Holds(columns, nodes) && n in nodes
    ensures Rank(n.kind) in columns && n in columns[Rank(n.kind)]
  {
    var rank := Rank(n.kind);
    assert ColumnHolds(columns, rank, nodes);
    FilterMembers(OfRank(rank), nodes, n);
    if rank in columns {
      SameMembers(columns[rank], Filter(OfRank(rank), nodes), n);
    }
  }

  lemma ReorderHolds(board: Board, edges: seq<Edge>, rank: nat, nodes: seq<Node>)
    requires rank in board.columns && Holds(board.columns, nodes)
    ensures Holds(Reorder(board, edges, rank).columns, nodes)
  {
    var column := SortedColumn(board.rowOf, edges, board.columns[rank]);
    assert |multiset(column)| == |multiset(board.columns[rank])|;
    forall r ensures ColumnHolds(Reorder(board, edges, rank).columns, r, nodes) {
      assert ColumnHolds(board.columns, r, nodes);
    }
  }

  lemma {:induction false} SweepHolds(board: Board, edges: seq<Edge>, ranks: seq<nat>, nodes: seq<Node>)
    returns (r: Board)
    requires (forall k :: k in ranks ==> k in board.columns) && Holds(board.columns, nodes)
    ensures r == Sweep(board, edges, ranks) && Holds(r.columns, nodes)
  {
    r := board;
    if ranks != [] {
      var last := |ranks| - 1;
      var before := SweepHolds(board, edges, ranks[..last], nodes);
      ReorderHolds(before, edges, ranks[last], nodes);
      r := Reorder(before, edges, ranks[last]);
    }
  }

  lemma {:induction false} PassesKeep(board: Board, edges: seq<Edge>, ranks: seq<nat>, count: nat, nodes: seq<Node>)
    returns (r: Board)
    requires (forall k :: k in ranks ==> k in board.columns) && Holds(board.columns, nodes)
    ensures r == Passes(board, edges, ranks, count) && Holds(r.columns, nodes)
  {
    r := board;
    if count > 0 {
      r := PassesKeep(board, edges, ranks, count - 1, nodes);
      r := SweepHolds(r, edges, ranks, nodes);
    }
  }

  lemma PassesHold(board: Board, edges: seq<Edge>, ranks: seq<nat>, count: nat, nodes: seq<Node>)
    requires (forall k :: k in ranks ==> k in board.columns) && Holds(board.columns, nodes)
    ensures Holds(Passes(board, edges, ranks, count).columns, nodes)
  {
    var r := PassesKeep(board, edges, ranks, count, nodes);
  }

  lemma RanksAreKeys(columns: map<nat, seq<Node>>, nodes: seq<Node>, rank: nat)
    requires Holds(columns, nodes)
    ensures rank in Ranks(nodes) <==> rank in columns
  {
    var sorted := SortBy(ById(), nodes);
    RanksSeenAre(sorted);
    SameMembers(Ranks(nodes), RanksSeen(sorted), rank);
    assert ColumnHolds(columns, rank, nodes);
    if rank in columns {
      var n := columns[rank][0];
      SameMembers(columns[rank], Filter(OfRank(rank), nodes), n);
      FilterMembers(OfRank(rank), nodes, n);
      SameMembers(sorted, nodes, n);
    }
    if rank in RanksSeen(sorted) {
      var n :| n in sorted && Rank(n.kind) == rank;
      SameMembers(sorted, nodes, n);
      HoldsNode(columns, nodes, n);
    }
  }

  /** The board after `passes` barycentre passes; the program makes four. */
  function BoardAfter(nodes: seq<Node>, edges: seq<Edge>, passes: nat): (r: Board)
    ensures Holds(r.columns, nodes)
    ensures forall k :: k in Ranks(nodes) <==> k in r.columns
  {
    var start := InitialBoard(nodes);
    InitialHolds(nodes);
    assert forall k :: k in Ranks(nodes) <==> k in start.columns by {
      forall k: nat ensures k in Ranks(nodes) <==> k in start.columns { RanksAreKeys(start.columns, nodes, k); }
    }
    PassesHold(start, Drawable(nodes, edges), Ranks(nodes), passes, nodes);
    Passes(start, Drawable(nodes, edges), Ranks(nodes), passes)
  }

  lemma {:induction false} PositionsOf(boxes: seq<Box>)
    ensures forall id :: id in Positions(boxes) <==> exists i :: 0 <= i < |boxes| && boxes[i].id == id
    ensures forall id :: id in Positions(boxes) ==> Positions(boxes)[id] in boxes && Positions(boxes)[id].id == id
  {
    if boxes != [] {
      var front, last := boxes[..|boxes| - 1], boxes[|boxes| - 1];
      PositionsOf(front);
      assert boxes == front + [last];
      forall id | id in Positions(boxes) ensures exists i :: 0 <= i < |boxes| && boxes[i].id == id {
        if id == last.id {
          assert boxes[|boxes| - 1].id == id;
        } else {
          assert id in Positions(front);
          var i :| 0 <= i < |front| && front[i].id == id;
          assert boxes[i].id == id;
        }
      }
    }
  }

  lemma {:induction false} BoxesCover(board: Board, ranks: seq<nat>, rank: nat, n: Node)
    requires forall k :: k in ranks ==> k in board.columns
    requires rank in ranks && n in board.columns[rank]
    ensures exists i :: 0 <= i < |Boxes(board, ranks)| && Boxes(board, ranks)[i].id == n.id
  {
    var last := |ranks| - 1;
    var front := Boxes(board, ranks[..last]);
    assert ranks == ranks[..last] + [ranks[last]];
    if rank in ranks[..last] {
      BoxesCover(board, ranks[..last], rank, n);
      var i :| 0 <= i < |front| && front[i].id == n.id;
      assert Boxes(board, ranks)[i].id == n.id;
    } else {
      var i :| 0 <= i < |board.columns[rank]| && board.columns[rank][i] == n;
      assert Boxes(board, ranks)[|front| + i].id == n.id;
    }
  }

  /** A board as `BoardAfter` leaves it, with the ascending list of its columns. */
  ghost predicate Settled(board: Board, ranks: seq<nat>, nodes: seq<Node>) {
    Holds(board.columns, nodes) && forall k :: k in ranks <==> k in board.columns
  }

  lemma NodePlaced(board: Board, ranks: seq<nat>, nodes: seq<Node>, n: Node)
    requires Settled(board, ranks, nodes) && n in nodes
    ensures n.id in Positions(Boxes(board, ranks))
  {
    HoldsNode(board.columns, nodes, n);
    BoxesCover(board, ranks, Rank(n.kind), n);
    PositionsOf(Boxes(board, ranks));
  }

  lemma DrawableEndsPlaced(board: Board, ranks: seq<nat>, nodes: seq<Node>, edges: seq<Edge>)
    requires Settled(board, ranks, nodes)
    ensures var positions := Positions(Boxes(board, ranks));
            forall e :: e in Drawable(nodes, edges) ==> e.src in positions && e.dst in positions
  {
    var positions := Positions(Boxes(board, ranks));
    forall e | e in Drawable(nodes, edges) ensures e.src in positions && e.dst in positions {
      FilterMembers(DrawableBetween(IdSet(nodes)), edges, e);
      var from, to :| from in nodes && from.id == e.src && to in nodes && to.id == e.dst;
      NodePlaced(board, ranks, nodes, from);
      NodePlaced(board, ranks, nodes, to);
    }
  }

  lemma ColumnsFilled(board: Board, ranks: seq<nat>, nodes: seq<Node>)
    requires Settled(board, ranks, nodes)
    ensures forall k :: k in ranks ==> k in board.columns && board.columns[k] != []
  {
    forall k | k in ranks ensures board.columns[k] != [] {
      assert ColumnHolds(board.columns, k, nodes);
    }
  }

  lemma SomeBox(board: Board, ranks: seq<nat>, nodes: seq<Node>)
    requires Settled(board, ranks, nodes) && nodes != []
    ensures Boxes(board, ranks) != []
  {
    NodePlaced(board, ranks, nodes, nodes[0]);
  }

  function Draw(board: Board, ranks: seq<nat>, nodes: seq<Node>, edges: seq<Edge>): Layout
    requires Settled(board, ranks, nodes) && nodes != []
  {
    var boxes := Boxes(board, ranks);
    SomeBox(board, ranks, nodes);
    ColumnsFilled(board, ranks, nodes);
    DrawableEndsPlaced(board, ranks, nodes, edges);
    Layout(boxes, Segments(Drawable(nodes, edges), Positions(boxes)), ColumnHeads(board, ranks),
           MaxOf(RightEdges(boxes)), MaxOf(BottomEdges(boxes)))
  }

  function LayoutOf(nodes: seq<Node>, edges: seq<Edge>, passes: nat): Layout {
    if nodes == [] then Layout([], [], [], 0, 0)
    else Draw(BoardAfter(nodes, edges, passes), Ranks(nodes), nodes, edges)
  }

  // ----- The program: maps updated in loops, columns re-sorted in place

  lemma RankGrows(nodes: seq<Node>, node: Node, r: nat)
    ensures Filter(OfRank(r), nodes + [node]) ==
            Filter(OfRank(r), nodes) + (if r == Rank(node.kind) then [node] else [])
    ensures r !in RanksSeen(nodes) ==> Filter(OfRank(r), nodes) == []
  {
    FilterSnoc(OfRank(r), nodes, node);
    RanksSeenAre(nodes);
    if Filter(OfRank(r), nodes) != [] {
      FilterMembers(OfRank(r), nodes, Filter(OfRank(r), nodes)[0]);
    }
  }

  lemma RanksGrow(nodes: seq<Node>, node: Node)
    ensures RanksSeen(nodes + [node]) == Noted(RanksSeen(nodes), Rank(node.kind))
  {
    assert (nodes + [node])[..|nodes|] == nodes;
  }

  function Noted(order: seq<nat>, rank: nat): seq<nat> {
    if rank in order then order else order + [rank]
  }

  function Appended(columns: map<nat, seq<Node>>, node: Node): map<nat, seq<Node>> {
    var rank := Rank(node.kind);
    columns[rank := (if rank in columns then columns[rank] else []) + [node]]
  }

  lemma ColumnsGrow(nodes: seq<Node>, node: Node)
    ensures ColumnsOf(nodes + [node]) == Appended(ColumnsOf(nodes), node)
  {
    var (left, right) := (ColumnsOf(nodes + [node]), Appended(ColumnsOf(nodes), node));
    RanksGrow(nodes, node);
    assert left.Keys == right.Keys;
    forall r | r in left.Keys ensures left[r] == right[r] {
      RankGrows(nodes, node, r);
    }
  }

  method DistributeNodes(sorted: seq<Node>) returns (columns: map<nat, seq<Node>>, order: seq<nat>)
    ensures columns == ColumnsOf(sorted) && order == RanksSeen(sorted)
  {
    columns, order := map[], [];
    for i := 0 to |sorted|
      invariant columns == ColumnsOf(sorted[..i]) && order == RanksSeen(sorted[..i])
    {
      ColumnsGrow(sorted[..i], sorted[i]);
      RanksGrow(sorted[..i], sorted[i]);
      assert sorted[..i + 1] == sorted[..i] + [sorted[i]];
      columns, order := Appended(columns, sorted[i]), Noted(order, Rank(sorted[i].kind));
    }
    assert sorted[..|sorted|] == sorted;
  }

  method NumberRows(rowOf: map<Id, nat>, column: seq<Node>) returns (r: map<Id, nat>)
    ensures r == WriteRows(rowOf, column)
  {
    r := rowOf;
    for i := 0 to |column|
      invariant r == WriteRows(rowOf, column[..i])
    {
      assert column[..i + 1][..i] == column[..i];
      r := r[column[i].id := i];
    }
    assert column[..|column|] == column;
  }

  method CollectNeighbours(drawable: seq<Edge>) returns (neighboursOf: map<Id, seq<Id>>)
    ensures forall id :: Get(neighboursOf, id, []) == Neighbours(drawable, id)
  {
    neighboursOf := map[];
    for i := 0 to |drawable|
      invariant forall id :: Get(neighboursOf, id, []) == Neighbours(drawable[..i], id)
    {
      var edge := drawable[i];
      forall id ensures Neighbours(drawable[..i + 1], id) == Neighbours(drawable[..i], id) + EndsAt(id)(edge) {
        FlatMapGrows(EndsAt(id), drawable, i);
      }
      neighboursOf := neighboursOf[edge.src := Get(neighboursOf, edge.src, []) + [edge.dst]];
      neighboursOf := neighboursOf[edge.dst := Get(neighboursOf, edge.dst, []) + [edge.src]];
    }
    assert drawable[..|drawable|] == drawable;
  }

  method MeanRow(rowOf: map<Id, nat>, ids: seq<Id>, own: nat) returns (mean: real)
    ensures mean == Mean(KnownRows(rowOf, ids), own)
  {
    var rows: seq<nat>, sum := [], 0;
    for i := 0 to |ids|
      invariant rows == KnownRows(rowOf, ids[..i]) && sum == Sum(rows)
    {
      FlatMapGrows(RowIn(rowOf), ids, i);
      if ids[i] in rowOf {
        assert (rows + [rowOf[ids[i]]])[..|rows|] == rows;
        rows, sum := rows + [rowOf[ids[i]]], sum + rowOf[ids[i]];
      }
    }
    assert ids[..|ids|] == ids;
    mean := if |rows| > 0 then sum as real / |rows| as real else own as real;
  }

  lemma BarycentresGrow(rowOf: map<Id, nat>, edges: seq<Edge>, column: seq<Node>, i: nat)
    requires i < |column|
    ensures var id := column[i].id;
            Barycentres(rowOf, edges, column[..i + 1]) ==
            Barycentres(rowOf, edges, column[..i])
              [id := Mean(KnownRows(rowOf, Neighbours(edges, id)), Get(rowOf, id, 0))]
  {
    assert IdSet(column[..i + 1]) == IdSet(column[..i]) + {column[i].id};
  }

  method ColumnMeans(rowOf: map<Id, nat>, neighboursOf: map<Id, seq<Id>>, ghost drawable: seq<Edge>, column: seq<Node>)
    returns (barycentre: map<Id, real>)
    requires forall id :: Get(neighboursOf, id, []) == Neighbours(drawable, id)
    ensures barycentre == Barycentres(rowOf, drawable, column)
  {
    barycentre := map[];
    for i := 0 to |column|
      invariant barycentre == Barycentres(rowOf, drawable, column[..i])
    {
      var id := column[i].id;
      var mean := MeanRow(rowOf, Get(neighboursOf, id, []), Get(rowOf, id, 0));
      BarycentresGrow(rowOf, drawable, column, i);
      barycentre := barycentre[id := mean];
    }
    assert column[..|column|] == column;
  }

  lemma SweepGrows(board: Board, edges: seq<Edge>, ranks: seq<nat>, i: nat)
    requires i < |ranks| && forall k :: k in ranks ==> k in board.columns
    ensures Sweep(board, edges, ranks[..i + 1]) == Reorder(Sweep(board, edges, ranks[..i]), edges, ranks[i])
  {
    assert ranks[..i + 1][..i] == ranks[..i];
  }

  method ReorderColumn(board: Board, neighboursOf: map<Id, seq<Id>>, ghost drawable: seq<Edge>, rank: nat)
    returns (r: Board)
    requires forall id :: Get(neighboursOf, id, []) == Neighbours(drawable, id)
    requires rank in board.columns
    ensures r == Reorder(board, drawable, rank)
  {
    var column := board.columns[rank];
    var barycentre := ColumnMeans(board.rowOf, neighboursOf, drawable, column);
    column := SortBy(ByBarycentre(barycentre), column);
    var rowOf := NumberRows(board.rowOf, column);
    r := Board(board.columns[rank := column], rowOf);
  }

  method SortColumns(board: Board, neighboursOf: map<Id, seq<Id>>, ghost drawable: seq<Edge>, ranks: seq<nat>)
    returns (r: Board)
    requires forall id :: Get(neighboursOf, id, []) == Neighbours(drawable, id)
    requires forall k :: k in ranks ==> k in board.columns
    ensures r == Sweep(board, drawable, ranks)
  {
    r := board;
    for i := 0 to |ranks|
      invariant r == Sweep(board, drawable, ranks[..i])
    {
      SweepGrows(board, drawable, ranks, i);
      r := ReorderColumn(r, neighboursOf, drawable, ranks[i]);
    }
    assert ranks[..|ranks|] == ranks;
  }

  method MakePasses(board: Board, drawable: seq<Edge>, ranks: seq<nat>, passes: nat) returns (r: Board)
    requires forall k :: k in ranks ==> k in board.columns
    ensures r == Passes(board, drawable, ranks, passes)
  {
    var neighboursOf := CollectNeighbours(drawable);
    r := board;
    for pass := 0 to passes
      invariant r == Passes(board, drawable, ranks, pass)
    {
      r := SortColumns(r, neighboursOf, drawable, ranks);
    }
  }

  method NumberAllRows(columns: map<nat, seq<Node>>, order: seq<nat>) returns (rowOf: map<Id, nat>)
    requires forall r :: r in order ==> r in columns
    ensures rowOf == WriteAllRows(columns, order)
  {
    rowOf := map[];
    for i := 0 to |order|
      invariant rowOf == WriteAllRows(columns, order[..i])
    {
      assert order[..i + 1][..i] == order[..i];
      rowOf := NumberRows(rowOf, columns[order[i]]);
    }
    assert order[..|order|] == order;
  }

  method PlaceNodes(nodes: seq<Node>) returns (board: Board, ranks: seq<nat>)
    ensures board == InitialBoard(nodes) && ranks == Ranks(nodes)
  {
    var columns, order := DistributeNodes(SortBy(ById(), nodes));
    var rowOf := NumberAllRows(columns, order);
    board, ranks := Board(columns, rowOf), SortBy(Ascending(), order);
  }

  method DrawColumn(board: Board, column: seq<Node>, x: int) returns (boxes: seq<Box>)
    ensures boxes == ColumnBoxes(board, column, x)
  {
    boxes := [];
    for i := 0 to |column|
      invariant boxes == ColumnBoxes(board, column[..i], x)
    {
      assert column[..i + 1][..i] == column[..i];
      boxes := boxes + [BoxAt(board, column[i], x)];
    }
    assert column[..|column|] == column;
  }

  method DrawBoxes(board: Board, ranks: seq<nat>) returns (boxes: seq<Box>, heads: seq<Column>)
    requires forall k :: k in ranks ==> k in board.columns && board.columns[k] != []
    ensures boxes == Boxes(board, ranks) && heads == ColumnHeads(board, ranks)
  {
    boxes, heads := [], [];
    for i := 0 to |ranks|
      invariant boxes == Boxes(board, ranks[..i]) && heads == ColumnHeads(board, ranks[..i])
    {
      assert ranks[..i + 1][..i] == ranks[..i];
      var column := board.columns[ranks[i]];
      var drawn := DrawColumn(board, column, i * COLUMN_WIDTH);
      boxes := boxes + drawn;
      heads := heads + [Column(column[0].kind, i * COLUMN_WIDTH)];
    }
    assert ranks[..|ranks|] == ranks;
  }

  method DrawSegments(boxes: seq<Box>, drawable: seq<Edge>) returns (segments: seq<Segment>)
    requires forall e :: e in drawable ==> e.src in Positions(boxes) && e.dst in Positions(boxes)
    ensures segments == Segments(drawable, Positions(boxes))
  {
    var positions := map[];
    for i := 0 to |boxes|
      invariant positions == Positions(boxes[..i])
    {
      assert boxes[..i + 1][..i] == boxes[..i];
      positions := positions[boxes[i].id := boxes[i]];
    }
    assert boxes[..|boxes|] == boxes;
    segments := [];
    for i := 0 to |drawable|
      invariant segments == Segments(drawable[..i], positions)
    {
      assert drawable[..i + 1][..i] == drawable[..i];
      segments := segments + [SegmentBetween(drawable[i], positions[drawable[i].src], positions[drawable[i].dst])];
    }
    assert drawable[..|drawable|] == drawable;
  }

  method LayoutWith(nodes: seq<Node>, edges: seq<Edge>, passes: nat) returns (layout: Layout)
    ensures layout == LayoutOf(nodes, edges, passes)
  {
    if nodes == [] {
      return Layout([], [], [], 0, 0);
    }
    var drawable := Drawable(nodes, edges);
    ghost var settled := BoardAfter(nodes, edges, passes);
    var board, ranks := PlaceNodes(nodes);
    board := MakePasses(board, drawable, ranks, passes);
    SomeBox(board, ranks, nodes);
    ColumnsFilled(board, ranks, nodes);
    DrawableEndsPlaced(board, ranks, nodes, edges);
    var boxes, heads := DrawBoxes(board, ranks);
    var segments := DrawSegments(boxes, drawable);
    layout := Layout(boxes, segments, heads, MaxOf(RightEdges(boxes)), MaxOf(BottomEdges(boxes)));
  }

  method LayoutGraph(nodes: seq<Node>, edges: seq<Edge>) returns (layout: Layout)
    ensures layout == LayoutOf(nodes, edges, BARYCENTRE_PASSES)
  {
    layout := LayoutWith(nodes, edges, BARYCENTRE_PASSES);
  }
}
