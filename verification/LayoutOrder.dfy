/** The layout never depends on the order in which nodes and edges are listed. */
module LayoutOrder {
  import opened Sequences
  import opened GraphLayout

  ghost predicate DistinctIds(nodes: seq<Node>) {
    forall i, j :: 0 <= i < j < |nodes| ==> nodes[i].id != nodes[j].id
  }

  lemma {:induction false} SumJoins(a: seq<nat>, b: seq<nat>)
    ensures Sum(a + b) == Sum(a) + Sum(b)
  {
    if b == [] {
      assert a + b == a;
    } else {
      assert (a + b)[..|a + b| - 1] == a + b[..|b| - 1];
      SumJoins(a, b[..|b| - 1]);
    }
  }

  lemma {:induction false} SumPermutes(s: seq<nat>, t: seq<nat>)
    requires multiset(s) == multiset(t)
    ensures Sum(s) == Sum(t) && |s| == |t|
  {
    assert |s| == |multiset(s)| == |multiset(t)| == |t|;
    if s != [] {
      var a, b := TakeOutLast(s, t);
      SumPermutes(s[..|s| - 1], a + b);
      SumJoins(a + [s[|s| - 1]], b);
      SumJoins(a, [s[|s| - 1]]);
      SumJoins(a, b);
    }
  }

  lemma MeanPermutes(rowOf: map<Id, nat>, edges: seq<Edge>, edges': seq<Edge>, id: Id)
    requires multiset(edges) == multiset(edges')
    ensures Mean(KnownRows(rowOf, Neighbours(edges, id)), Get(rowOf, id, 0)) ==
            Mean(KnownRows(rowOf, Neighbours(edges', id)), Get(rowOf, id, 0))
  {
    FlatMapPermutes(EndsAt(id), edges, edges');
    FlatMapPermutes(RowIn(rowOf), Neighbours(edges, id), Neighbours(edges', id));
    SumPermutes(KnownRows(rowOf, Neighbours(edges, id)), KnownRows(rowOf, Neighbours(edges', id)));
  }

  lemma BarycentresPermute(rowOf: map<Id, nat>, edges: seq<Edge>, edges': seq<Edge>, column: seq<Node>)
    requires multiset(edges) == multiset(edges')
    ensures Barycentres(rowOf, edges, column) == Barycentres(rowOf, edges', column)
  {
    forall id | id in IdSet(column)
      ensures Barycentres(rowOf, edges, column)[id] == Barycentres(rowOf, edges', column)[id]
    {
      MeanPermutes(rowOf, edges, edges', id);
    }
  }

  lemma {:induction false} SweepPermutes(board: Board, edges: seq<Edge>, edges': seq<Edge>, ranks: seq<nat>)
    requires multiset(edges) == multiset(edges') && forall k :: k in ranks ==> k in board.columns
    ensures Sweep(board, edges, ranks) == Sweep(board, edges', ranks)
  {
    if ranks != [] {
      var last := |ranks| - 1;
      SweepPermutes(board, edges, edges', ranks[..last]);
      var before := Sweep(board, edges, ranks[..last]);
      BarycentresPermute(before.rowOf, edges, edges', before.columns[ranks[last]]);
    }
  }

  lemma {:induction false} PassesPermute(board: Board, edges: seq<Edge>, edges': seq<Edge>, ranks: seq<nat>, count: nat)
    requires multiset(edges) == multiset(edges') && forall k :: k in ranks ==> k in board.columns
    ensures Passes(board, edges, ranks, count) == Passes(board, edges', ranks, count)
  {
    if count > 0 {
      PassesPermute(board, edges, edges', ranks, count - 1);
      SweepPermutes(Passes(board, edges, ranks, count - 1), edges, edges', ranks);
    }
  }

  lemma SortedNodesPermute(nodes: seq<Node>, nodes': seq<Node>)
    requires multiset(nodes) == multiset(nodes') && DistinctIds(nodes)
    ensures SortBy(ById(), nodes) == SortBy(ById(), nodes')
  {
    var sorted := SortBy(ById(), nodes);
    SortBySorted(ById(), nodes);
    SortBySorted(ById(), nodes');
    forall a, b | a in sorted && b in sorted && ById()(a, b) && ById()(b, a) ensures a == b {
      SameMembers(sorted, nodes, a);
      SameMembers(sorted, nodes, b);
      var i :| 0 <= i < |nodes| && nodes[i] == a;
      var j :| 0 <= j < |nodes| && nodes[j] == b;
    }
    SortedUnique(ById(), sorted, SortBy(ById(), nodes'));
  }

  lemma DrawablePermutes(nodes: seq<Node>, nodes': seq<Node>, edges: seq<Edge>, edges': seq<Edge>)
    requires multiset(nodes) == multiset(nodes') && multiset(edges) == multiset(edges')
    ensures IdSet(nodes) == IdSet(nodes')
    ensures multiset(Drawable(nodes, edges)) == multiset(Drawable(nodes', edges'))
  {
    forall n ensures n in nodes <==> n in nodes' { SameMembers(nodes, nodes', n); }
    FilterPermutes(DrawableBetween(IdSet(nodes)), edges, edges');
  }

  function SegmentIn(positions: map<Id, Box>): Edge -> seq<Segment> {
    (e: Edge) =>
      if e.src in positions && e.dst in positions then [SegmentBetween(e, positions[e.src], positions[e.dst])]
      else []
  }

  lemma {:induction false} SegmentsAreMapped(edges: seq<Edge>, positions: map<Id, Box>)
    requires forall e :: e in edges ==> e.src in positions && e.dst in positions
    ensures Segments(edges, positions) == FlatMap(SegmentIn(positions), edges)
  {
    if edges != [] {
      SegmentsAreMapped(edges[..|edges| - 1], positions);
    }
  }

  /** Whatever the order of the distinct-id nodes and of the edges, every box, column heading
      and the canvas come out the same, and the same segments are drawn. */
  lemma LayoutIgnoresInputOrder(nodes: seq<Node>, nodes': seq<Node>, edges: seq<Edge>, edges': seq<Edge>, passes: nat)
    requires multiset(nodes) == multiset(nodes') && multiset(edges) == multiset(edges')
    requires DistinctIds(nodes)
    ensures var (l, l') := (LayoutOf(nodes, edges, passes), LayoutOf(nodes', edges', passes));
            && l.nodes == l'.nodes && l.columns == l'.columns && l.width == l'.width && l.height == l'.height
            && multiset(l.edges) == multiset(l'.edges)
  {
    assert |multiset(nodes)| == |multiset(nodes')|;
    if nodes != [] {
      SortedNodesPermute(nodes, nodes');
      DrawablePermutes(nodes, nodes', edges, edges');
      var board := BoardAfter(nodes, edges, passes);
      var ranks := Ranks(nodes);
      InitialHolds(nodes);
      PassesPermuteFrom(nodes, nodes', edges, edges', passes);
      DrawPermutes(board, ranks, nodes, nodes', edges, edges');
    }
  }

  lemma PassesPermuteFrom(nodes: seq<Node>, nodes': seq<Node>, edges: seq<Edge>, edges': seq<Edge>, passes: nat)
    requires SortBy(ById(), nodes) == SortBy(ById(), nodes')
    requires multiset(Drawable(nodes, edges)) == multiset(Drawable(nodes', edges'))
    ensures BoardAfter(nodes, edges, passes) == BoardAfter(nodes', edges', passes)
  {
    InitialHolds(nodes);
    var start := InitialBoard(nodes);
    assert start == InitialBoard(nodes');
    forall k | k in Ranks(nodes) ensures k in start.columns { RanksAreKeys(start.columns, nodes, k); }
    PassesPermute(start, Drawable(nodes, edges), Drawable(nodes', edges'), Ranks(nodes), passes);
  }

  lemma DrawPermutes(board: Board, ranks: seq<nat>, nodes: seq<Node>, nodes': seq<Node>, edges: seq<Edge>,
                     edges': seq<Edge>)
    requires nodes != [] && nodes' != [] && Settled(board, ranks, nodes) && Settled(board, ranks, nodes')
    requires multiset(Drawable(nodes, edges)) == multiset(Drawable(nodes', edges'))
    ensures var (l, l') := (Draw(board, ranks, nodes, edges), Draw(board, ranks, nodes', edges'));
            && l.nodes == l'.nodes && l.columns == l'.columns && l.width == l'.width && l.height == l'.height
            && multiset(l.edges) == multiset(l'.edges)
  {
    var positions := Positions(Boxes(board, ranks));
    DrawableEndsPlaced(board, ranks, nodes, edges);
    DrawableEndsPlaced(board, ranks, nodes', edges');
    SegmentsAreMapped(Drawable(nodes, edges), positions);
    SegmentsAreMapped(Drawable(nodes', edges'), positions);
    FlatMapPermutes(SegmentIn(positions), Drawable(nodes, edges), Drawable(nodes', edges'));
  }
}
