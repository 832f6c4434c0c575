/** The hop-bounded neighbourhood of a trace node (`neighbourhood`): a breadth-first search
    over undirected edges, proved to return exactly the nodes a short enough path reaches. */
module Neighbourhood {
  import opened Sequences
  import opened GraphLayout

  ghost predicate Joins(e: Edge, a: Id, b: Id) {
    (e.src == a && e.dst == b) || (e.dst == a && e.src == b)
  }

  ghost predicate Adjacent(edges: seq<Edge>, a: Id, b: Id) {
    exists e :: e in edges && Joins(e, a, b)
  }

  /** A walk over present nodes along edges taken in either direction. */
  ghost predicate IsPath(present: set<Id>, edges: seq<Edge>, p: seq<Id>)
    requires p != []
  {
    var last := |p| - 1;
    p[last] in present && (last > 0 ==> Adjacent(edges, p[last - 1], p[last]) && IsPath(present, edges, p[..last]))
  }

  ghost predicate Connects(present: set<Id>, edges: seq<Edge>, root: Id, v: Id, hops: nat, p: seq<Id>) {
    0 < |p| <= hops + 1 && p[0] == root && p[|p| - 1] == v && IsPath(present, edges, p)
  }

  /** The node `v` is at undirected distance at most `hops` from the root. */
  ghost predicate Within(present: set<Id>, edges: seq<Edge>, root: Id, v: Id, hops: nat) {
    exists p :: Connects(present, edges, root, v, hops, p)
  }

  /** The present nodes one edge away from the set. */
  ghost function Spread(present: set<Id>, edges: seq<Edge>, s: set<Id>): set<Id> {
    set v | v in present && exists u :: u in s && Adjacent(edges, u, v)
  }

  ghost function Ball(present: set<Id>, edges: seq<Edge>, root: Id, hops: nat): set<Id> {
    if hops == 0 then {root}
    else
      var inner := Ball(present, edges, root, hops - 1);
      inner + Spread(present, edges, inner)
  }

  /** The nodes at distance exactly `hops`. */
  ghost function Layer(present: set<Id>, edges: seq<Edge>, root: Id, hops: nat): set<Id> {
    if hops == 0 then {root}
    else Ball(present, edges, root, hops) - Ball(present, edges, root, hops - 1)
  }

  lemma BallIsWithin(present: set<Id>, edges: seq<Edge>, root: Id, v: Id, hops: nat)
    requires root in present
    ensures v in Ball(present, edges, root, hops) <==> Within(present, edges, root, v, hops)
  {
    if v in Ball(present, edges, root, hops) {
      var p := PathInto(present, edges, root, v, hops);
    }
    if Within(present, edges, root, v, hops) {
      var p :| Connects(present, edges, root, v, hops, p);
      PathStaysIn(present, edges, root, v, hops, p);
    }
  }

  lemma {:induction false} PathInto(present: set<Id>, edges: seq<Edge>, root: Id, v: Id, hops: nat) returns (p: seq<Id>)
    requires root in present && v in Ball(present, edges, root, hops)
    ensures Connects(present, edges, root, v, hops, p)
    decreases hops
  {
    if hops == 0 {
      p := [root];
    } else if v in Ball(present, edges, root, hops - 1) {
      p := PathInto(present, edges, root, v, hops - 1);
    } else {
      var u :| u in Ball(present, edges, root, hops - 1) && Adjacent(edges, u, v);
      var q := PathInto(present, edges, root, u, hops - 1);
      p := q + [v];
      assert p[..|q|] == q;
    }
  }

  lemma {:induction false} PathStaysIn(present: set<Id>, edges: seq<Edge>, root: Id, v: Id, hops: nat, p: seq<Id>)
    requires Connects(present, edges, root, v, hops, p)
    ensures v in Ball(present, edges, root, hops)
    decreases hops
  {
    if |p| > 1 {
      var q, u := p[..|p| - 1], p[|p| - 2];
      PathStaysIn(present, edges, root, u, hops - 1, q);
      assert v in Spread(present, edges, Ball(present, edges, root, hops - 1));
    } else {
      BallGrows(present, edges, root, 0, hops);
    }
  }

  lemma {:induction false} BallGrows(present: set<Id>, edges: seq<Edge>, root: Id, hops: nat, more: nat)
    requires hops <= more
    ensures Ball(present, edges, root, hops) <= Ball(present, edges, root, more)
  {
    if hops < more {
      BallGrows(present, edges, root, hops, more - 1);
    }
  }

  /** Only the outermost layer can reach anything new. */
  lemma SpreadOfLayer(present: set<Id>, edges: seq<Edge>, root: Id, hops: nat)
    ensures var ball := Ball(present, edges, root, hops);
            Ball(present, edges, root, hops + 1) == ball + Spread(present, edges, Layer(present, edges, root, hops))
  {
    var ball := Ball(present, edges, root, hops);
    if hops > 0 {
      var inner := Ball(present, edges, root, hops - 1);
      assert ball == inner + Layer(present, edges, root, hops);
      assert Spread(present, edges, ball) ==
             Spread(present, edges, inner) + Spread(present, edges, Layer(present, edges, root, hops));
    }
  }

  function Reached(reached: set<Id>): Node -> bool {
    (n: Node) => n.id in reached
  }

  lemma SpreadGrows(present: set<Id>, edges: seq<Edge>, i: nat, s: set<Id>)
    requires i < |edges|
    ensures Spread(present, edges[..i + 1], s) ==
            Spread(present, edges[..i], s)
            + (if edges[i].src in s && edges[i].dst in present then {edges[i].dst} else {})
            + (if edges[i].dst in s && edges[i].src in present then {edges[i].src} else {})
  {
    assert edges[..i + 1] == edges[..i] + [edges[i]];
    var (left, front) := (Spread(present, edges[..i + 1], s), Spread(present, edges[..i], s));
    forall v | v in present
      ensures v in left <==>
              v in front || (edges[i].src in s && edges[i].dst == v) || (edges[i].dst in s && edges[i].src == v)
    {
      forall u ensures Adjacent(edges[..i + 1], u, v) <==> Adjacent(edges[..i], u, v) || Joins(edges[i], u, v) {
        if Adjacent(edges[..i], u, v) {
          var e :| e in edges[..i] && Joins(e, u, v);
          assert e in edges[..i + 1];
        }
        assert edges[i] in edges[..i + 1];
      }
      assert edges[i].dst == v ==> Joins(edges[i], edges[i].src, v);
      assert edges[i].src == v ==> Joins(edges[i], edges[i].dst, v);
    }
  }

  /** Adds an id to the reached set and the next frontier, when it is to be added and is new. */
  method Reach(wanted: bool, id: Id, start: set<Id>, reached: set<Id>, next: seq<Id>)
    returns (more: set<Id>, after: seq<Id>)
    requires (set n | n in next) == reached - start && start <= reached && Injective(next)
    ensures more == reached + (if wanted then {id} else {})
    ensures (set n | n in after) == more - start && Injective(after)
  {
    more, after := reached, next;
    if wanted && id !in reached {
      ghost var listed := set n | n in next;
      assert id !in next by {
        assert id in next ==> id in listed;
        assert listed == reached - start;
      }
      more, after := reached + {id}, next + [id];
      assert (set n | n in after) == (set n | n in next) + {id};
    }
  }

  /** One hop: every edge with an end in the frontier brings its other end in; the next frontier
      lists each new node once. */
  method Expand(present: set<Id>, edges: seq<Edge>, frontier: seq<Id>, start: set<Id>)
    returns (reached: set<Id>, next: seq<Id>)
    ensures reached == start + Spread(present, edges, set id | id in frontier)
    ensures (set id | id in next) == reached - start && Injective(next)
  {
    ghost var from := set id | id in frontier;
    reached, next := start, [];
    for i := 0 to |edges|
      invariant reached == start + Spread(present, edges[..i], from)
      invariant (set id | id in next) == reached - start && Injective(next)
    {
      var edge := edges[i];
      SpreadGrows(present, edges, i, from);
      reached, next := Reach(edge.src in frontier && edge.dst in present, edge.dst, start, reached, next);
      reached, next := Reach(edge.dst in frontier && edge.src in present, edge.src, start, reached, next);
    }
    assert edges[..|edges|] == edges;
  }

  lemma NextLayer(present: set<Id>, edges: seq<Edge>, root: Id, hop: nat, layer: set<Id>, reached: set<Id>,
                  more: set<Id>)
    requires reached == Ball(present, edges, root, hop) && layer == Layer(present, edges, root, hop)
    requires more == reached + Spread(present, edges, layer)
    ensures more == Ball(present, edges, root, hop + 1)
    ensures more - reached == Layer(present, edges, root, hop + 1)
  {
    SpreadOfLayer(present, edges, root, hop);
  }

  function Rounds(hops: int): nat {
    if hops < 0 then 0 else hops
  }

  method Round(present: set<Id>, edges: seq<Edge>, root: Id, ghost hop: nat, start: set<Id>, frontier: seq<Id>)
    returns (reached: set<Id>, next: seq<Id>)
    requires start == Ball(present, edges, root, hop) && (set id | id in frontier) == Layer(present, edges, root, hop)
    ensures reached == Ball(present, edges, root, hop + 1)
    ensures (set id | id in next) == Layer(present, edges, root, hop + 1) && Injective(next)
  {
    reached, next := Expand(present, edges, frontier, start);
    NextLayer(present, edges, root, hop, (set id | id in frontier), start, reached);
  }

  method ReachWithin(present: set<Id>, edges: seq<Edge>, root: Id, hops: int) returns (reached: set<Id>)
    requires root in present
    ensures reached == Ball(present, edges, root, Rounds(hops))
  {
    var frontier, hop := [root], 0;
    reached := {root};
    while hop < hops
      invariant 0 <= hop && (hop <= hops || hop == 0)
      invariant reached == Ball(present, edges, root, hop)
      invariant (set id | id in frontier) == Layer(present, edges, root, hop)
    {
      reached, frontier := Round(present, edges, root, hop, reached, frontier);
      hop := hop + 1;
    }
  }

  /** Exactly the present nodes within `hops` of the root, and the edges among them. */
  method NeighbourhoodOf(nodes: seq<Node>, edges: seq<Edge>, root: Id, hops: int)
    returns (near: seq<Node>, among: seq<Edge>)
    ensures root !in IdSet(nodes) ==> near == [] && among == []
    ensures root in IdSet(nodes) ==>
              var ball := Ball(IdSet(nodes), edges, root, Rounds(hops));
              near == Filter(Reached(ball), nodes) && among == Filter(DrawableBetween(ball), edges)
  {
    var present := IdSet(nodes);
    if root !in present {
      return [], [];
    }
    var reached := ReachWithin(present, edges, root, hops);
    near, among := Filter(Reached(reached), nodes), Filter(DrawableBetween(reached), edges);
  }

  /** What membership in the result means, and that more hops never lose a node. */
  lemma NeighbourhoodIsDistance(nodes: seq<Node>, edges: seq<Edge>, root: Id, hops: nat, n: Node, e: Edge)
    requires root in IdSet(nodes)
    ensures var (present, ball) := (IdSet(nodes), Ball(IdSet(nodes), edges, root, hops));
            && (n in Filter(Reached(ball), nodes) <==> n in nodes && Within(present, edges, root, n.id, hops))
            && (e in Filter(DrawableBetween(ball), edges) <==>
                e in edges && Within(present, edges, root, e.src, hops) && Within(present, edges, root, e.dst, hops))
    ensures forall fewer :: 0 <= fewer <= hops ==>
              Ball(IdSet(nodes), edges, root, fewer) <= Ball(IdSet(nodes), edges, root, hops)
  {
    var present := IdSet(nodes);
    var ball := Ball(present, edges, root, hops);
    FilterMembers(Reached(ball), nodes, n);
    FilterMembers(DrawableBetween(ball), edges, e);
    BallIsWithin(present, edges, root, n.id, hops);
    BallIsWithin(present, edges, root, e.src, hops);
    BallIsWithin(present, edges, root, e.dst, hops);
    forall fewer | 0 <= fewer <= hops ensures Ball(present, edges, root, fewer) <= ball {
      BallGrows(present, edges, root, fewer, hops);
    }
  }

  /** The frontier after `hops` rounds is exactly the nodes whose shortest path has that length. */
  lemma LayerIsExactDistance(present: set<Id>, edges: seq<Edge>, root: Id, v: Id, hops: nat)
    requires root in present
    ensures v in Layer(present, edges, root, hops) <==>
            Within(present, edges, root, v, hops) && (hops > 0 ==> !Within(present, edges, root, v, hops - 1))
  {
    BallIsWithin(present, edges, root, v, hops);
    if hops > 0 {
      BallIsWithin(present, edges, root, v, hops - 1);
    }
  }
}
