/** The depth-first walk shared by the row cascade and the model cascade:
    follow declared relations, visiting every node once. */
module GraphWalk {

  /** Successors of each node, in the order the relations list them. */
  type Graph<!T> = map<T, seq<T>>

  predicate Finite<T(==)>(g: Graph<T>) {
    forall x, y :: x in g && y in g[x] ==> y in g
  }

  ghost predicate IsPath<T>(g: Graph<T>, path: seq<T>, from: T, to: T) {
    && path != [] && path[0] == from && path[|path| - 1] == to
    && forall i :: 0 <= i < |path| - 1 ==> path[i] in g && path[i + 1] in g[path[i]]
  }

  ghost predicate Reaches<T(!new)>(g: Graph<T>, from: T, to: T) {
    exists path :: IsPath(g, path, from, to)
  }

  lemma ReachesSelf<T(!new)>(g: Graph<T>, x: T)
    ensures Reaches(g, x, x)
  {
    assert IsPath(g, [x], x, x);
  }

  lemma ReachesThrough<T(!new)>(g: Graph<T>, x: T, y: T, z: T)
    requires x in g && y in g[x] && Reaches(g, y, z)
    ensures Reaches(g, x, z)
  {
    var path :| IsPath(g, path, y, z);
    assert IsPath(g, [x] + path, x, z);
  }

  ghost predicate IsStep<T>(g: Graph<T>, x: T, y: T) {
    x in g && y in g[x]
  }

  /** `lift` takes every step of `g` to a step of `h`. */
  ghost predicate Simulates<S(!new), T(!new)>(g: Graph<S>, h: Graph<T>, lift: S -> T) {
    forall x, y :: IsStep(g, x, y) ==> IsStep(h, lift(x), lift(y))
  }

  lemma {:induction false} PathLifts<S(!new), T(!new)>(g: Graph<S>, h: Graph<T>, lift: S -> T, path: seq<S>, from: S, to: S)
    requires Simulates(g, h, lift) && IsPath(g, path, from, to)
    ensures Reaches(h, lift(from), lift(to))
    decreases |path|
  {
    if |path| == 1 {
      ReachesSelf(h, lift(from));
    } else {
      assert path[0] in g && path[1] in g[path[0]];
      assert IsStep(g, path[0], path[1]);
      assert IsPath(g, path[1..], path[1], to);
      PathLifts(g, h, lift, path[1..], path[1], to);
      ReachesThrough(h, lift(from), lift(path[1]), lift(to));
    }
  }

  /** What is reachable stays so under a simulation. */
  lemma ReachesLifts<S(!new), T(!new)>(g: Graph<S>, h: Graph<T>, lift: S -> T, from: S, to: S)
    requires Simulates(g, h, lift) && Reaches(g, from, to)
    ensures Reaches(h, lift(from), lift(to))
  {
    var path :| IsPath(g, path, from, to);
    PathLifts(g, h, lift, path, from, to);
  }

  /** Every visited node has all its successors visited, except those still in progress. */
  predicate ClosedBut<T>(g: Graph<T>, visited: set<T>, open: set<T>) {
    forall x, y :: x in visited && x !in open && x in g && y in g[x] ==> y in visited
  }

  /** A closed set holds everything reachable from its members. */
  lemma {:induction false} ClosedHoldsReachable<T(!new)>(g: Graph<T>, visited: set<T>, path: seq<T>, from: T, to: T)
    requires ClosedBut(g, visited, {}) && from in visited && IsPath(g, path, from, to)
    ensures to in visited
    decreases path
  {
    if |path| > 1 {
      assert IsPath(g, path[1..], path[1], to);
      ClosedHoldsReachable(g, visited, path[1..], path[1], to);
    }
  }

  ghost predicate AllReached<T(!new)>(g: Graph<T>, from: T, nodes: set<T>) {
    forall y :: y in nodes ==> Reaches(g, from, y)
  }

  lemma AllReachedThrough<T(!new)>(g: Graph<T>, x: T, y: T, nodes: set<T>, more: set<T>)
    requires x in g && y in g[x] && AllReached(g, x, nodes) && AllReached(g, y, more)
    ensures AllReached(g, x, nodes + more)
  {
    forall z | z in more ensures Reaches(g, x, z) {
      ReachesThrough(g, x, y, z);
    }
  }

  /** `order` lists the elements of `nodes`, each once. */
  ghost predicate Enumerates<T(!new)>(order: seq<T>, nodes: set<T>) {
    && (forall x :: x in order <==> x in nodes)
    && forall i, j :: 0 <= i < j < |order| ==> order[i] != order[j]
  }

  class Walker<T(==,!new)> {
    const graph: Graph<T>
    var visited: set<T>
    /** Nodes in the order they were entered. */
    var order: seq<T>

    constructor (graph: Graph<T>)
      ensures this.graph == graph && visited == {} && order == []
    {
      this.graph := graph;
      visited := {};
      order := [];
    }

    ghost predicate Valid()
      reads this
    {
      Finite(graph) && visited <= graph.Keys && Enumerates(order, visited)
    }

    method Enter(x: T)
      requires Valid() && x in graph && x !in visited
      modifies this`visited, this`order
      ensures Valid() && visited == old(visited) + {x} && order == old(order) + [x]
    {
      visited := visited + {x};
      order := order + [x];
    }

    /** Visit a node and, through it, everything not visited yet. `open` are the
        callers still in progress. */
    method Walk(x: T, ghost open: set<T>)
      requires Valid() && x in graph && open <= visited && ClosedBut(graph, visited, open)
      modifies this`visited, this`order
      ensures Valid() && old(visited) <= visited && x in visited
      ensures ClosedBut(graph, visited, open)
      ensures AllReached(graph, x, visited - old(visited))
      decreases graph.Keys - visited
    {
      if x in visited {
        return;
      }
      ghost var before := visited;
      Enter(x);
      ReachesSelf(graph, x);
      var children := graph[x];
      for i := 0 to |children|
        invariant Valid() && before + {x} <= visited
        invariant ClosedBut(graph, visited, open + {x})
        invariant forall k :: 0 <= k < i ==> children[k] in visited
        invariant AllReached(graph, x, visited - before)
      {
        ghost var mid := visited;
        Walk(children[i], open + {x});
        AllReachedThrough(graph, x, children[i], mid - before, visited - mid);
        assert visited - before == mid - before + (visited - mid);
      }
    }
  }

  /** The whole walk visits exactly what is reachable, each node once, on any
      graph, cyclic or shared. */
  method WalkFrom<T(==,!new)>(graph: Graph<T>, root: T) returns (visited: set<T>, order: seq<T>)
    requires Finite(graph) && root in graph
    ensures forall x :: x in visited <==> Reaches(graph, root, x)
    ensures Enumerates(order, visited) && visited <= graph.Keys
  {
    var walker := new Walker<T>(graph);
    walker.Walk(root, {});
    visited, order := walker.visited, walker.order;
    assert visited - {} == visited;
    forall x | Reaches(graph, root, x) ensures x in visited {
      var path :| IsPath(graph, path, root, x);
      ClosedHoldsReachable(graph, visited, path, root, x);
    }
  }
}
