/**
 * An undirected `networkx.Graph` of artists, held as networkx holds it: an
 * adjacency table from each node to the set of its neighbours. A self-loop
 * puts a node among its own neighbours.
 */
module Graphs {
  import opened Tracks

  datatype Graph = Graph(adj: map<Artist, set<Artist>>) {

    function Nodes(): set<Artist> {
      adj.Keys
    }

    predicate HasEdge(x: Artist, y: Artist) {
      x in adj && y in adj[x]
    }

    /** Adjacency is symmetric and only mentions nodes of the graph. */
    ghost predicate Valid() {
      forall x, y :: x in adj && y in adj[x] ==> y in adj && x in adj[y]
    }

    /** `graph.degree(n)`: the neighbours, with a self-loop counted twice. */
    function Degree(n: Artist): nat
      requires n in adj
    {
      |adj[n]| + if n in adj[n] then 1 else 0
    }

    /** The neighbours of `n`, none for a node not in the graph. */
    function Neighbours(n: Artist): set<Artist> {
      if n in adj then adj[n] else {}
    }
  }

  /** `networkx.Graph()`. */
  function Empty(): (g: Graph)
    ensures g.Valid() && g.Nodes() == {}
  {
    Graph(map[])
  }

  /** `self` is what is left of `g` on the nodes of `self`: an induced subgraph. */
  ghost predicate InducedSubgraph(h: Graph, g: Graph) {
    && h.Nodes() <= g.Nodes()
    && forall n :: n in h.adj ==> h.adj[n] == g.adj[n] * h.Nodes()
  }

  /** Every node and edge of `g` is in `h`. */
  ghost predicate Supergraph(h: Graph, g: Graph) {
    && g.Nodes() <= h.Nodes()
    && forall x, y :: g.HasEdge(x, y) ==> h.HasEdge(x, y)
  }

  /** `graph.add_nodes_from(ns)`: new nodes come without edges. */
  function AddNodes(g: Graph, ns: set<Artist>): (h: Graph)
    ensures h.Nodes() == g.Nodes() + ns
    ensures forall x, y :: h.HasEdge(x, y) <==> g.HasEdge(x, y)
    ensures g.Valid() ==> h.Valid()
  {
    Graph(map n | n in g.Nodes() + ns :: g.Neighbours(n))
  }

  /** `graph.add_edge(u, v)`: both end points become nodes if they are not. */
  function AddEdge(g: Graph, u: Artist, v: Artist): (h: Graph)
    ensures h.Nodes() == g.Nodes() + {u, v}
    ensures forall x, y :: h.HasEdge(x, y) <==> g.HasEdge(x, y) || (x == u && y == v) || (x == v && y == u)
    ensures g.Valid() ==> h.Valid()
  {
    var adj := g.adj[u := g.Neighbours(u) + {v}];
    Graph(adj[v := (if v in adj then adj[v] else {}) + {u}])
  }

  /**
   * `graph.add_edges_from((u, v) for v in vs)`: an edge from `u` to each of
   * `vs`, in turn. No edge to add adds no node.
   */
  function AddStar(g: Graph, u: Artist, vs: seq<Artist>): (h: Graph)
    ensures h.Nodes() == g.Nodes() + (set v | v in vs) + (if vs == [] then {} else {u})
    ensures forall x, y :: h.HasEdge(x, y) <==> g.HasEdge(x, y) || (x == u && y in vs) || (y == u && x in vs)
    ensures g.Valid() ==> h.Valid()
    decreases |vs|
  {
    if vs == [] then g
    else
      var h := AddStar(AddEdge(g, u, vs[0]), u, vs[1..]);
      assert forall v :: v in vs <==> v == vs[0] || v in vs[1..];
      h
  }

  /** `graph.remove_nodes_from(rs)`: the nodes go, and every edge at them. */
  function RemoveNodes(g: Graph, rs: set<Artist>): (h: Graph)
    ensures h.Nodes() == g.Nodes() - rs
    ensures forall n :: n in h.adj ==> h.adj[n] == g.adj[n] - rs
    ensures g.Valid() ==> h.Valid()
  {
    Graph(map n | n in g.Nodes() - rs :: g.adj[n] - rs)
  }

  /** Removing nodes from an induced subgraph leaves an induced subgraph. */
  lemma RemoveNodesInduced(h: Graph, g: Graph, rs: set<Artist>)
    requires InducedSubgraph(h, g)
    ensures InducedSubgraph(RemoveNodes(h, rs), g)
  {
    var h' := RemoveNodes(h, rs);
    forall n | n in h'.adj
      ensures h'.adj[n] == g.adj[n] * h'.Nodes()
    {
      assert h'.adj[n] == h.adj[n] - rs;
    }
  }

  lemma SupergraphTransitive(a: Graph, b: Graph, c: Graph)
    requires Supergraph(b, a) && Supergraph(c, b)
    ensures Supergraph(c, a)
  {
  }
}
