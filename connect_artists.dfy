/**
 * `expand` and `trim` from the artist-connection script: growing a graph of
 * related artists and pruning its leaves. Both work on a copy of the graph
 * they are given; here graphs are values, so the argument is never changed.
 */
module ConnectArtists {
  import opened Tracks
  import opened Graphs

  /** `get_artist_related_artists`: Spotify's related artists of an artist. */
  type RelatedArtists = Artist -> seq<Artist>

  /** An edge `expand` adds: from one of the given artists to one of its related artists. */
  ghost predicate ExpansionEdge(artists: set<Artist>, related: RelatedArtists, x: Artist, y: Artist) {
    x in artists && y in related(x)
  }

  /**
   * `expand(artists, graph)`: the graph with every given artist as a node and
   * an edge from each to each of its related artists, and nothing else new.
   */
  method Expand(refs: seq<ArtistRef>, graph: Graph, lookup: ArtistId -> Artist, related: RelatedArtists)
    returns (g: Graph)
    requires graph.Valid()
    ensures g.Valid()
    ensures Supergraph(g, graph)
    ensures forall a :: a in refs ==> GetArtist(a, lookup) in g.Nodes()
    ensures forall x, y :: g.HasEdge(x, y) <==>
      graph.HasEdge(x, y) || ExpansionEdge(Resolved(refs, lookup), related, x, y)
                          || ExpansionEdge(Resolved(refs, lookup), related, y, x)
    ensures forall n :: n in g.Nodes() <==>
      n in graph.Nodes() || n in Resolved(refs, lookup) || exists a :: a in Resolved(refs, lookup) && n in related(a)
  {
    var artists := Resolved(refs, lookup);
    g := AddNodes(graph, artists);
    var remaining := artists;
    assert artists - remaining == {};
    while remaining != {}
      invariant remaining <= artists
      invariant g.Valid()
      invariant Expanded(g, graph, artists, artists - remaining, related)
      decreases |remaining|
    {
      var a :| a in remaining;
      ExpandStep(g, graph, artists, remaining, a, related);
      g := AddStar(g, a, related(a));
      remaining := remaining - {a};
    }
    assert artists - remaining == artists;
  }

  /**
   * The loop invariant of `expand`: `g` is `graph` with the given artists
   * added and the edges of the artists in `done`.
   */
  ghost predicate Expanded(g: Graph, graph: Graph, artists: set<Artist>, done: set<Artist>, related: RelatedArtists) {
    && (forall x, y :: g.HasEdge(x, y) <==>
          graph.HasEdge(x, y) || ExpansionEdge(done, related, x, y) || ExpansionEdge(done, related, y, x))
    && (forall n :: n in g.Nodes() <==>
          n in graph.Nodes() || n in artists || exists a :: a in done && n in related(a))
  }

  /** `{get_artist(artist) for artist in artists}`. */
  function Resolved(refs: seq<ArtistRef>, lookup: ArtistId -> Artist): (s: set<Artist>)
    ensures forall a :: a in refs ==> GetArtist(a, lookup) in s
    ensures forall x :: x in s ==> exists a :: a in refs && GetArtist(a, lookup) == x
  {
    set a | a in refs :: GetArtist(a, lookup)
  }

  /** One artist of `expand`'s loop: its edges join those already added. */
  lemma ExpandStep(g: Graph, graph: Graph, artists: set<Artist>, remaining: set<Artist>, a: Artist,
                   related: RelatedArtists)
    requires a in remaining && remaining <= artists
    requires Expanded(g, graph, artists, artists - remaining, related)
    ensures Expanded(AddStar(g, a, related(a)), graph, artists, artists - (remaining - {a}), related)
  {
    var done := artists - remaining;
    assert artists - (remaining - {a}) == done + {a};
  }

  /** The nodes `trim` removes next: leaves and isolated nodes that are not keepers. */
  function Leaves(g: Graph, keepers: set<Artist>): (rs: set<Artist>)
    ensures rs <= g.Nodes()
    ensures forall n :: n in rs <==> n in g.adj && g.Degree(n) < 2 && n !in keepers
  {
    set n | n in g.adj && g.Degree(n) < 2 && n !in keepers
  }

  /**
   * A set of nodes of `graph` on which every node that is not a keeper keeps
   * degree at least two once everything outside the set is removed.
   */
  ghost predicate Core(nodes: set<Artist>, graph: Graph, keepers: set<Artist>) {
    && nodes <= graph.Nodes()
    && forall n :: n in nodes && n !in keepers ==>
         |graph.adj[n] * nodes| + (if n in graph.adj[n] then 1 else 0) >= 2
  }

  lemma SubsetCardinality<T>(a: set<T>, b: set<T>)
    requires a <= b
    ensures |a| <= |b|
  {
    assert b == a + (b - a);
  }

  /** No node of a core left in an induced subgraph is among its leaves. */
  lemma CoreHasNoLeaves(g: Graph, graph: Graph, keepers: set<Artist>, nodes: set<Artist>)
    requires InducedSubgraph(g, graph)
    requires Core(nodes, graph, keepers) && nodes <= g.Nodes()
    ensures nodes * Leaves(g, keepers) == {}
  {
    forall n | n in nodes && n !in keepers
      ensures g.Degree(n) >= 2
    {
      assert g.adj[n] == graph.adj[n] * g.Nodes();
      SubsetCardinality(graph.adj[n] * nodes, g.adj[n]);
    }
  }

  /** One round of `trim` removes no node of any core. */
  lemma TrimRoundKeepsCores(g: Graph, graph: Graph, keepers: set<Artist>)
    requires InducedSubgraph(g, graph)
    requires forall nodes :: Core(nodes, graph, keepers) ==> nodes <= g.Nodes()
    ensures forall nodes :: Core(nodes, graph, keepers) ==> nodes <= RemoveNodes(g, Leaves(g, keepers)).Nodes()
  {
    forall nodes | Core(nodes, graph, keepers)
      ensures nodes <= RemoveNodes(g, Leaves(g, keepers)).Nodes()
    {
      CoreHasNoLeaves(g, graph, keepers, nodes);
      var rs := Leaves(g, keepers);
      assert RemoveNodes(g, rs).Nodes() == g.Nodes() - rs;
      forall n | n in nodes ensures n in g.Nodes() - rs {
        assert n !in rs by { assert n in nodes * rs <==> n in rs; }
      }
    }
  }

  /**
   * `trim(graph, keepers)`: removes leaves until none but keepers are left.
   * The result is an induced subgraph holding every keeper of the graph, and
   * each of its other nodes has degree at least two. It is the largest such
   * subgraph: it holds every core of the graph.
   */
  method Trim(graph: Graph, keepers: set<Artist>) returns (g: Graph)
    requires graph.Valid()
    ensures g.Valid()
    ensures InducedSubgraph(g, graph)
    ensures keepers * graph.Nodes() <= g.Nodes()
    ensures forall n :: n in g.adj && n !in keepers ==> g.Degree(n) >= 2
    ensures Core(g.Nodes(), graph, keepers)
    ensures forall nodes :: Core(nodes, graph, keepers) ==> nodes <= g.Nodes()
  {
    g := graph;
    var toRemove := Leaves(g, keepers);
    while toRemove != {}
      invariant g.Valid()
      invariant InducedSubgraph(g, graph)
      invariant keepers * graph.Nodes() <= g.Nodes()
      invariant forall nodes :: Core(nodes, graph, keepers) ==> nodes <= g.Nodes()
      invariant toRemove == Leaves(g, keepers)
      decreases |g.Nodes()|
    {
      RemoveNodesInduced(g, graph, toRemove);
      TrimRoundKeepsCores(g, graph, keepers);
      var n :| n in toRemove;
      var g' := RemoveNodes(g, toRemove);
      assert n !in g'.Nodes();
      assert g'.Nodes() < g.Nodes();
      g := g';
      toRemove := Leaves(g, keepers);
    }
    forall n | n in g.Nodes() && n !in keepers
      ensures |graph.adj[n] * g.Nodes()| + (if n in graph.adj[n] then 1 else 0) >= 2
    {
      assert g.adj[n] == graph.adj[n] * g.Nodes();
    }
  }
}
