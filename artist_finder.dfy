/**
 * The breadth-first artist finder: from each starting artist it widens a set
 * of reached artists one ring of related artists at a time, recording the
 * edges it walks in a graph, until the rings meet.
 */
module ArtistFinder {
  import opened Wrappers
  import opened Tracks
  import opened Graphs

  /** `utils.get_related`: the ids of an artist's related artists. */
  type Related = Artist -> seq<ArtistId>

  /** `get_artist(rel) for rel in get_related(fartist)`, the artists `expand` collects into a set. */
  function RelatedOf(f: Artist, related: Related, lookup: ArtistId -> Artist): (r: seq<Artist>)
    ensures |r| == |related(f)| && forall i :: 0 <= i < |r| ==> r[i] == lookup(related(f)[i])
  {
    seq(|related(f)|, i requires 0 <= i < |related(f)| => lookup(related(f)[i]))
  }

  /** Everything one step from a frontier. */
  ghost function Ring(frontier: set<Artist>, related: Related, lookup: ArtistId -> Artist): set<Artist> {
    set f, r | f in frontier && r in RelatedOf(f, related, lookup) :: r
  }

  /** An edge the walk from `frontier` adds. */
  ghost predicate WalkEdge(frontier: set<Artist>, related: Related, lookup: ArtistId -> Artist, x: Artist, y: Artist) {
    x in frontier && y in RelatedOf(x, related, lookup)
  }

  class Finder {
    const artists: set<Artist>
    var sets: map<Artist, set<Artist>>
    var farthest: map<Artist, set<Artist>>
    var g: Graph

    /**
     * Each starting artist has reached itself, its frontier is itself, and
     * every reached artist is a node of the graph.
     */
    ghost predicate Valid()
      reads this
    {
      && sets.Keys == artists && farthest.Keys == artists
      && g.Valid()
      && Reaching(artists, sets, farthest, g.Nodes())
    }

    /** `Finder(*artist_ids)`. */
    constructor(ids: seq<ArtistId>, lookup: ArtistId -> Artist)
      ensures Valid()
      ensures artists == set k | k in ids :: lookup(k)
      ensures forall a :: a in artists ==> sets[a] == {a} && farthest[a] == {a}
      ensures g.Nodes() == artists && forall x, y :: !g.HasEdge(x, y)
    {
      var start := set k | k in ids :: lookup(k);
      artists := start;
      sets := map a | a in start :: {a};
      farthest := map a | a in start :: {a};
      g := AddNodes(Empty(), start);
    }

    /** The artists that were reached from any starting artist's frontier. */
    ghost function Frontiers(): set<Artist>
      reads this
    {
      FrontierOf(farthest, artists)
    }

    /**
     * `expand()`: for each starting artist, the next frontier is what the
     * old frontier's related artists add to the reached set, and the walk
     * over the old frontiers' edges goes into the graph.
     */
    method Expand(related: Related, lookup: ArtistId -> Artist)
      requires Valid()
      modifies this
      ensures Valid()
      ensures forall a :: a in artists ==>
        && farthest[a] == Ring(old(farthest[a]), related, lookup) - old(sets[a])
        && sets[a] == old(sets[a]) + farthest[a]
      ensures forall a :: a in artists ==> old(sets[a]) <= sets[a] && farthest[a] * old(sets[a]) == {}
      ensures Supergraph(g, old(g))
      ensures g.Nodes() == old(g.Nodes()) + Ring(old(Frontiers()), related, lookup)
      ensures WalkedEdges(g, old(g), old(Frontiers()), related, lookup)
    {
      farthest, sets, g := AdvanceAll(artists, farthest, sets, g, related, lookup);
      assert forall a :: a in artists ==> Advanced(old(farthest), old(sets), farthest, sets, a, related, lookup);
    }

    /** `midpoints()`: the artists every starting artist has reached; no starting artist is a TypeError. */
    function Midpoints(): (r: Result<set<Artist>>)
      reads this
      requires Valid()
      ensures r.Err? <==> artists == {}
      ensures r.Err? ==> r.error == TypeError
      ensures r.Ok? ==> forall x :: x in r.value <==> forall a :: a in artists ==> x in sets[a]
    {
      if sets == map[] then Err(TypeError)
      else
        Ok(set a, x | a in sets && x in sets[a] && (forall b :: b in sets ==> x in sets[b]) :: x)
    }
  }

  /** The loop of `expand`, over the finder's state as values. */
  method AdvanceAll(artists: set<Artist>, f0: map<Artist, set<Artist>>, s0: map<Artist, set<Artist>>, g0: Graph,
                    related: Related, lookup: ArtistId -> Artist)
    returns (f: map<Artist, set<Artist>>, s: map<Artist, set<Artist>>, h: Graph)
    requires s0.Keys == artists && f0.Keys == artists && g0.Valid() && Reaching(artists, s0, f0, g0.Nodes())
    ensures s.Keys == artists && f.Keys == artists && h.Valid() && Reaching(artists, s, f, h.Nodes())
    ensures forall a :: a in artists ==> Advanced(f0, s0, f, s, a, related, lookup)
    ensures Supergraph(h, g0)
    ensures h.Nodes() == g0.Nodes() + Ring(FrontierOf(f0, artists), related, lookup)
    ensures WalkedEdges(h, g0, FrontierOf(f0, artists), related, lookup)
  {
    f, s, h := f0, s0, g0;
    var remaining := artists;
    ProgressInit(artists, f0, s0, g0, related, lookup);
    while remaining != {}
      invariant remaining <= artists
      invariant Progress(artists, f0, s0, g0, related, lookup, artists - remaining, f, s, h)
      decreases |remaining|
    {
      var a :| a in remaining;
      f, s, h := AdvanceOne(artists, f0, s0, g0, related, lookup, remaining, f, s, h, a);
      remaining := remaining - {a};
    }
    ProgressComplete(artists, f0, s0, g0, related, lookup, remaining, f, s, h);
  }

  /** When no artist remains, every artist has moved on one ring and the walk covers all frontiers. */
  lemma ProgressComplete(artists: set<Artist>, f0: map<Artist, set<Artist>>, s0: map<Artist, set<Artist>>, g0: Graph,
                         related: Related, lookup: ArtistId -> Artist, remaining: set<Artist>,
                         f: map<Artist, set<Artist>>, s: map<Artist, set<Artist>>, h: Graph)
    requires remaining == {}
    requires Progress(artists, f0, s0, g0, related, lookup, artists - remaining, f, s, h)
    ensures s.Keys == artists && f.Keys == artists && h.Valid() && Reaching(artists, s, f, h.Nodes())
    ensures forall a :: a in artists ==> Advanced(f0, s0, f, s, a, related, lookup)
    ensures Supergraph(h, g0)
    ensures h.Nodes() == g0.Nodes() + Ring(FrontierOf(f0, artists), related, lookup)
    ensures WalkedEdges(h, g0, FrontierOf(f0, artists), related, lookup)
  {
    assert artists - remaining == artists;
    SupergraphOfWalk(h, g0, FrontierOf(f0, artists), related, lookup);
  }

  lemma ProgressInit(artists: set<Artist>, f0: map<Artist, set<Artist>>, s0: map<Artist, set<Artist>>, g0: Graph,
                     related: Related, lookup: ArtistId -> Artist)
    requires s0.Keys == artists && f0.Keys == artists && g0.Valid() && Reaching(artists, s0, f0, g0.Nodes())
    ensures Progress(artists, f0, s0, g0, related, lookup, artists - artists, f0, s0, g0)
  {
    assert artists - artists == {};
    assert FrontierOf(f0, {}) == {};
    assert Ring({}, related, lookup) == {};
  }

  /** One turn of `expand`'s loop: artist `a` walks its frontier and moves on one ring. */
  method AdvanceOne(artists: set<Artist>, f0: map<Artist, set<Artist>>, s0: map<Artist, set<Artist>>, g0: Graph,
                    related: Related, lookup: ArtistId -> Artist, remaining: set<Artist>,
                    f: map<Artist, set<Artist>>, s: map<Artist, set<Artist>>, h: Graph, a: Artist)
    returns (f': map<Artist, set<Artist>>, s': map<Artist, set<Artist>>, h': Graph)
    requires remaining <= artists && a in remaining
    requires Progress(artists, f0, s0, g0, related, lookup, artists - remaining, f, s, h)
    ensures Progress(artists, f0, s0, g0, related, lookup, artists - (remaining - {a}), f', s', h')
    ensures |remaining - {a}| < |remaining|
  {
    var ring;
    assert f[a] <= h.Nodes();
    h', ring := WalkFrontier(h, f[a], related, lookup);
    ProgressStep(artists, f0, s0, g0, related, lookup, remaining, f, s, h, a, ring, h');
    f' := f[a := ring - s[a]];
    s' := s[a := s[a] + f'[a]];
  }

  /** The loop invariant of `expand`: the artists in `done` have moved on one ring, the others not yet. */
  ghost predicate Progress(artists: set<Artist>, f0: map<Artist, set<Artist>>, s0: map<Artist, set<Artist>>, g0: Graph,
                           related: Related, lookup: ArtistId -> Artist, done: set<Artist>,
                           f: map<Artist, set<Artist>>, s: map<Artist, set<Artist>>, h: Graph)
  {
    && StateProgress(artists, f0, s0, related, lookup, done, f, s)
    && h.Valid() && h.Nodes() == g0.Nodes() + Ring(FrontierOf(f0, done), related, lookup)
    && Reaching(artists, s, f, h.Nodes())
    && WalkedEdges(h, g0, FrontierOf(f0, done), related, lookup)
  }

  ghost predicate StateProgress(artists: set<Artist>, f0: map<Artist, set<Artist>>, s0: map<Artist, set<Artist>>,
                                related: Related, lookup: ArtistId -> Artist, done: set<Artist>,
                                f: map<Artist, set<Artist>>, s: map<Artist, set<Artist>>)
  {
    && done <= artists
    && s0.Keys == artists && f0.Keys == artists && s.Keys == artists && f.Keys == artists
    && (forall a :: a in artists - done ==> s[a] == s0[a] && f[a] == f0[a])
    && (forall a :: a in done ==> Advanced(f0, s0, f, s, a, related, lookup))
  }

  lemma ProgressStep(artists: set<Artist>, f0: map<Artist, set<Artist>>, s0: map<Artist, set<Artist>>, g0: Graph,
                     related: Related, lookup: ArtistId -> Artist, remaining: set<Artist>,
                     f: map<Artist, set<Artist>>, s: map<Artist, set<Artist>>, h: Graph,
                     a: Artist, ring: set<Artist>, next: Graph)
    requires remaining <= artists && a in remaining
    requires Progress(artists, f0, s0, g0, related, lookup, artists - remaining, f, s, h)
    requires ring == Ring(f[a], related, lookup)
    requires next.Valid() && next.Nodes() == h.Nodes() + ring
    requires WalkedEdges(next, h, f[a], related, lookup)
    ensures var f' := f[a := ring - s[a]];
      Progress(artists, f0, s0, g0, related, lookup, artists - (remaining - {a}), f', s[a := s[a] + f'[a]], next)
    ensures |remaining - {a}| < |remaining|
  {
    var done := artists - remaining;
    DoneStep(artists, remaining, a);
    StateStep(artists, f0, s0, related, lookup, done, f, s, a, ring);
    ReachingStep(artists, s, f, h.Nodes(), next.Nodes(), a, ring);
    EdgeStep(f0, g0, related, lookup, done, h, next, a, f[a]);
    NodeStep(f0, g0, related, lookup, done, h, next, a);
  }

  lemma NodeStep(f0: map<Artist, set<Artist>>, g0: Graph, related: Related, lookup: ArtistId -> Artist,
                 done: set<Artist>, h: Graph, next: Graph, a: Artist)
    requires a in f0
    requires h.Nodes() == g0.Nodes() + Ring(FrontierOf(f0, done), related, lookup)
    requires next.Nodes() == h.Nodes() + Ring(f0[a], related, lookup)
    ensures next.Nodes() == g0.Nodes() + Ring(FrontierOf(f0, done + {a}), related, lookup)
  {
    FrontierOfStep(f0, done, a);
    RingUnion(FrontierOf(f0, done), f0[a], related, lookup);
  }

  lemma DoneStep(artists: set<Artist>, remaining: set<Artist>, a: Artist)
    requires remaining <= artists && a in remaining
    ensures artists - (remaining - {a}) == (artists - remaining) + {a}
    ensures |remaining - {a}| < |remaining|
  {
  }

  lemma StateStep(artists: set<Artist>, f0: map<Artist, set<Artist>>, s0: map<Artist, set<Artist>>,
                  related: Related, lookup: ArtistId -> Artist, done: set<Artist>,
                  f: map<Artist, set<Artist>>, s: map<Artist, set<Artist>>, a: Artist, ring: set<Artist>)
    requires StateProgress(artists, f0, s0, related, lookup, done, f, s)
    requires a in artists - done && ring == Ring(f[a], related, lookup)
    ensures var f' := f[a := ring - s[a]];
      StateProgress(artists, f0, s0, related, lookup, done + {a}, f', s[a := s[a] + f'[a]])
  {
    AdvanceStep(f0, s0, f, s, done, a, ring, related, lookup);
  }

  lemma EdgeStep(f0: map<Artist, set<Artist>>, g0: Graph, related: Related, lookup: ArtistId -> Artist,
                 done: set<Artist>, h: Graph, next: Graph, a: Artist, frontier: set<Artist>)
    requires a in f0 && frontier == f0[a]
    requires WalkedEdges(h, g0, FrontierOf(f0, done), related, lookup)
    requires WalkedEdges(next, h, frontier, related, lookup)
    ensures WalkedEdges(next, g0, FrontierOf(f0, done + {a}), related, lookup)
  {
    WalkedEdgesCompose(next, h, g0, FrontierOf(f0, done), frontier, related, lookup);
    FrontierOfStep(f0, done, a);
  }

  /** Artist `a` moved on one ring: from `oldF`/`oldS` to `newF`/`newS`. */
  ghost predicate Advanced(oldF: map<Artist, set<Artist>>, oldS: map<Artist, set<Artist>>,
                           newF: map<Artist, set<Artist>>, newS: map<Artist, set<Artist>>,
                           a: Artist, related: Related, lookup: ArtistId -> Artist)
  {
    && a in oldF && a in oldS && a in newF && a in newS
    && newF[a] == Ring(oldF[a], related, lookup) - oldS[a]
    && newS[a] == oldS[a] + newF[a]
  }

  lemma AdvanceStep(oldF: map<Artist, set<Artist>>, oldS: map<Artist, set<Artist>>,
                    f: map<Artist, set<Artist>>, s: map<Artist, set<Artist>>, done: set<Artist>, a: Artist,
                    ring: set<Artist>, related: Related, lookup: ArtistId -> Artist)
    requires forall b :: b in done ==> Advanced(oldF, oldS, f, s, b, related, lookup)
    requires a !in done && a in oldF && a in oldS && a in f && a in s
    requires f[a] == oldF[a] && s[a] == oldS[a] && ring == Ring(f[a], related, lookup)
    ensures var f' := f[a := ring - s[a]];
      forall b :: b in done + {a} ==> Advanced(oldF, oldS, f', s[a := s[a] + f'[a]], b, related, lookup)
  {
  }

  /** Each starting artist has reached itself and its frontier, and only nodes of the graph. */
  ghost predicate Reaching(artists: set<Artist>, sets: map<Artist, set<Artist>>, farthest: map<Artist, set<Artist>>,
                           nodes: set<Artist>)
  {
    forall a :: a in artists ==> a in sets && a in farthest && a in sets[a] && farthest[a] <= sets[a] && sets[a] <= nodes
  }

  lemma ReachingStep(artists: set<Artist>, sets: map<Artist, set<Artist>>, farthest: map<Artist, set<Artist>>,
                     nodes: set<Artist>, nodes': set<Artist>, a: Artist, ring: set<Artist>)
    requires Reaching(artists, sets, farthest, nodes) && a in artists
    requires nodes <= nodes' && ring <= nodes'
    ensures var farthest' := farthest[a := ring - sets[a]];
      Reaching(artists, sets[a := sets[a] + farthest'[a]], farthest', nodes')
  {
  }

  /** The edges of `g` are those of `base` and those of the walk from `walked`. */
  ghost predicate WalkedEdges(g: Graph, base: Graph, walked: set<Artist>, related: Related, lookup: ArtistId -> Artist) {
    forall x, y :: g.HasEdge(x, y) <==>
      base.HasEdge(x, y) || WalkEdge(walked, related, lookup, x, y) || WalkEdge(walked, related, lookup, y, x)
  }

  /**
   * The inner loop of `expand`: walks each artist of the frontier, adding
   * its related artists to the ring and its edges to the graph.
   */
  method WalkFrontier(g: Graph, frontier: set<Artist>, related: Related, lookup: ArtistId -> Artist)
    returns (h: Graph, ring: set<Artist>)
    requires g.Valid() && frontier <= g.Nodes()
    ensures ring == Ring(frontier, related, lookup)
    ensures h.Valid() && h.Nodes() == g.Nodes() + ring
    ensures WalkedEdges(h, g, frontier, related, lookup)
  {
    h := g;
    ring := {};
    var todo := frontier;
    assert Ring({}, related, lookup) == {};
    while todo != {}
      invariant Walking(g, frontier, todo, ring, h, related, lookup)
      decreases |todo|
    {
      var f :| f in todo;
      var rel := RelatedOf(f, related, lookup);
      WalkingStep(g, frontier, todo, ring, h, f, related, lookup);
      h := AddStar(h, f, rel);
      ring := ring + (set r | r in rel);
      todo := todo - {f};
    }
    assert frontier - todo == frontier;
  }

  /** The loop invariant of `expand`'s inner loop: the artists of `frontier` not in `todo` are walked. */
  ghost predicate Walking(g: Graph, frontier: set<Artist>, todo: set<Artist>, ring: set<Artist>, h: Graph,
                          related: Related, lookup: ArtistId -> Artist)
  {
    && g.Nodes() >= frontier
    && todo <= frontier
    && ring == Ring(frontier - todo, related, lookup)
    && h.Valid() && h.Nodes() == g.Nodes() + ring
    && WalkedEdges(h, g, frontier - todo, related, lookup)
  }

  lemma WalkingStep(g: Graph, frontier: set<Artist>, todo: set<Artist>, ring: set<Artist>, h: Graph, f: Artist,
                    related: Related, lookup: ArtistId -> Artist)
    requires Walking(g, frontier, todo, ring, h, related, lookup) && f in todo
    ensures var rel := RelatedOf(f, related, lookup);
      Walking(g, frontier, todo - {f}, ring + (set r | r in rel), AddStar(h, f, rel), related, lookup)
    ensures |todo - {f}| < |todo|
  {
    var rel := RelatedOf(f, related, lookup);
    var walked, walked' := frontier - todo, frontier - (todo - {f});
    assert walked' == walked + {f};
    var ring', h' := ring + (set r | r in rel), AddStar(h, f, rel);
    RingStep(walked, f, related, lookup);
    assert ring' == Ring(walked', related, lookup);
    WalkStep(h, g, walked, f, related, lookup);
    assert WalkedEdges(h', g, walked', related, lookup);
    StarNodes(h, g.Nodes(), ring, f, rel);
    assert h'.Valid() && h'.Nodes() == g.Nodes() + ring';
  }

  /** A star from a node already there adds exactly its other end points. */
  lemma StarNodes(h: Graph, nodes: set<Artist>, ring: set<Artist>, f: Artist, rel: seq<Artist>)
    requires h.Nodes() == nodes + ring && f in nodes
    ensures AddStar(h, f, rel).Nodes() == nodes + (ring + set r | r in rel)
  {
  }

  lemma WalkStep(h: Graph, g: Graph, walked: set<Artist>, f: Artist, related: Related, lookup: ArtistId -> Artist)
    requires WalkedEdges(h, g, walked, related, lookup)
    ensures WalkedEdges(AddStar(h, f, RelatedOf(f, related, lookup)), g, walked + {f}, related, lookup)
  {
  }

  lemma WalkedEdgesCompose(c: Graph, b: Graph, a: Graph, first: set<Artist>, second: set<Artist>,
                           related: Related, lookup: ArtistId -> Artist)
    requires WalkedEdges(b, a, first, related, lookup) && WalkedEdges(c, b, second, related, lookup)
    ensures WalkedEdges(c, a, first + second, related, lookup)
  {
  }

  lemma SupergraphOfWalk(g: Graph, base: Graph, walked: set<Artist>, related: Related, lookup: ArtistId -> Artist)
    requires WalkedEdges(g, base, walked, related, lookup) && base.Nodes() <= g.Nodes()
    ensures Supergraph(g, base)
  {
  }

  lemma FrontierOfStep(farthest: map<Artist, set<Artist>>, done: set<Artist>, a: Artist)
    requires a in farthest
    ensures FrontierOf(farthest, done + {a}) == FrontierOf(farthest, done) + farthest[a]
  {
  }

  /** The frontiers of the artists in `done`, taken together. */
  ghost function FrontierOf(farthest: map<Artist, set<Artist>>, done: set<Artist>): set<Artist> {
    set a, f | a in done && a in farthest && f in farthest[a] :: f
  }

  /** The ring of a union of frontiers is the union of their rings. */
  lemma RingUnion(a: set<Artist>, b: set<Artist>, related: Related, lookup: ArtistId -> Artist)
    ensures Ring(a + b, related, lookup) == Ring(a, related, lookup) + Ring(b, related, lookup)
  {
  }

  lemma RingStep(walked: set<Artist>, f: Artist, related: Related, lookup: ArtistId -> Artist)
    ensures Ring(walked + {f}, related, lookup) == Ring(walked, related, lookup) + set r | r in RelatedOf(f, related, lookup)
  {
  }
}
