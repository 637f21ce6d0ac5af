/** The incoming pairs of a node, said by where the declared edges name it. */
module EdgePlaces {
  import opened Topology
  import opened Routing
  import opened Dispatch

  /** The target-th target of the edge-th edge out of the source-th node. */
  datatype Place = Place(source: nat, edge: nat, target: nat)

  predicate Before(p: Place, q: Place) {
    p.source < q.source || (p.source == q.source && (p.edge < q.edge || (p.edge == q.edge && p.target < q.target)))
  }

  predicate IsPlaceOf(g: AgentGroup, node: Agent, p: Place) {
    && p.source < |g.nodes| && p.edge < |EdgesOf(g, g.nodes[p.source])|
    && p.target < |EdgesOf(g, g.nodes[p.source])[p.edge].to|
    && EdgesOf(g, g.nodes[p.source])[p.edge].to[p.target] == node
  }

  /** Source and edge of the pairs are those of the places, which come in declaration order and are all up to the end. */
  ghost predicate PairsAtPlaces(g: AgentGroup, node: Agent, pairs: seq<Pair>, places: seq<Place>, end: Place) {
    && |places| == |pairs|
    && (forall i, j :: 0 <= i < j < |places| ==> Before(places[i], places[j]))
    && (forall p :: p in places <==> IsPlaceOf(g, node, p) && Before(p, end))
    && (forall i :: 0 <= i < |places| ==>
          IsPlaceOf(g, node, places[i]) &&
          pairs[i] == (g.nodes[places[i].source], EdgesOf(g, g.nodes[places[i].source])[places[i].edge]))
  }

  lemma OneMorePlace(g: AgentGroup, node: Agent, pairs: seq<Pair>, places: seq<Place>, p: Place)
    requires PairsAtPlaces(g, node, pairs, places, p) && IsPlaceOf(g, node, p)
    ensures PairsAtPlaces(g, node, pairs + [(g.nodes[p.source], EdgesOf(g, g.nodes[p.source])[p.edge])], places + [p],
                          p.(target := p.target + 1))
  {
    forall i | 0 <= i < |places|
      ensures Before(places[i], p)
    {
      assert places[i] in places;
    }
    forall q
      ensures q in places + [p] <==> IsPlaceOf(g, node, q) && Before(q, p.(target := p.target + 1))
    {
      assert Before(q, p.(target := p.target + 1)) <==> Before(q, p) || q == p;
    }
  }

  lemma SamePlaces(g: AgentGroup, node: Agent, pairs: seq<Pair>, places: seq<Place>, end: Place, end': Place)
    requires PairsAtPlaces(g, node, pairs, places, end)
    requires forall p :: IsPlaceOf(g, node, p) ==> (Before(p, end) <==> Before(p, end'))
    ensures PairsAtPlaces(g, node, pairs, places, end')
  {
  }

  lemma {:induction false} PlacesAlong(g: AgentGroup, node: Agent, pairs: seq<Pair>, places: seq<Place>, i: nat, j: nat, n: nat)
    returns (more: seq<Place>)
    requires i < |g.nodes| && j < |EdgesOf(g, g.nodes[i])| && n <= |EdgesOf(g, g.nodes[i])[j].to|
    requires PairsAtPlaces(g, node, pairs, places, Place(i, j, 0))
    ensures PairsAtPlaces(g, node, pairs + PairsAlong(g.nodes[i], EdgesOf(g, g.nodes[i])[j], n, node), more, Place(i, j, n))
  {
    var edge := EdgesOf(g, g.nodes[i])[j];
    if n == 0 {
      more := places;
      assert pairs + [] == pairs;
    } else {
      more := PlacesAlong(g, node, pairs, places, i, j, n - 1);
      var before := pairs + PairsAlong(g.nodes[i], edge, n - 1, node);
      if edge.to[n - 1] == node {
        OneMorePlace(g, node, before, more, Place(i, j, n - 1));
        more := more + [Place(i, j, n - 1)];
        assert pairs + PairsAlong(g.nodes[i], edge, n, node) == before + [(g.nodes[i], edge)];
      } else {
        SamePlaces(g, node, before, more, Place(i, j, n - 1), Place(i, j, n));
        assert pairs + PairsAlong(g.nodes[i], edge, n, node) == before;
      }
    }
  }

  lemma {:induction false} PlacesFrom(g: AgentGroup, node: Agent, pairs: seq<Pair>, places: seq<Place>, i: nat, n: nat)
    returns (more: seq<Place>)
    requires i < |g.nodes| && n <= |EdgesOf(g, g.nodes[i])|
    requires PairsAtPlaces(g, node, pairs, places, Place(i, 0, 0))
    ensures PairsAtPlaces(g, node, pairs + PairsFrom(g.nodes[i], EdgesOf(g, g.nodes[i]), n, node), more, Place(i, n, 0))
  {
    var edges := EdgesOf(g, g.nodes[i]);
    if n == 0 {
      more := places;
      assert pairs + [] == pairs;
    } else {
      more := PlacesFrom(g, node, pairs, places, i, n - 1);
      var before := pairs + PairsFrom(g.nodes[i], edges, n - 1, node);
      var width := |edges[n - 1].to|;
      more := PlacesAlong(g, node, before, more, i, n - 1, width);
      var after := before + PairsAlong(g.nodes[i], edges[n - 1], width, node);
      SamePlaces(g, node, after, more, Place(i, n - 1, width), Place(i, n, 0));
      assert pairs + PairsFrom(g.nodes[i], edges, n, node) == after;
    }
  }

  lemma {:induction false} PlacesInto(g: AgentGroup, node: Agent, n: nat) returns (places: seq<Place>)
    requires n <= |g.nodes|
    ensures PairsAtPlaces(g, node, PairsInto(g, n, node), places, Place(n, 0, 0))
  {
    if n == 0 {
      places := [];
    } else {
      places := PlacesInto(g, node, n - 1);
      var width := |EdgesOf(g, g.nodes[n - 1])|;
      var before := PairsInto(g, n - 1, node);
      places := PlacesFrom(g, node, before, places, n - 1, width);
      SamePlaces(g, node, PairsInto(g, n, node), places, Place(n - 1, width, 0), Place(n, 0, 0));
    }
  }

  /** The pairs into a node are those of every place that names it as a target, once each, in declaration order. */
  lemma IncomingIsEveryPlace(g: AgentGroup, node: Agent) returns (places: seq<Place>)
    ensures |places| == |Incoming(g, node)|
    ensures forall i, j :: 0 <= i < j < |places| ==> Before(places[i], places[j])
    ensures forall p :: p in places <==> IsPlaceOf(g, node, p)
    ensures forall i :: 0 <= i < |places| ==>
              && IsPlaceOf(g, node, places[i])
              && Incoming(g, node)[i] == (g.nodes[places[i].source], EdgesOf(g, g.nodes[places[i].source])[places[i].edge])
  {
    places := PlacesInto(g, node, |g.nodes|);
  }
}
