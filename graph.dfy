/**
 * The trail graph: a dictionary from a vertex coordinate to its outgoing
 * destinations, each carrying the distance computed when the edge was
 * added. Swift leaves the iteration order of a dictionary unspecified; the
 * model fixes it to the order in which keys were first inserted, kept in
 * `order`.
 */
module Graphs {
  import opened Geo
  import Tracks

  /** One outgoing edge: its end and its length. */
  datatype Destination = Destination(coordinate: Coordinate, distance: Distance)

  /** The graph's dictionary as a value, with its key order. */
  datatype Adjacency = Adjacency(edges: map<Coordinate, seq<Destination>>, order: seq<Coordinate>)

  /** The keys are listed once each, and only the keys are listed. */
  predicate WellFormed(a: Adjacency)
  {
    && (forall i, j :: 0 <= i < j < |a.order| ==> a.order[i] != a.order[j])
    && (forall c :: c in a.edges ==> c in a.order)
    && (forall i :: 0 <= i < |a.order| ==> a.order[i] in a.edges)
  }

  function Empty(): (a: Adjacency)
    ensures WellFormed(a)
  {
    Adjacency(map[], [])
  }

  /** `edges[c] ?? []`. */
  function DestinationsOf(a: Adjacency, c: Coordinate): seq<Destination>
  {
    if c in a.edges then a.edges[c] else []
  }

  /** `addEdge(from:to:)` on the value. */
  function WithEdge(a: Adjacency, geom: Geometry, from: Coordinate, to: Coordinate): (r: Adjacency)
    requires WellFormed(a)
    ensures WellFormed(r)
  {
    var d := Destination(to, geom.distance(from, to));
    Adjacency(a.edges[from := DestinationsOf(a, from) + [d]],
              if from in a.edges then a.order else a.order + [from])
  }

  /**
   * Adding an edge appends exactly one destination, with the distance of
   * its endpoints, to the list of `from` (empty when `from` was absent) and
   * changes no other list.
   */
  lemma WithEdgeDestinations(a: Adjacency, geom: Geometry, from: Coordinate, to: Coordinate, c: Coordinate)
    requires WellFormed(a)
    ensures DestinationsOf(WithEdge(a, geom, from, to), c)
         == DestinationsOf(a, c) + (if c == from then [Destination(to, geom.distance(from, to))] else [])
    ensures c in WithEdge(a, geom, from, to).edges <==> c in a.edges || c == from
  {
  }

  /** The number of destinations stored under the given keys. */
  function CountUnder(edges: map<Coordinate, seq<Destination>>, keys: seq<Coordinate>): nat
  {
    if keys == [] then 0
    else (if keys[0] in edges then |edges[keys[0]]| else 0) + CountUnder(edges, keys[1..])
  }

  /** The number of destinations in the graph. */
  function TotalDestinations(a: Adjacency): nat
  {
    CountUnder(a.edges, a.order)
  }

  lemma {:induction false} CountUnderAppend(edges: map<Coordinate, seq<Destination>>, keys: seq<Coordinate>, k: Coordinate)
    ensures CountUnder(edges, keys + [k]) == CountUnder(edges, keys) + (if k in edges then |edges[k]| else 0)
    decreases |keys|
  {
    if keys == [] {
      assert [] + [k] == [k];
    } else {
      assert (keys + [k])[1..] == keys[1..] + [k];
      CountUnderAppend(edges, keys[1..], k);
    }
  }

  /** Updating one key changes the count by the change of that key's list, when it is listed once. */
  lemma {:induction false} CountUnderUpdate(edges: map<Coordinate, seq<Destination>>, keys: seq<Coordinate>, k: Coordinate, v: seq<Destination>)
    requires forall i, j :: 0 <= i < j < |keys| ==> keys[i] != keys[j]
    ensures k !in keys ==> CountUnder(edges[k := v], keys) == CountUnder(edges, keys)
    ensures k in keys && k in edges ==> CountUnder(edges[k := v], keys) + |edges[k]| == CountUnder(edges, keys) + |v|
    ensures k in keys && k !in edges ==> CountUnder(edges[k := v], keys) == CountUnder(edges, keys) + |v|
    decreases |keys|
  {
    if keys != [] {
      CountUnderUpdate(edges, keys[1..], k, v);
      if keys[0] == k {
        assert k !in keys[1..] by {
          forall i | 0 <= i < |keys[1..]| ensures keys[1..][i] != k {
            assert keys[1..][i] == keys[i + 1];
          }
        }
      }
    }
  }

  /** Every added edge adds one destination. */
  lemma WithEdgeCount(a: Adjacency, geom: Geometry, from: Coordinate, to: Coordinate)
    requires WellFormed(a)
    ensures TotalDestinations(WithEdge(a, geom, from, to)) == TotalDestinations(a) + 1
  {
    var v := DestinationsOf(a, from) + [Destination(to, geom.distance(from, to))];
    CountUnderUpdate(a.edges, a.order, from, v);
    if from !in a.edges {
      CountUnderAppend(a.edges[from := v], a.order, from);
    }
  }

  /** The segments (source, destination) of the destinations under the given keys, key by key. */
  function SegmentsUnder(edges: map<Coordinate, seq<Destination>>, keys: seq<Coordinate>): seq<Segment>
  {
    if keys == [] then []
    else
      var ds := if keys[0] in edges then edges[keys[0]] else [];
      seq(|ds|, i requires 0 <= i < |ds| => Segment(keys[0], ds[i].coordinate)) + SegmentsUnder(edges, keys[1..])
  }

  /** One segment per stored destination, in dictionary order (the `flatMap` of `allSegments`). */
  function Segments(a: Adjacency): seq<Segment>
  {
    SegmentsUnder(a.edges, a.order)
  }

  lemma {:induction false} SegmentsUnderCount(edges: map<Coordinate, seq<Destination>>, keys: seq<Coordinate>)
    ensures |SegmentsUnder(edges, keys)| == CountUnder(edges, keys)
    decreases |keys|
  {
    if keys != [] {
      SegmentsUnderCount(edges, keys[1..]);
    }
  }

  /** There are as many segments as destinations. */
  lemma SegmentsCount(a: Adjacency)
    ensures |Segments(a)| == TotalDestinations(a)
  {
    SegmentsUnderCount(a.edges, a.order);
  }

  /** `b` is the coordinate of one of the destinations of `a`. */
  predicate IsEdge(edges: map<Coordinate, seq<Destination>>, a: Coordinate, b: Coordinate)
  {
    a in edges && exists j :: 0 <= j < |edges[a]| && edges[a][j].coordinate == b
  }

  lemma {:induction false} SegmentsUnderMembership(edges: map<Coordinate, seq<Destination>>, keys: seq<Coordinate>, s: Segment)
    ensures s in SegmentsUnder(edges, keys) <==> s.source in keys && IsEdge(edges, s.source, s.destination)
    decreases |keys|
  {
    if keys != [] {
      SegmentsUnderMembership(edges, keys[1..], s);
      var ds := if keys[0] in edges then edges[keys[0]] else [];
      var head := seq(|ds|, i requires 0 <= i < |ds| => Segment(keys[0], ds[i].coordinate));
      assert SegmentsUnder(edges, keys) == head + SegmentsUnder(edges, keys[1..]);
      if s in head {
        var i :| 0 <= i < |head| && head[i] == s;
        assert edges[keys[0]][i].coordinate == s.destination;
      }
      if s.source == keys[0] && IsEdge(edges, s.source, s.destination) {
        var j :| 0 <= j < |edges[s.source]| && edges[s.source][j].coordinate == s.destination;
        assert head[j] == s;
      }
    }
  }

  /** A segment is listed exactly when it is an edge of the graph. */
  lemma SegmentsMembership(a: Adjacency, s: Segment)
    requires WellFormed(a)
    ensures s in Segments(a) <==> IsEdge(a.edges, s.source, s.destination)
  {
    SegmentsUnderMembership(a.edges, a.order, s);
  }

  /** The destinations whose source is c, in order. */
  function Select(list: seq<(Coordinate, Destination)>, c: Coordinate): seq<Destination>
  {
    if list == [] then []
    else Select(list[..|list| - 1], c) + (if list[|list| - 1].0 == c then [list[|list| - 1].1] else [])
  }

  /** Adds the edges of a list in order. */
  function AddAll(a: Adjacency, geom: Geometry, list: seq<(Coordinate, Coordinate)>): (r: Adjacency)
    requires WellFormed(a)
    ensures WellFormed(r)
  {
    if list == [] then a
    else WithEdge(AddAll(a, geom, list[..|list| - 1]), geom, list[|list| - 1].0, list[|list| - 1].1)
  }

  /** Adding one more edge after a list is `addEdge` on the result. */
  lemma AddAllSnoc(a: Adjacency, geom: Geometry, list: seq<(Coordinate, Coordinate)>, from: Coordinate, to: Coordinate)
    requires WellFormed(a)
    ensures AddAll(a, geom, list + [(from, to)]) == WithEdge(AddAll(a, geom, list), geom, from, to)
  {
    assert (list + [(from, to)])[..|list|] == list;
  }

  /** A prefix one longer is the prefix followed by the next element. */
  lemma TakeSnoc<T>(s: seq<T>, k: nat)
    requires k < |s|
    ensures s[..k + 1] == s[..k] + [s[k]]
  {
  }

  /** The destinations an edge list stores. */
  function AsDestinations(geom: Geometry, list: seq<(Coordinate, Coordinate)>): (r: seq<(Coordinate, Destination)>)
    ensures |r| == |list|
    ensures forall i :: 0 <= i < |list| ==>
              r[i] == (list[i].0, Destination(list[i].1, geom.distance(list[i].0, list[i].1)))
  {
    seq(|list|, i requires 0 <= i < |list| => (list[i].0, Destination(list[i].1, geom.distance(list[i].0, list[i].1))))
  }

  /**
   * Adding a list of edges appends, to each vertex's list, the destinations
   * of the list's edges leaving it, in list order; nothing else changes.
   */
  lemma {:induction false} AddAllDestinations(a: Adjacency, geom: Geometry, list: seq<(Coordinate, Coordinate)>, c: Coordinate)
    requires WellFormed(a)
    ensures DestinationsOf(AddAll(a, geom, list), c) == DestinationsOf(a, c) + Select(AsDestinations(geom, list), c)
    decreases |list|
  {
    if list != [] {
      var init := list[..|list| - 1];
      var e := list[|list| - 1];
      var before := AddAll(a, geom, init);
      var x: seq<Destination> := if e.0 == c then [Destination(e.1, geom.distance(e.0, e.1))] else [];
      var p := DestinationsOf(a, c);
      var q := Select(AsDestinations(geom, init), c);
      AddAllDestinations(a, geom, init, c);
      assert DestinationsOf(before, c) == p + q;
      WithEdgeDestinations(before, geom, e.0, e.1, c);
      assert DestinationsOf(AddAll(a, geom, list), c) == (p + q) + x;
      SelectLast(geom, list, c);
      assert Select(AsDestinations(geom, list), c) == q + x;
      ConcatAssoc(p, q, x);
    }
  }

  lemma ConcatAssoc(p: seq<Destination>, q: seq<Destination>, x: seq<Destination>)
    ensures (p + q) + x == p + (q + x)
  {
  }

  /** The last edge of a list contributes to the selection of its source only. */
  lemma SelectLast(geom: Geometry, list: seq<(Coordinate, Coordinate)>, c: Coordinate)
    requires list != []
    ensures var e := list[|list| - 1];
            Select(AsDestinations(geom, list), c)
            == Select(AsDestinations(geom, list[..|list| - 1]), c)
               + (if e.0 == c then [Destination(e.1, geom.distance(e.0, e.1))] else [])
  {
    var ds := AsDestinations(geom, list);
    assert ds[..|ds| - 1] == AsDestinations(geom, list[..|list| - 1]);
  }

  /** Adding a list of edges adds one destination per edge. */
  lemma {:induction false} AddAllCount(a: Adjacency, geom: Geometry, list: seq<(Coordinate, Coordinate)>)
    requires WellFormed(a)
    ensures TotalDestinations(AddAll(a, geom, list)) == TotalDestinations(a) + |list|
    decreases |list|
  {
    if list != [] {
      var init := list[..|list| - 1];
      AddAllCount(a, geom, init);
      WithEdgeCount(AddAll(a, geom, init), geom, list[|list| - 1].0, list[|list| - 1].1);
    }
  }

  /** A segment with the map rectangle used to decide whether a point is near it. */
  datatype BoundedSegment = BoundedSegment(segment: Segment, box: Box)

  /** The index of the first minimum: `min(by: <)` keeps the earlier of equal elements. */
  function FirstMin(ds: seq<real>): (k: nat)
    requires ds != []
    ensures k < |ds|
    ensures forall j :: 0 <= j < |ds| ==> ds[k] <= ds[j]
    ensures forall j :: 0 <= j < k ==> ds[j] > ds[k]
  {
    if |ds| == 1 then 0
    else
      var k := FirstMin(ds[..|ds| - 1]);
      if ds[|ds| - 1] < ds[k] then |ds| - 1 else k
  }

  /** The distance from c to each of the segments. */
  function DistancesTo(geom: Geometry, segs: seq<BoundedSegment>, c: Coordinate): (ds: seq<real>)
    ensures |ds| == |segs|
    ensures forall i :: 0 <= i < |segs| ==> ds[i] == geom.segmentDistance(c, segs[i].segment)
  {
    seq(|segs|, i requires 0 <= i < |segs| => geom.segmentDistance(c, segs[i].segment))
  }

  /** k is the first segment of f at the least distance from c. */
  predicate IsFirstNearest(geom: Geometry, f: seq<BoundedSegment>, c: Coordinate, k: int)
  {
    && 0 <= k < |f|
    && (forall j :: 0 <= j < |f| ==> geom.segmentDistance(c, f[k].segment) <= geom.segmentDistance(c, f[j].segment))
    && (forall j :: 0 <= j < k ==> geom.segmentDistance(c, f[j].segment) > geom.segmentDistance(c, f[k].segment))
  }

  /** The coordinates of a track's points. */
  function Coordinates(t: Tracks.Track): (cs: seq<Coordinate>)
    ensures |cs| == |t.coordinates|
    ensures forall i :: 0 <= i < |cs| ==> cs[i] == t.coordinates[i].coordinate
  {
    seq(|t.coordinates|, i requires 0 <= i < |t.coordinates| => t.coordinates[i].coordinate)
  }

  /**
   * `zip(cs, cs.dropFirst() + [cs[0]])`: each point with the next one, and
   * the last point with the first.
   */
  function TrackPairs(cs: seq<Coordinate>): (r: seq<(Coordinate, Coordinate)>)
    requires cs != []
    ensures |r| == |cs|
    ensures forall k :: 0 <= k < |cs| ==> r[k] == (cs[k], cs[(k + 1) % |cs|])
  {
    var shifted := cs[1..] + [cs[0]];
    forall k | 0 <= k < |cs| ensures shifted[k] == cs[(k + 1) % |cs|] {
      NextIndex(k, |cs|);
    }
    seq(|cs|, k requires 0 <= k < |cs| => (cs[k], shifted[k]))
  }

  /** The index after k in a cycle of n. */
  lemma NextIndex(k: int, n: int)
    requires 0 <= k < n
    ensures (k + 1) % n == if k < n - 1 then k + 1 else 0
  {
  }

  /** The total number of points of the tracks. */
  function TotalPoints(tracks: seq<Tracks.Track>): nat
  {
    if tracks == [] then 0
    else TotalPoints(tracks[..|tracks| - 1]) + |tracks[|tracks| - 1].coordinates|
  }

  /** Every track has a point: `coordinates[0]` traps on an empty track. */
  predicate NonEmptyTracks(tracks: seq<Tracks.Track>)
  {
    forall i :: 0 <= i < |tracks| ==> |tracks[i].coordinates| > 0
  }

  /** `var graph = Graph()`: the graph struct, whose dictionary `addEdge` updates in place. */
  class Graph {
    var edges: map<Coordinate, seq<Destination>>
    var order: seq<Coordinate>

    function Value(): Adjacency
      reads this
    {
      Adjacency(edges, order)
    }

    predicate Valid()
      reads this
    {
      WellFormed(Value())
    }

    constructor ()
      ensures Valid() && Value() == Empty()
    {
      edges, order := map[], [];
    }

    /** `addEdge(from:to:)`: appends one destination to `edges[from, default: []]`. */
    method AddEdge(geom: Geometry, from: Coordinate, to: Coordinate)
      requires Valid()
      modifies this
      ensures Valid()
      ensures Value() == WithEdge(old(Value()), geom, from, to)
    {
      var distance := geom.distance(from, to);
      if from !in edges {
        order := order + [from];
      }
      edges := edges[from := (if from in edges then edges[from] else []) + [Destination(to, distance)]];
    }
  }
}
