/**
 * The older graph builder of `OnLock/Models/Graph.swift`: every track point
 * is snapped to the source of the nearest segment of the graph built so far,
 * with no bounding-box pre-filter, and the snapped points are joined in a
 * cycle.
 */
module LegacyGraph {
  import opened Geo
  import opened Graphs
  import Tracks

  /** The snapping tolerance in metres. */
  const Epsilon: real := 7.0

  /**
   * `allSegments`: one segment region per stored destination, its box the
   * union of the two endpoints without padding.
   */
  function AllSegments(a: Adjacency): (r: seq<BoundedSegment>)
    requires WellFormed(a)
    ensures |r| == |Segments(a)| == TotalDestinations(a)
    ensures forall i :: 0 <= i < |r| ==> r[i].segment == Segments(a)[i]
    ensures forall i :: 0 <= i < |r| ==> r[i].box == Box(r[i].segment.source, r[i].segment.destination, 0.0)
  {
    SegmentsCount(a);
    var ss := Segments(a);
    seq(|ss|, i requires 0 <= i < |ss| => BoundedSegment(ss[i], Box(ss[i].source, ss[i].destination, 0.0)))
  }

  /** The graph's segments are exactly its edges. */
  lemma AllSegmentsMembership(a: Adjacency, s: Segment)
    requires WellFormed(a)
    ensures (exists i :: 0 <= i < |AllSegments(a)| && AllSegments(a)[i].segment == s)
        <==> IsEdge(a.edges, s.source, s.destination)
  {
    SegmentsMembership(a, s);
    var r := AllSegments(a);
    if IsEdge(a.edges, s.source, s.destination) {
      var i :| 0 <= i < |Segments(a)| && Segments(a)[i] == s;
      assert r[i].segment == s;
    }
  }

  /**
   * `closeEnough(to:)`: c itself for an empty list; otherwise the source of
   * the first nearest segment when it is strictly closer than `Epsilon`,
   * and c when it is not.
   */
  function CloseEnough(geom: Geometry, segs: seq<BoundedSegment>, c: Coordinate): (r: Coordinate)
    ensures segs == [] ==> r == c
    ensures (forall i :: 0 <= i < |segs| ==> geom.segmentDistance(c, segs[i].segment) >= Epsilon) ==> r == c
    ensures (exists i :: 0 <= i < |segs| && geom.segmentDistance(c, segs[i].segment) < Epsilon) ==>
              exists k :: IsFirstNearest(geom, segs, c, k)
                       && geom.segmentDistance(c, segs[k].segment) < Epsilon
                       && r == segs[k].segment.source
  {
    if segs == [] then c
    else
      var ds := DistancesTo(geom, segs, c);
      var k := FirstMin(ds);
      assert IsFirstNearest(geom, segs, c, k);
      if ds[k] < Epsilon then segs[k].segment.source else c
  }

  /** Both ends of each pair snapped against the same segments. */
  function Snapped(geom: Geometry, segs: seq<BoundedSegment>, pairs: seq<(Coordinate, Coordinate)>): (r: seq<(Coordinate, Coordinate)>)
    ensures |r| == |pairs|
    ensures forall k :: 0 <= k < |pairs| ==>
              r[k] == (CloseEnough(geom, segs, pairs[k].0), CloseEnough(geom, segs, pairs[k].1))
  {
    seq(|pairs|, k requires 0 <= k < |pairs| =>
      (CloseEnough(geom, segs, pairs[k].0), CloseEnough(geom, segs, pairs[k].1)))
  }

  /** The edges one track adds: its cycle, snapped against all segments of the graph so far. */
  function TrackEdges(geom: Geometry, a: Adjacency, t: Tracks.Track): seq<(Coordinate, Coordinate)>
    requires WellFormed(a) && |t.coordinates| > 0
  {
    var cs := Coordinates(t);
    Snapped(geom, AllSegments(a), TrackPairs(cs))
  }

  /** The graph after the body of `for track in tracks` has run for every track. */
  function Built(geom: Geometry, tracks: seq<Tracks.Track>): (r: Adjacency)
    requires NonEmptyTracks(tracks)
    ensures WellFormed(r)
  {
    if tracks == [] then Empty()
    else
      var before := Built(geom, tracks[..|tracks| - 1]);
      AddAll(before, geom, TrackEdges(geom, before, tracks[|tracks| - 1]))
  }

  /**
   * A track of n points adds n edges, the k-th from the snapped point k to
   * the snapped point k + 1 (the last to the first), snapped against every
   * segment of the graph as it was before the track.
   */
  lemma TrackEdgesCycle(geom: Geometry, a: Adjacency, t: Tracks.Track)
    requires WellFormed(a) && |t.coordinates| > 0
    ensures var n := |t.coordinates|;
            var es := TrackEdges(geom, a, t);
            && |es| == n
            && forall k :: 0 <= k < n ==>
                 es[k] == (CloseEnough(geom, AllSegments(a), t.coordinates[k].coordinate),
                           CloseEnough(geom, AllSegments(a), t.coordinates[(k + 1) % n].coordinate))
  {
  }

  /**
   * Nothing is snapped on an empty graph, so the graph of a single track is
   * its raw cycle of coordinates.
   */
  lemma FirstTrackIsRawCycle(geom: Geometry, t: Tracks.Track)
    requires |t.coordinates| > 0
    ensures NonEmptyTracks([t])
    ensures Built(geom, [t]) == AddAll(Empty(), geom, TrackPairs(Coordinates(t)))
  {
    var pairs := TrackPairs(Coordinates(t));
    assert [t][..0] == [];
    assert AllSegments(Empty()) == [];
    assert TrackEdges(geom, Empty(), t) == pairs;
  }

  /** Each vertex of the single-track graph leads to the following point of the track. */
  lemma FirstTrackDestinations(geom: Geometry, t: Tracks.Track, c: Coordinate)
    requires |t.coordinates| > 0
    ensures NonEmptyTracks([t])
    ensures DestinationsOf(Built(geom, [t]), c)
         == Select(AsDestinations(geom, TrackPairs(Coordinates(t))), c)
  {
    FirstTrackIsRawCycle(geom, t);
    AddAllDestinations(Empty(), geom, TrackPairs(Coordinates(t)), c);
  }

  /** The built graph holds one destination per track point. */
  lemma {:induction false} BuiltCount(geom: Geometry, tracks: seq<Tracks.Track>)
    requires NonEmptyTracks(tracks)
    ensures TotalDestinations(Built(geom, tracks)) == TotalPoints(tracks)
    decreases |tracks|
  {
    if tracks != [] {
      var init := tracks[..|tracks| - 1];
      var before := Built(geom, init);
      var es := TrackEdges(geom, before, tracks[|tracks| - 1]);
      assert Built(geom, tracks) == AddAll(before, geom, es);
      assert |es| == |tracks[|tracks| - 1].coordinates|;
      BuiltCount(geom, init);
      AddAllCount(before, geom, es);
    }
  }

  /** One more track adds its edges to the graph built from the tracks before it. */
  lemma BuiltStep(geom: Geometry, tracks: seq<Tracks.Track>, i: nat)
    requires NonEmptyTracks(tracks) && i < |tracks|
    ensures NonEmptyTracks(tracks[..i]) && NonEmptyTracks(tracks[..i + 1])
    ensures Built(geom, tracks[..i + 1])
         == AddAll(Built(geom, tracks[..i]), geom, TrackEdges(geom, Built(geom, tracks[..i]), tracks[i]))
  {
    assert tracks[..i + 1][..i] == tracks[..i];
  }

  /** The body of `for (from, to) in zip(...)`: one snapped edge per pair. */
  method AddSnappedEdges(graph: Graph, geom: Geometry, segments: seq<BoundedSegment>, pairs: seq<(Coordinate, Coordinate)>)
    requires graph.Valid()
    modifies graph
    ensures graph.Valid()
    ensures graph.Value() == AddAll(old(graph.Value()), geom, Snapped(geom, segments, pairs))
  {
    ghost var before := graph.Value();
    ghost var snapped := Snapped(geom, segments, pairs);
    for k := 0 to |pairs|
      invariant graph.Valid()
      invariant graph.Value() == AddAll(before, geom, snapped[..k])
    {
      var from := CloseEnough(geom, segments, pairs[k].0);
      var to := CloseEnough(geom, segments, pairs[k].1);
      assert snapped[k] == (from, to);
      TakeSnoc(snapped, k);
      AddAllSnoc(before, geom, snapped[..k], from, to);
      graph.AddEdge(geom, from, to);
    }
    assert snapped[..|pairs|] == snapped;
  }

  /** The body of `for track in tracks`: the track's snapped cycle joins the graph. */
  method AddTrack(graph: Graph, geom: Geometry, track: Tracks.Track)
    requires graph.Valid() && |track.coordinates| > 0
    modifies graph
    ensures graph.Valid()
    ensures graph.Value() == AddAll(old(graph.Value()), geom, TrackEdges(geom, old(graph.Value()), track))
  {
    var cs := Coordinates(track);
    var segments := AllSegments(graph.Value());
    AddSnappedEdges(graph, geom, segments, TrackPairs(cs));
  }

  /** One round of the outer loop: the graph of i tracks becomes that of i + 1. */
  method BuildStep(graph: Graph, geom: Geometry, tracks: seq<Tracks.Track>, i: nat)
    requires NonEmptyTracks(tracks) && i < |tracks| && NonEmptyTracks(tracks[..i])
    requires graph.Valid() && graph.Value() == Built(geom, tracks[..i])
    modifies graph
    ensures NonEmptyTracks(tracks[..i + 1])
    ensures graph.Valid() && graph.Value() == Built(geom, tracks[..i + 1])
  {
    BuiltStep(geom, tracks, i);
    AddTrack(graph, geom, tracks[i]);
  }

  /**
   * `build(from:)`: starting from the empty graph, each track adds its
   * snapped cycle of edges, the segments taken once before the track.
   */
  method Build(geom: Geometry, tracks: seq<Tracks.Track>) returns (graph: Graph)
    requires NonEmptyTracks(tracks)
    ensures fresh(graph) && graph.Valid()
    ensures graph.Value() == Built(geom, tracks)
  {
    graph := new Graph();
    assert tracks[..0] == [];
    for i := 0 to |tracks|
      invariant NonEmptyTracks(tracks[..i])
      invariant graph.Valid()
      invariant graph.Value() == Built(geom, tracks[..i])
    {
      BuildStep(graph, geom, tracks, i);
    }
    assert tracks[..|tracks|] == tracks;
  }
}
