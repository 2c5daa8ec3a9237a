/**
 * The graph builder of `OnLock/Graph.swift`: each track point is snapped to
 * the source of the nearest earlier segment whose padded box contains it,
 * among the segments whose box meets the track's bounding rectangle, and
 * the snapped points are joined in a cycle.
 */
module TrailGraph {
  import opened Geo
  import opened Graphs
  import Tracks

  /** The snapping tolerance in metres. */
  const Epsilon: real := 7.0

  /**
   * `allSegments`: one bounded segment per stored destination, its box the
   * two endpoints padded by `Epsilon` metres worth of map points at the
   * latitude of the first key; nothing for an empty graph.
   */
  function AllSegments(geom: Geometry, a: Adjacency): (r: seq<BoundedSegment>)
    requires WellFormed(a)
    ensures a.edges == map[] ==> r == []
    ensures |r| == |Segments(a)| == TotalDestinations(a)
    ensures forall i :: 0 <= i < |r| ==> r[i].segment == Segments(a)[i]
    ensures forall i :: 0 <= i < |r| ==>
              r[i].box == Box(r[i].segment.source, r[i].segment.destination,
                              geom.pointsPerMeter(a.order[0].latitude) * Epsilon)
  {
    SegmentsCount(a);
    if a.order == [] then
      assert a.edges == map[] by {
        if c :| c in a.edges {
          assert false;
        }
      }
      []
    else
      var inset := geom.pointsPerMeter(a.order[0].latitude) * Epsilon;
      var ss := Segments(a);
      seq(|ss|, i requires 0 <= i < |ss| => BoundedSegment(ss[i], Box(ss[i].source, ss[i].destination, inset)))
  }

  /** Every edge of the graph appears among the bounded segments, and nothing else. */
  lemma AllSegmentsMembership(geom: Geometry, a: Adjacency, s: Segment)
    requires WellFormed(a)
    ensures (exists i :: 0 <= i < |AllSegments(geom, a)| && AllSegments(geom, a)[i].segment == s)
        <==> IsEdge(a.edges, s.source, s.destination)
  {
    SegmentsMembership(a, s);
    var r := AllSegments(geom, a);
    if IsEdge(a.edges, s.source, s.destination) {
      var i :| 0 <= i < |Segments(a)| && Segments(a)[i] == s;
      assert r[i].segment == s;
    }
  }

  /** `filter` keeps, in order, the elements satisfying p. */
  function Filter(s: seq<BoundedSegment>, p: BoundedSegment -> bool): (r: seq<BoundedSegment>)
    ensures |r| <= |s|
    ensures forall x :: x in r <==> x in s && p(x)
    ensures |s| == 1 ==> r == (if p(s[0]) then s else [])
  {
    if s == [] then []
    else Filter(s[..|s| - 1], p) + (if p(s[|s| - 1]) then [s[|s| - 1]] else [])
  }

  /**
   * Filtering distributes over concatenation; with the one-element case
   * this says the kept elements stay in their order.
   */
  lemma {:induction false} FilterConcat(a: seq<BoundedSegment>, b: seq<BoundedSegment>, p: BoundedSegment -> bool)
    ensures Filter(a + b, p) == Filter(a, p) + Filter(b, p)
    decreases |b|
  {
    if b == [] {
      assert a + b == a;
    } else {
      var b', e := b[..|b| - 1], b[|b| - 1];
      var tail := if p(e) then [e] else [];
      assert (a + b)[..|a + b| - 1] == a + b';
      assert (a + b)[|a + b| - 1] == e;
      calc {
        Filter(a + b, p);
        Filter(a + b', p) + tail;
        { FilterConcat(a, b', p); }
        (Filter(a, p) + Filter(b', p)) + tail;
        Filter(a, p) + (Filter(b', p) + tail);
        Filter(a, p) + Filter(b, p);
      }
    }
  }

  /** Each kept element is kept as often as it occurs. */
  lemma {:induction false} FilterCounts(s: seq<BoundedSegment>, p: BoundedSegment -> bool, x: BoundedSegment)
    ensures multiset(Filter(s, p))[x] == if p(x) then multiset(s)[x] else 0
    decreases |s|
  {
    if s != [] {
      var s', e := s[..|s| - 1], s[|s| - 1];
      assert s == s' + [e];
      FilterCounts(s', p, x);
    }
  }

  /** The segments whose box contains c. */
  function Containing(geom: Geometry, segs: seq<BoundedSegment>, c: Coordinate): seq<BoundedSegment>
  {
    Filter(segs, (s: BoundedSegment) => geom.contains(s.box, c))
  }

  /**
   * `closeEnough(to:)`: among the segments whose box contains c, the first
   * nearest one; its source when it is strictly closer than `Epsilon`, and
   * c itself otherwise or when no box contains c.
   */
  function CloseEnough(geom: Geometry, segs: seq<BoundedSegment>, c: Coordinate): (r: Coordinate)
    ensures var f := Containing(geom, segs, c);
            (forall i :: 0 <= i < |f| ==> geom.segmentDistance(c, f[i].segment) >= Epsilon) ==> r == c
    ensures var f := Containing(geom, segs, c);
            (exists i :: 0 <= i < |f| && geom.segmentDistance(c, f[i].segment) < Epsilon) ==>
              exists k :: IsFirstNearest(geom, f, c, k)
                       && geom.segmentDistance(c, f[k].segment) < Epsilon
                       && r == f[k].segment.source
  {
    var f := Containing(geom, segs, c);
    if f == [] then c
    else
      var ds := DistancesTo(geom, f, c);
      var k := FirstMin(ds);
      assert IsFirstNearest(geom, f, c, k);
      if ds[k] < Epsilon then f[k].segment.source else c
  }

  /** A point that no box contains is kept as it is. */
  lemma CloseEnoughOutsideEveryBox(geom: Geometry, segs: seq<BoundedSegment>, c: Coordinate)
    requires forall i :: 0 <= i < |segs| ==> !geom.contains(segs[i].box, c)
    ensures CloseEnough(geom, segs, c) == c
  {
    FilterRejectsAll(segs, (s: BoundedSegment) => geom.contains(s.box, c));
  }

  /** Nothing passes a filter that every element fails. */
  lemma {:induction false} FilterRejectsAll(s: seq<BoundedSegment>, p: BoundedSegment -> bool)
    requires forall i :: 0 <= i < |s| ==> !p(s[i])
    ensures Filter(s, p) == []
    decreases |s|
  {
    if s != [] {
      FilterRejectsAll(s[..|s| - 1], p);
    }
  }

  /** A point is kept, or moved onto the source of a listed segment whose box contains it. */
  lemma CloseEnoughTarget(geom: Geometry, segs: seq<BoundedSegment>, c: Coordinate)
    ensures var r := CloseEnough(geom, segs, c);
            r == c || exists s :: s in segs && geom.contains(s.box, c) && r == s.segment.source
  {
    var f := Containing(geom, segs, c);
    var r := CloseEnough(geom, segs, c);
    if r != c {
      var k :| IsFirstNearest(geom, f, c, k) && r == f[k].segment.source;
      assert f[k] in f;
    }
  }

  /** The segments considered for a track: those whose box meets the track's rectangle. */
  function Candidates(geom: Geometry, a: Adjacency, cs: seq<Coordinate>): seq<BoundedSegment>
    requires WellFormed(a)
  {
    Filter(AllSegments(geom, a), (s: BoundedSegment) => geom.intersectsTrack(s.box, cs))
  }

  /** Both ends of each pair snapped against the same segments. */
  function Snapped(geom: Geometry, segs: seq<BoundedSegment>, pairs: seq<(Coordinate, Coordinate)>): (r: seq<(Coordinate, Coordinate)>)
    ensures |r| == |pairs|
    ensures forall k :: 0 <= k < |pairs| ==>
              r[k] == (CloseEnough(geom, segs, pairs[k].0), CloseEnough(geom, segs, pairs[k].1))
  {
    seq(|pairs|, k requires 0 <= k < |pairs| =>
      (CloseEnough(geom, segs, pairs[k].0), CloseEnough(geom, segs, pairs[k].1)))
  }

  /** The edges one track adds to the graph built so far. */
  function TrackEdges(geom: Geometry, a: Adjacency, t: Tracks.Track): seq<(Coordinate, Coordinate)>
    requires WellFormed(a) && |t.coordinates| > 0
  {
    var cs := Coordinates(t);
    Snapped(geom, Candidates(geom, a, cs), TrackPairs(cs))
  }

  /** The graph after the body of `for track in tracks` has run for every track. */
  function Built(geom: Geometry, tracks: seq<Tracks.Track>): (r: Adjacency)
    requires NonEmptyTracks(tracks)
    ensures WellFormed(r)
  {
    if tracks == [] then Empty()
    else
      var before := Built(geom, tracks[..|tracks| - 1]);
      AddAll(before, geom, TrackEdges(geom, before, tracks[|tracks| - 1]))
  }

  /**
   * A track of n points adds n edges, the k-th from the snapped point k to
   * the snapped point k + 1 (the last to the first), both snapped against
   * the segments of the graph as it was before the track.
   */
  lemma TrackEdgesCycle(geom: Geometry, a: Adjacency, t: Tracks.Track)
    requires WellFormed(a) && |t.coordinates| > 0
    ensures var n := |t.coordinates|;
            var es := TrackEdges(geom, a, t);
            var segs := Candidates(geom, a, Coordinates(t));
            && |es| == n
            && forall k :: 0 <= k < n ==>
                 es[k] == (CloseEnough(geom, segs, t.coordinates[k].coordinate),
                           CloseEnough(geom, segs, t.coordinates[(k + 1) % n].coordinate))
  {
  }

  /**
   * Every endpoint a track's edges are snapped to is either its own point
   * or the source of an edge already in the graph before the track, whose
   * box meets the track's rectangle: no edge of the same track is a target.
   */
  lemma SnapTargetsPrecedeTrack(geom: Geometry, a: Adjacency, t: Tracks.Track, k: nat)
    requires WellFormed(a) && k < |t.coordinates|
    ensures var cs := Coordinates(t);
            var v := CloseEnough(geom, Candidates(geom, a, cs), cs[k]);
            v == cs[k]
            || exists i :: && 0 <= i < |AllSegments(geom, a)|
                           && IsEdge(a.edges, v, AllSegments(geom, a)[i].segment.destination)
                           && AllSegments(geom, a)[i].segment.source == v
                           && geom.intersectsTrack(AllSegments(geom, a)[i].box, cs)
  {
    var cs := Coordinates(t);
    var all := AllSegments(geom, a);
    var v := CloseEnough(geom, Candidates(geom, a, cs), cs[k]);
    SnapAmongCandidates(geom, all, cs, cs[k]);
    if v != cs[k] {
      var i :| 0 <= i < |all| && all[i].segment.source == v && geom.intersectsTrack(all[i].box, cs);
      SegmentsMembership(a, all[i].segment);
    }
  }

  /** A snapped point is kept or is the source of a segment whose box meets the track. */
  lemma SnapAmongCandidates(geom: Geometry, all: seq<BoundedSegment>, cs: seq<Coordinate>, c: Coordinate)
    ensures var v := CloseEnough(geom, Filter(all, (s: BoundedSegment) => geom.intersectsTrack(s.box, cs)), c);
            v == c || exists i :: 0 <= i < |all| && all[i].segment.source == v && geom.intersectsTrack(all[i].box, cs)
  {
    var segs := Filter(all, (s: BoundedSegment) => geom.intersectsTrack(s.box, cs));
    CloseEnoughTarget(geom, segs, c);
    var v := CloseEnough(geom, segs, c);
    if v != c {
      var s :| s in segs && v == s.segment.source;
      assert s in all && geom.intersectsTrack(s.box, cs);
      var i :| 0 <= i < |all| && all[i] == s;
    }
  }

  /** The built graph holds one destination per track point. */
  lemma {:induction false} BuiltCount(geom: Geometry, tracks: seq<Tracks.Track>)
    requires NonEmptyTracks(tracks)
    ensures TotalDestinations(Built(geom, tracks)) == TotalPoints(tracks)
    decreases |tracks|
  {
    if tracks != [] {
      var init := tracks[..|tracks| - 1];
      var before := Built(geom, init);
      var es := TrackEdges(geom, before, tracks[|tracks| - 1]);
      assert Built(geom, tracks) == AddAll(before, geom, es);
      assert |es| == |tracks[|tracks| - 1].coordinates|;
      BuiltCount(geom, init);
      AddAllCount(before, geom, es);
    }
  }

  /** One more track adds its edges to the graph built from the tracks before it. */
  lemma BuiltStep(geom: Geometry, tracks: seq<Tracks.Track>, i: nat)
    requires NonEmptyTracks(tracks) && i < |tracks|
    ensures NonEmptyTracks(tracks[..i]) && NonEmptyTracks(tracks[..i + 1])
    ensures Built(geom, tracks[..i + 1])
         == AddAll(Built(geom, tracks[..i]), geom, TrackEdges(geom, Built(geom, tracks[..i]), tracks[i]))
  {
    assert tracks[..i + 1][..i] == tracks[..i];
  }

  /** The body of `for (from, to) in zip(...)`: one snapped edge per pair. */
  method AddSnappedEdges(graph: Graph, geom: Geometry, segments: seq<BoundedSegment>, pairs: seq<(Coordinate, Coordinate)>)
    requires graph.Valid()
    modifies graph
    ensures graph.Valid()
    ensures graph.Value() == AddAll(old(graph.Value()), geom, Snapped(geom, segments, pairs))
  {
    ghost var before := graph.Value();
    ghost var snapped := Snapped(geom, segments, pairs);
    for k := 0 to |pairs|
      invariant graph.Valid()
      invariant graph.Value() == AddAll(before, geom, snapped[..k])
    {
      var from := CloseEnough(geom, segments, pairs[k].0);
      var to := CloseEnough(geom, segments, pairs[k].1);
      assert snapped[k] == (from, to);
      TakeSnoc(snapped, k);
      AddAllSnoc(before, geom, snapped[..k], from, to);
      graph.AddEdge(geom, from, to);
    }
    assert snapped[..|pairs|] == snapped;
  }

  /** The body of `for track in tracks`: the track's snapped cycle joins the graph. */
  method AddTrack(graph: Graph, geom: Geometry, track: Tracks.Track)
    requires graph.Valid() && |track.coordinates| > 0
    modifies graph
    ensures graph.Valid()
    ensures graph.Value() == AddAll(old(graph.Value()), geom, TrackEdges(geom, old(graph.Value()), track))
  {
    var cs := Coordinates(track);
    var segments := Candidates(geom, graph.Value(), cs);
    AddSnappedEdges(graph, geom, segments, TrackPairs(cs));
  }

  /** One round of the outer loop: the graph of i tracks becomes that of i + 1. */
  method BuildStep(graph: Graph, geom: Geometry, tracks: seq<Tracks.Track>, i: nat)
    requires NonEmptyTracks(tracks) && i < |tracks| && NonEmptyTracks(tracks[..i])
    requires graph.Valid() && graph.Value() == Built(geom, tracks[..i])
    modifies graph
    ensures NonEmptyTracks(tracks[..i + 1])
    ensures graph.Valid() && graph.Value() == Built(geom, tracks[..i + 1])
  {
    BuiltStep(geom, tracks, i);
    AddTrack(graph, geom, tracks[i]);
  }

  /**
   * `build(from:)`: starting from the empty graph, each track adds its
   * snapped cycle of edges.
   */
  method Build(geom: Geometry, tracks: seq<Tracks.Track>) returns (graph: Graph)
    requires NonEmptyTracks(tracks)
    ensures fresh(graph) && graph.Valid()
    ensures graph.Value() == Built(geom, tracks)
  {
    graph := new Graph();
    assert tracks[..0] == [];
    for i := 0 to |tracks|
      invariant NonEmptyTracks(tracks[..i])
      invariant graph.Valid()
      invariant graph.Value() == Built(geom, tracks[..i])
    {
      BuildStep(graph, geom, tracks, i);
    }
    assert tracks[..|tracks|] == tracks;
  }
}
