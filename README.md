# OnLock trail graph, modelled in Dafny

OnLock is an iOS app for the trail loops of the Laufpark Stechlin. It reads
the loops from GPX track logs and builds a trail graph from them. Each track
point is snapped onto the start of an edge that is already in the graph when
that edge is within 7 metres. The consecutive points of a track, the last
joined to the first, then become edges of the graph. Two queries run over the
graph: a shortest path between two vertices, and a breadth-first listing of
the edges reachable from a vertex.

This project models that core and proves properties of it:

- `graph.dfy` (module `Graphs`): the shared graph. It holds the adjacency
  dictionary as a value (`Adjacency`, with its key order made explicit) and
  the `Graph` class whose `AddEdge` updates it in place. It also has the
  helpers both builders use: the first-minimum index, the track's cyclic
  pairs and edge counting.
- `trail_graph.dfy` (`TrailGraph`): `OnLock/Graph.swift`. Its `allSegments`
  pads each box by epsilon, `closeEnough` filters by box, and `build`
  pre-filters the segments by the track's rectangle.
- `legacy_graph.dfy` (`LegacyGraph`): the older `OnLock/Models/Graph.swift`
  builder. Its boxes are unpadded, there is no box filter, and every segment
  is a candidate.
- `paths.dfy` (`Paths`): `shortestPath(from:to:)` and
  `debug_connectedVertices(from:)`. Both are imperative methods proved
  against walks, walk costs and reachability.
- `track_reader.dfy` (`TrackReading`): the GPX reader, an XML-parser
  delegate class with five fields. A pure state machine over parser
  callbacks specifies it.
- `vector.dfy` (`Vectors`): the `Vector2D` algebra and `closestPoint(on:)`.
- `track.dfy` (`Tracks`): `Track`, its `Color` raw values and the `numbers`
  property.
- `helpers.dfy` (`Helpers`): `remove(prefix:)`.
- `strings.dfy` (`Strings`): the library string operations the core calls,
  `split(separator:)` and whitespace trimming.
- `geo.dfy` (`Geo`): coordinates, segments and boxes. It also holds the
  CoreLocation and MapKit primitives, taken as parameters.
- `option.dfy` (`Options`): Swift optionals.

Distances, the segment distance, map points per metre and the two box tests
come from CoreLocation and MapKit. They are fields of a `Geometry` value.
The model assumes only what their types say: distances are non-negative
reals. `Double(String)` is a partial function `string -> Option<real>` given
to the reader. The XML parser is replaced by the sequence of callbacks it
delivers.

## Model

| member | source | states |
|---|---|---|
| Graphs.Graph.AddEdge | OnLock/Graph.swift:14-17 | the dictionary becomes `WithEdge` of the old one: `to`, with the distance of the endpoints, is appended to the list of `from` (created empty when absent); the key order stays duplicate-free (the same method is at OnLock/Models/Graph.swift:14-17) |
| Graphs.Graph.constructor | OnLock/Graph.swift:11-12 | a new graph has the empty dictionary |
| Graphs.WithEdge | OnLock/Graph.swift:14-17 | the dictionary after `addEdge` as a value; it stays well formed, its key order listing every key exactly once |
| Graphs.WithEdgeDestinations | OnLock/Graph.swift:14-17 | adding an edge appends exactly one destination to `from`'s list and changes no other list; a key is present afterwards iff it was before or is `from` |
| Graphs.WithEdgeCount | OnLock/Graph.swift:14-17 | adding an edge increases the total number of stored destinations by exactly one |
| Graphs.AddAllDestinations | OnLock/Graph.swift:46-49 | after a run of `addEdge` calls, each vertex's list is its old list followed by the destinations of the added edges that leave it, in call order |
| Graphs.AddAllCount | OnLock/Graph.swift:46-49 | a run of n `addEdge` calls adds exactly n destinations |
| Graphs.SegmentsCount | OnLock/Graph.swift:66-67 | flattening the dictionary gives one segment per stored destination |
| Graphs.SegmentsMembership | OnLock/Graph.swift:66-67 | a segment is among the flattened ones iff it is an edge of the dictionary |
| Graphs.FirstMin | OnLock/Graph.swift:120-122 | `min(by: <)` returns an index holding a least value, and every earlier index holds a strictly larger value (ties go to the first) |
| Graphs.TrackPairs | OnLock/Graph.swift:46 | `zip(cs, cs.dropFirst() + [cs[0]])` has one pair per point, the k-th being point k with point k+1, the last with the first |
| TrailGraph.AllSegments | OnLock/Graph.swift:62-75 | nothing for an empty graph; otherwise one bounded segment per destination, in dictionary order, each box spanning its two endpoints padded by `pointsPerMeter(latitude of the first key) * 7` |
| TrailGraph.AllSegmentsMembership | OnLock/Graph.swift:62-75 | a segment is listed iff it is an edge of the graph |
| TrailGraph.Filter | OnLock/Graph.swift:45 | `filter` keeps exactly the elements satisfying the predicate and never grows; a single element is kept iff it satisfies the predicate |
| TrailGraph.FilterConcat | OnLock/Graph.swift:45 | filtering a concatenation is concatenating the filtered parts, so the kept elements stay in their order (the same `filter` is at OnLock/Graph.swift:118) |
| TrailGraph.FilterCounts | OnLock/Graph.swift:45 | each satisfying element is kept as many times as it occurs, the others not at all |
| TrailGraph.CloseEnough | OnLock/Graph.swift:115-127 | with no containing box closer than 7 the point is kept; otherwise the result is the source of the first nearest segment among those whose box contains the point |
| TrailGraph.CloseEnoughOutsideEveryBox | OnLock/Graph.swift:118-119 | a point contained in no box is returned unchanged |
| TrailGraph.CloseEnoughTarget | OnLock/Graph.swift:115-127 | the result is the point itself or the source of a listed segment whose box contains the point |
| TrailGraph.TrackEdgesCycle | OnLock/Graph.swift:43-49 | a track of n points contributes n edges, the k-th from snapped point k to snapped point k+1 mod n, snapped against the segments whose box meets the track's rectangle |
| TrailGraph.SnapTargetsPrecedeTrack | OnLock/Graph.swift:43-48 | every snapped endpoint is the track's own point or the source of an edge that was in the graph before the track and whose box meets the track's rectangle |
| TrailGraph.BuiltCount | OnLock/Graph.swift:40-52 | the built graph stores exactly one destination per track point |
| TrailGraph.BuiltStep | OnLock/Graph.swift:42-50 | the graph after i+1 tracks is the graph after i tracks plus the edges of track i |
| TrailGraph.AddSnappedEdges | OnLock/Graph.swift:46-49 | the inner loop adds the snapped pairs in order, as `AddAll` of the pairs |
| TrailGraph.AddTrack | OnLock/Graph.swift:43-49 | one pass of the outer loop adds the track's snapped cycle to the graph |
| TrailGraph.Build | OnLock/Graph.swift:40-52 | `build(from:)` returns a fresh graph equal to `Built` of the tracks |
| LegacyGraph.AllSegments | OnLock/Models/Graph.swift:58-70 | one segment region per stored destination, in dictionary order, its box the union of the two endpoints with no padding |
| LegacyGraph.AllSegmentsMembership | OnLock/Models/Graph.swift:58-70 | a segment is listed iff it is an edge of the graph |
| LegacyGraph.CloseEnough | OnLock/Models/Graph.swift:72-82 | an empty list, or no segment closer than 7, keeps the point; otherwise the result is the source of the first nearest segment |
| LegacyGraph.TrackEdgesCycle | OnLock/Models/Graph.swift:43-47 | a track of n points contributes n edges, the k-th from snapped point k to snapped point k+1 mod n, snapped against every segment of the graph before the track |
| LegacyGraph.FirstTrackIsRawCycle | OnLock/Models/Graph.swift:40-50 | nothing is snapped on the empty graph, so a single track builds its raw cycle |
| LegacyGraph.FirstTrackDestinations | OnLock/Models/Graph.swift:40-50 | in a single-track graph each vertex's list holds the next points of the track, in order |
| LegacyGraph.BuiltCount | OnLock/Models/Graph.swift:40-50 | the built graph stores exactly one destination per track point |
| LegacyGraph.BuiltStep | OnLock/Models/Graph.swift:42-48 | the graph after i+1 tracks is the graph after i tracks plus the edges of track i |
| LegacyGraph.AddSnappedEdges | OnLock/Models/Graph.swift:44-47 | the inner loop adds the snapped pairs in order |
| LegacyGraph.AddTrack | OnLock/Models/Graph.swift:43-47 | one pass of the outer loop adds the track's snapped cycle |
| LegacyGraph.Build | OnLock/Models/Graph.swift:40-50 | `build(from:)` returns a fresh graph equal to `Built` of the tracks |
| Paths.ShortestPath | OnLock/Graph.swift:81-112 | nothing exactly when `to` is the start or cannot be reached; otherwise a walk from `from` to `to` that costs no more than any other such walk |
| Paths.Explore | OnLock/Graph.swift:84-100 | the main loop sees the start, records a predecessor tree ordered by the time vertices were seen, and settles every edge out of a seen vertex |
| Paths.Relax | OnLock/Graph.swift:91-97 | relaxing the edges of the vertex just seen keeps the tree and the queue's frontier and settles that vertex's edges; the new distances and queue are `RelaxedFirst` over all of its destinations, one record and one queue entry per destination that is unseen and not recorded strictly nearer |
| Paths.RelaxOutcome | OnLock/Graph.swift:91-95 | after the loop, seen vertices and vertices that are no destination keep their entries exactly, and every unseen destination whose earlier entry was not strictly nearer than through u has u as its predecessor |
| Paths.RelaxTieOverwrites | OnLock/Graph.swift:93-95 | a destination recorded at exactly the distance through u is overwritten, with u as its predecessor |
| Paths.SortDescending | OnLock/Graph.swift:99 | the queue sort yields a permutation in decreasing distance order |
| Paths.Insert | OnLock/Graph.swift:99 | inserting into a sorted queue keeps it sorted and adds exactly that entry |
| Paths.WalksAreBounded | OnLock/Graph.swift:84-100 | after exploration, every walk from the start ends at a seen vertex whose recorded distance is at most the walk's cost |
| Paths.BackStep | OnLock/Graph.swift:104-107 | following a predecessor link extends the back-walk by an edge without exceeding the recorded distance |
| Paths.Reverse | OnLock/Graph.swift:111 | `reversed()` puts element i at position n-1-i |
| Paths.Cost | OnLock/Graph.swift:92 | a walk's cost is the sum of its steps and is never negative |
| Paths.CostAppend | OnLock/Graph.swift:92 | extending a walk by an edge adds that step's cost |
| Paths.LeastDistanceTo | OnLock/Graph.swift:91-96 | the cost of a step is the least distance among its parallel edges |
| Paths.ConnectedVertices | OnLock/Graph.swift:131-149 | the layers end with an empty one; every listed pair is an edge leaving a reachable vertex, and every edge leaving a reachable vertex is listed (the same method is at OnLock/Models/Graph.swift:86-104) |
| Paths.VisitRound | OnLock/Graph.swift:138-144 | one round marks each source seen and lists all its edges, collecting their destinations |
| Paths.EmitEdges | OnLock/Graph.swift:140-143 | the edges out of a source go, in order, onto the last layer, and their destinations onto the next sources |
| Paths.Unseen | OnLock/Graph.swift:146 | `filter { !seen.contains($0) }` keeps exactly the unseen points; a single point is kept iff it is unseen |
| Paths.UnseenConcat | OnLock/Graph.swift:146 | the filter of a concatenation is the concatenation of the filtered parts, so the order is kept |
| Paths.UnseenCounts | OnLock/Graph.swift:146 | an unseen point is kept as many times as it occurs, a seen one not at all |
| Paths.ClosedHoldsReachable | OnLock/Graph.swift:136-147 | a set holding the start and all successors of its members holds every reachable vertex |
| Paths.FewerUnseen | OnLock/Graph.swift:136-147 | each round sees a new vertex, so the loop terminates |
| TrackReading.OnCharacters | OnLock/TrackReader.swift:25-27 | the text is appended to the element contents and nothing else changes |
| TrackReading.OnStart | OnLock/TrackReader.swift:29-39 | outside a track only `inTrk` changes, to whether the element is `trk`; inside one only `pending` can change, and it changes only on a `trkpt` whose `lat` and `lon` both parse; such a `trkpt` always stages exactly those values |
| TrackReading.OnEnd | OnLock/TrackReader.swift:41-52 | the contents are reset; `trk` clears `inTrk`; `ele` appends one point exactly when a position is staged and the trimmed contents parse; `name` inside a track sets the trimmed name with the prefix length removed; nothing else changes |
| TrackReading.Step | OnLock/TrackReader.swift:25-52 | one callback, sent to the matching delegate method: points are only appended, at most one and only for an `ele` end tag; a staged position stays staged; an end tag leaves the contents empty |
| TrackReading.Run | OnLock/TrackReader.swift:21-22 | the callbacks delivered in order: after a final end tag the contents are empty, and after a final `trk` end tag the reader is outside a track |
| TrackReading.RunConcat | OnLock/TrackReader.swift:21-22 | delivering two runs of callbacks is delivering the first, then the second |
| TrackReading.PointsOnlyGrow | OnLock/TrackReader.swift:48 | points are only appended: earlier points stay a prefix |
| TrackReading.PendingNeverCleared | OnLock/TrackReader.swift:37 | a staged position is never cleared |
| TrackReading.PointsBoundedByEleTags | OnLock/TrackReader.swift:46-48 | the points grow by at most the number of `ele` end tags among the callbacks |
| TrackReading.StalePendingReused | OnLock/TrackReader.swift:34-48 | a `trkpt` whose attributes do not parse leaves the previous position staged, and the following elevation is attached to it |
| TrackReading.EleClosed | OnLock/TrackReader.swift:46-48 | an `ele` end tag with a staged position and parseable contents appends that point and resets the contents |
| TrackReading.NameClosed | OnLock/TrackReader.swift:49-50 | a `name` end tag inside a track sets the name to the trimmed contents without the prefix |
| TrackReading.SampleDocumentRead | OnLock/TrackReader.swift:25-52 | a sample track log yields the name "3" and its one point with its elevation |
| TrackReading.TrackReader.constructor | OnLock/TrackReader.swift:11-16 | a new reader starts outside a track with no points, nothing staged and empty strings |
| TrackReading.TrackReader.FoundCharacters | OnLock/TrackReader.swift:25-27 | the fields become `OnCharacters` of the old ones |
| TrackReading.TrackReader.DidStartElement | OnLock/TrackReader.swift:29-39 | the fields become `OnStart` of the old ones |
| TrackReading.TrackReader.DidEndElement | OnLock/TrackReader.swift:41-52 | the fields become `OnEnd` of the old ones |
| TrackReading.TrackReader.Deliver | OnLock/TrackReader.swift:21-22 | the fields become `Run` of the old ones over the callbacks |
| TrackReading.Read | OnLock/TrackReader.swift:18-23 | no reader when the parse fails; otherwise a fresh reader whose fields are the callbacks run from the initial state |
| Vectors.Sub | OnLock/Vector2D.swift:21-23 | `-` subtracts componentwise |
| Vectors.Add | OnLock/Vector2D.swift:25-27 | `+` adds componentwise |
| Vectors.Scale | OnLock/Vector2D.swift:29-31 | `*` multiplies both components by the scalar |
| Vectors.Dot | OnLock/Vector2D.swift:33-35 | `dot` sums the products of the components, in either operand order |
| Vectors.Lambda | OnLock/Vector2D.swift:38-40 | lambda is the projection parameter: the vector from the point of parameter lambda to p is orthogonal to the segment |
| Vectors.SubAddCancels | OnLock/Vector2D.swift:21-27 | subtracting and adding back the same vector gives the original |
| Vectors.ScaleIdentity | OnLock/Vector2D.swift:29-31 | scaling by one leaves a vector unchanged |
| Vectors.ScaleZero | OnLock/Vector2D.swift:29-31 | scaling by zero gives the zero vector |
| Vectors.DotSymmetric | OnLock/Vector2D.swift:33-35 | the dot product is symmetric |
| Vectors.DotSelfNonNegative | OnLock/Vector2D.swift:33-35 | a vector's dot product with itself is never negative |
| Vectors.Clamp | OnLock/Vector2D.swift:41 | `min(1, max(0, lambda))` lies in [0, 1], is lambda inside it, and is the nearer bound outside it |
| Vectors.ClosestPoint | OnLock/Vector2D.swift:37-43 | the result is a point of the segment |
| Vectors.ClosestPointIsNearest | OnLock/Vector2D.swift:37-43 | no point of the segment is closer to p than the result |
| Vectors.ClosestPointOfStart | OnLock/Vector2D.swift:37-43 | the start of the segment is its own closest point |
| Vectors.ClosestPointOfEnd | OnLock/Vector2D.swift:37-43 | the end of the segment is its own closest point |
| Vectors.SquaredDistanceAlong | OnLock/Vector2D.swift:38-42 | the squared distance to the point of parameter t is the quadratic in t built from the dot products the source computes |
| Vectors.QuadraticMinimum | OnLock/Vector2D.swift:40-41 | with a positive leading coefficient, the clamped vertex of the quadratic minimises it on [0, 1] |
| Vectors.DotSelfPositive | OnLock/Vector2D.swift:40 | the divisor of lambda is positive for a segment of non-zero length |
| Geo.VectorRoundTrip | OnLock/Graph.swift:30-35 | the two views of a coordinate are inverse to each other |
| Tracks.RawValue | OnLock/Track.swift:27-44 | each colour's raw value is its declaration position, below 16 |
| Tracks.FromRawValue | OnLock/Track.swift:27-44 | decoding succeeds exactly for 0 to 15 |
| Tracks.ColorRoundTrip | OnLock/Track.swift:27-44 | decoding the raw value gives back the colour, and every value 0 to 15 is some colour's raw value |
| Tracks.Numbers | OnLock/Track.swift:15-25 | a name made only of spaces gives the empty string |
| Tracks.HasNumbersIff | OnLock/Track.swift:24 | `numbers` traps exactly when the last space-separated component is made only of '/' |
| Tracks.NumbersUseLastComponent | OnLock/Track.swift:15-25 | only the last space-separated component of the name matters |
| Tracks.NumbersOfSinglePart | OnLock/Track.swift:20 | a last component without '/' is the result verbatim |
| Tracks.Simplify | OnLock/Track.swift:19-22 | one part is returned verbatim; several give the first and the last joined by '-' |
| Tracks.NumbersOfPair | OnLock/Track.swift:21 | a component "a/b" gives "a-b" |
| Tracks.NumbersOfRange | OnLock/Track.swift:21 | a component "a/m/b" gives "a-b", ignoring the middle parts |
| Helpers.RemovePrefix | OnLock/Helpers.swift:11-13 | `remove(prefix:)` drops exactly as many leading characters as the prefix has, or everything when the string is shorter |
| Helpers.RemovePrefixUsesLengthOnly | OnLock/Helpers.swift:11-13 | the result depends on the prefix only through its length |
| Helpers.RemovePrefixRoundTrip | OnLock/Helpers.swift:11-13 | when p is a prefix of s, putting p back in front of the result gives s |
| Helpers.RemovePrefixDoesNotCheck | OnLock/Helpers.swift:11-13 | a string that does not start with the prefix still loses that many characters |
| Strings.Split | OnLock/Track.swift:16 | `split(separator:)` yields non-empty pieces without the separator |
| Strings.SplitFlatten | OnLock/Track.swift:16 | concatenating the pieces gives the string without its separators |
| Strings.SplitEmptyIff | OnLock/Track.swift:17 | there are no pieces exactly when the string is all separators |
| Strings.SplitAtSeparator | OnLock/Track.swift:16 | a separator splits a string into the pieces of each side |
| Strings.Trim | OnLock/TrackReader.swift:43 | the trimmed string is a slice of the input with only whitespace outside it, and it neither starts nor ends with whitespace |

## Left out

- The app's UI, map views, live location tracking and bundled track data
  (`Map.swift`, `MapData.swift`, `ContentView.swift`, `TestData.swift`,
  `LocationTracker.swift`, `LiveMapTrack.swift`) are not part of this model.
- CoreLocation and MapKit are not modelled. Coordinate distance, the
  coordinate-to-segment distance, `MKMapPointsPerMeterAtLatitude`,
  `MKMapRect.contains` and `MKMapRect.intersects` with the track's polygon
  rectangle are parameters. Distances are non-negative reals and nothing
  else is assumed of them. The map rectangle is kept symbolically: its two
  corners and its padding.
- Floating point is modelled as exact reals. Rounding, NaN and infinities
  are not modelled.
- Vectors.Lambda: a zero-length segment is excluded by a precondition. The
  source divides by zero there and produces NaN, which reals cannot
  represent.
- The XML parser is replaced by the sequence of callbacks it delivers.
  Whether the document parses or can be opened is a boolean parameter of
  `Read`. `Double(String)` is a parameter.
- `print(result)` in `shortestPath` is output only and is left out.
- `CGPoint`'s `Vector2D` conformance and `CGPoint.distance(to:)` in
  `Helpers.swift` serve only the UI and are left out.
- Swift leaves the iteration order of a dictionary unspecified. The model
  fixes it to the order in which keys were first inserted. This affects
  only the order of `allSegments`, and so which of several equally near
  segments `closeEnough` picks. `edges.first!`, whose latitude sets the
  padding, is taken to be the first key in that order.
- Swift's `sort` does not specify the order of equal elements. The model
  uses one particular sort (insertion). Its contract states only what
  `sort` guarantees: a permutation in decreasing distance order.
- `assert(edges[from] != nil)` and `assert(edges[to] != nil)` in
  `shortestPath` become preconditions of `ShortestPath`.
- `track.coordinates[0]` traps on an empty track. `Build` therefore
  requires every track to have a point. `Track.numbers` traps when the last
  name component is made only of '/'. `Numbers` therefore requires
  `HasNumbers`.
- `ShortestPath`, `Explore` and `ConnectedVertices` only read the graph's
  dictionary, so they take it as a value rather than through the class.
- Strings.IsWhitespace: the whitespace-and-newline set is the fixed list of
  Unicode code points with the White_Space property. Grapheme clusters and
  normalisation are not modelled.
- `Track`'s `Decodable` conformance is not modelled. Only the `Color` raw
  values it decodes are (`FromRawValue`).
- Tracks.Numbers: the contract states only the all-spaces case. The lemmas
  beside it state the others for a last component made of pieces without
  '/': one piece (`NumbersOfSinglePart`), two (`NumbersOfPair`) and three
  or more, also with empty pieces between them (`NumbersOfRange`). A last
  component that starts or ends with '/' is covered only by the
  definition.
- The stale-position behaviour of the reader follows the code. A `trkpt`
  with unparseable attributes does not clear the previously staged
  position (`StalePendingReused`), and a position is never cleared
  (`PendingNeverCleared`).
