/**
 * `shortestPath(from:to:)` and `debug_connectedVertices(from:)`, which only
 * read the graph's dictionary and so take it as a value.
 */
module Paths {
  import opened Geo
  import opened Graphs
  import opened Options

  type Edges = map<Coordinate, seq<Destination>>

  /** `edges[u] ?? []`. */
  function Out(edges: Edges, u: Coordinate): seq<Destination>
  {
    if u in edges then edges[u] else []
  }

  /** Every coordinate the dictionary mentions, as a key or as a destination. */
  ghost function Vertices(edges: Edges): set<Coordinate>
  {
    edges.Keys + set u, j | u in edges && 0 <= j < |edges[u]| :: edges[u][j].coordinate
  }

  lemma EdgeInVertices(edges: Edges, u: Coordinate, j: int)
    requires 0 <= j < |Out(edges, u)|
    ensures u in Vertices(edges) && Out(edges, u)[j].coordinate in Vertices(edges)
  {
    assert u in edges;
    assert edges[u][j].coordinate in (set u', j' | u' in edges && 0 <= j' < |edges[u']| :: edges[u'][j'].coordinate);
  }

  /** p is a non-empty sequence of vertices each joined to the next by an edge. */
  predicate IsWalk(edges: Edges, p: seq<Coordinate>)
  {
    |p| >= 1 && forall i :: 0 <= i < |p| - 1 ==> IsEdge(edges, p[i], p[i + 1])
  }

  /** Some walk leads from a to b. */
  ghost predicate Reachable(edges: Edges, a: Coordinate, b: Coordinate)
  {
    exists p :: IsWalk(edges, p) && p[0] == a && p[|p| - 1] == b
  }

  /** The least distance among the destinations of ds that end at b. */
  function LeastDistanceTo(ds: seq<Destination>, b: Coordinate): (r: real)
    requires exists j :: 0 <= j < |ds| && ds[j].coordinate == b
    ensures r >= 0.0
    ensures exists j :: 0 <= j < |ds| && ds[j].coordinate == b && r == ds[j].distance
    ensures forall j :: 0 <= j < |ds| && ds[j].coordinate == b ==> r <= ds[j].distance
  {
    var init := ds[..|ds| - 1];
    var last := ds[|ds| - 1];
    if exists j :: 0 <= j < |init| && init[j].coordinate == b then
      var m := LeastDistanceTo(init, b);
      if last.coordinate == b && last.distance < m then last.distance else m
    else
      last.distance
  }

  /** The cost of the step from a to b: its shortest parallel edge. */
  function StepCost(edges: Edges, a: Coordinate, b: Coordinate): (r: real)
    requires IsEdge(edges, a, b)
    ensures r >= 0.0
    ensures exists j :: 0 <= j < |edges[a]| && edges[a][j].coordinate == b && r == edges[a][j].distance
    ensures forall j :: 0 <= j < |edges[a]| && edges[a][j].coordinate == b ==> r <= edges[a][j].distance
  {
    LeastDistanceTo(edges[a], b)
  }

  /** The total cost of a walk. */
  function Cost(edges: Edges, p: seq<Coordinate>): (r: real)
    requires IsWalk(edges, p)
    ensures r >= 0.0
  {
    if |p| == 1 then 0.0
    else
      assert IsWalk(edges, p[1..]) by {
        forall i | 0 <= i < |p[1..]| - 1 ensures IsEdge(edges, p[1..][i], p[1..][i + 1]) {
          assert p[1..][i] == p[i + 1] && p[1..][i + 1] == p[i + 2];
        }
      }
      StepCost(edges, p[0], p[1]) + Cost(edges, p[1..])
  }

  /** Extending a walk by one step adds that step's cost. */
  lemma {:induction false} CostAppend(edges: Edges, p: seq<Coordinate>, w: Coordinate)
    requires IsWalk(edges, p) && IsEdge(edges, p[|p| - 1], w)
    ensures IsWalk(edges, p + [w])
    ensures Cost(edges, p + [w]) == Cost(edges, p) + StepCost(edges, p[|p| - 1], w)
    decreases |p|
  {
    var q := p + [w];
    assert IsWalk(edges, q) by {
      forall i | 0 <= i < |q| - 1 ensures IsEdge(edges, q[i], q[i + 1]) {
        if i < |p| - 1 {
          assert q[i] == p[i] && q[i + 1] == p[i + 1];
        }
      }
    }
    if |p| > 1 {
      assert q[1..] == p[1..] + [w];
      assert IsWalk(edges, p[1..]) by {
        forall i | 0 <= i < |p[1..]| - 1 ensures IsEdge(edges, p[1..][i], p[1..][i + 1]) {
          assert p[1..][i] == p[i + 1] && p[1..][i + 1] == p[i + 2];
        }
      }
      CostAppend(edges, p[1..], w);
    }
  }

  /** Prefixing a walk by one step adds that step's cost. */
  lemma CostPrepend(edges: Edges, v: Coordinate, p: seq<Coordinate>)
    requires IsWalk(edges, p) && IsEdge(edges, v, p[0])
    ensures IsWalk(edges, [v] + p)
    ensures Cost(edges, [v] + p) == StepCost(edges, v, p[0]) + Cost(edges, p)
  {
    var q := [v] + p;
    assert q[1..] == p;
    assert IsWalk(edges, q) by {
      forall i | 0 <= i < |q| - 1 ensures IsEdge(edges, q[i], q[i + 1]) {
        if i > 0 {
          assert q[i] == p[i - 1] && q[i + 1] == p[i];
        }
      }
    }
  }

  /** `reversed()`. */
  function Reverse(s: seq<Coordinate>): (r: seq<Coordinate>)
    ensures |r| == |s|
    ensures forall i :: 0 <= i < |s| ==> r[i] == s[|s| - 1 - i]
  {
    if s == [] then [] else [s[|s| - 1]] + Reverse(s[..|s| - 1])
  }

  lemma ReverseAppend(s: seq<Coordinate>, x: Coordinate)
    ensures Reverse(s + [x]) == [x] + Reverse(s)
  {
    assert (s + [x])[..|s|] == s;
  }

  /** `DistanceNode`: the best distance found so far and the vertex it came from. */
  datatype DistanceNode = DistanceNode(distance: real, previous: Coordinate)

  /** An element of the queue. */
  datatype Entry = Entry(coordinate: Coordinate, distance: real)

  type Distances = map<Coordinate, DistanceNode>

  /** The recorded distance of v, zero for the start (which is never recorded). */
  function Dist(distances: Distances, v: Coordinate): real
  {
    if v in distances then distances[v].distance else 0.0
  }

  /** Distances never increase from the front of the queue to the back. */
  predicate SortedDescending(q: seq<Entry>)
  {
    forall i, j :: 0 <= i < j < |q| ==> q[i].distance >= q[j].distance
  }

  /** Inserts e into a queue sorted by decreasing distance. */
  function Insert(e: Entry, q: seq<Entry>): (r: seq<Entry>)
    requires SortedDescending(q)
    ensures SortedDescending(r)
    ensures multiset(r) == multiset(q) + multiset{e}
    ensures forall x :: x in r ==> x == e || x in q
  {
    if q == [] then [e]
    else if q[0].distance <= e.distance then
      assert forall j :: 0 <= j < |q| ==> q[j].distance <= e.distance;
      [e] + q
    else
      var rest := Insert(e, q[1..]);
      assert q == [q[0]] + q[1..];
      InsertSortedHead(q[0], e, q[1..], rest);
      [q[0]] + rest
  }

  lemma InsertSortedHead(h: Entry, e: Entry, tail: seq<Entry>, rest: seq<Entry>)
    requires SortedDescending(rest)
    requires forall x :: x in rest ==> x == e || x in tail
    requires e.distance < h.distance
    requires forall x :: x in tail ==> x.distance <= h.distance
    ensures SortedDescending([h] + rest)
  {
    var r := [h] + rest;
    forall i, j | 0 <= i < j < |r| ensures r[i].distance >= r[j].distance {
      if i > 0 {
        assert r[i] == rest[i - 1] && r[j] == rest[j - 1];
      } else {
        assert r[j] == rest[j - 1] && r[j] in rest;
      }
    }
  }

  /** `sort { $0.distance > $1.distance }`: the same entries, by decreasing distance. */
  function SortDescending(q: seq<Entry>): (r: seq<Entry>)
    ensures SortedDescending(r)
    ensures multiset(r) == multiset(q)
  {
    if q == [] then []
    else
      assert q == [q[0]] + q[1..];
      Insert(q[0], SortDescending(q[1..]))
  }

  /**
   * v's recorded predecessor p is joined to it by an edge, and v's distance
   * is at least p's plus the cost of that step.
   */
  predicate Linked(edges: Edges, distances: Distances, v: Coordinate)
    requires v in distances
  {
    var p := distances[v].previous;
    IsEdge(edges, p, v) && Dist(distances, v) >= Dist(distances, p) + StepCost(edges, p, v)
  }

  /** The predecessor links form a tree rooted at from, ordered by the rank at which vertices were seen. */
  ghost predicate Tree(edges: Edges, from: Coordinate, seen: set<Coordinate>, distances: Distances, rank: map<Coordinate, nat>)
  {
    && from !in distances
    && (forall v :: v in seen ==> v in rank && rank[v] < |seen|)
    && (forall v :: v in seen ==> v == from || v in distances)
    && (forall v :: v in distances ==> distances[v].previous in seen && Linked(edges, distances, v))
    && (forall v :: v in distances && v in seen ==> rank[distances[v].previous] < rank[v])
  }

  /** What the queue holds for the vertices not yet seen. */
  ghost predicate Frontier(from: Coordinate, seen: set<Coordinate>, distances: Distances, queue: seq<Entry>)
  {
    && (forall e :: e in queue && e.coordinate !in seen ==>
          (e.coordinate == from || e.coordinate in distances) && e.distance >= Dist(distances, e.coordinate))
    && (forall w :: w in distances && w !in seen ==> Entry(w, Dist(distances, w)) in queue)
    && (forall s, e :: s in seen && e in queue ==> Dist(distances, s) <= e.distance)
  }

  /** Every edge out of a vertex of done leads to a recorded vertex no farther than through it. */
  ghost predicate Settled(edges: Edges, from: Coordinate, done: set<Coordinate>, distances: Distances)
  {
    forall u, j :: u in done && 0 <= j < |Out(edges, u)| ==>
      var w := Out(edges, u)[j].coordinate;
      (w == from || w in distances) && Dist(distances, w) <= Dist(distances, u) + Out(edges, u)[j].distance
  }

  /** All coordinates in play are vertices, so the set of unseen ones bounds the work. */
  ghost predicate Bounded(V: set<Coordinate>, seen: set<Coordinate>, distances: Distances, queue: seq<Entry>)
  {
    && seen <= V
    && (forall e :: e in queue ==> e.coordinate in V)
  }

  /** The first i destinations of u already lead to recorded vertices no farther than through u. */
  ghost predicate RelaxedUpTo(edges: Edges, from: Coordinate, u: Coordinate, x: real, distances: Distances, i: int)
  {
    forall j :: 0 <= j < i && j < |Out(edges, u)| ==>
      var w := Out(edges, u)[j].coordinate;
      (w == from || w in distances) && Dist(distances, w) <= x + Out(edges, u)[j].distance
  }

  /** The conditions under which the destination i of u is written into the distances. */
  ghost predicate Improving(edges: Edges, from: Coordinate, seen: set<Coordinate>, distances: Distances,
                            u: Coordinate, x: real, i: int)
  {
    && u in seen && from in seen && Dist(distances, u) == x
    && 0 <= i < |Out(edges, u)|
    && Out(edges, u)[i].coordinate !in seen
    && !(Out(edges, u)[i].coordinate in distances
         && distances[Out(edges, u)[i].coordinate].distance < x + Out(edges, u)[i].distance)
  }

  /** The distances after destination i of u is recorded with u as its predecessor. */
  function Recorded(edges: Edges, distances: Distances, u: Coordinate, x: real, i: int): Distances
    requires 0 <= i < |Out(edges, u)|
  {
    distances[Out(edges, u)[i].coordinate := DistanceNode(x + Out(edges, u)[i].distance, u)]
  }

  lemma RecordKeepsTree(edges: Edges, from: Coordinate, seen: set<Coordinate>, distances: Distances,
                        rank: map<Coordinate, nat>, u: Coordinate, x: real, i: int)
    requires Improving(edges, from, seen, distances, u, x, i)
    requires Tree(edges, from, seen, distances, rank)
    ensures Tree(edges, from, seen, Recorded(edges, distances, u, x, i), rank)
  {
    var d := Recorded(edges, distances, u, x, i);
    var w := Out(edges, u)[i].coordinate;
    RecordLinksNew(edges, distances, u, x, i);
    forall v | v in d
      ensures d[v].previous in seen && Linked(edges, d, v)
    {
      if v != w {
        RecordLinksOld(edges, seen, distances, u, x, i, v);
      }
    }
  }

  /** The recorded destination is linked to u by the edge it was reached through. */
  lemma RecordLinksNew(edges: Edges, distances: Distances, u: Coordinate, x: real, i: int)
    requires 0 <= i < |Out(edges, u)| && Out(edges, u)[i].coordinate != u && Dist(distances, u) == x
    ensures Linked(edges, Recorded(edges, distances, u, x, i), Out(edges, u)[i].coordinate)
  {
    var w := Out(edges, u)[i].coordinate;
    assert edges[u][i].coordinate == w;
    assert StepCost(edges, u, w) <= Out(edges, u)[i].distance;
  }

  /** Recording an unseen vertex leaves the links of the other vertices as they were. */
  lemma RecordLinksOld(edges: Edges, seen: set<Coordinate>, distances: Distances, u: Coordinate, x: real, i: int,
                       v: Coordinate)
    requires 0 <= i < |Out(edges, u)| && Out(edges, u)[i].coordinate !in seen
    requires v in distances && v != Out(edges, u)[i].coordinate
    requires distances[v].previous in seen && Linked(edges, distances, v)
    ensures Recorded(edges, distances, u, x, i)[v] == distances[v]
    ensures Linked(edges, Recorded(edges, distances, u, x, i), v)
  {
  }

  lemma RecordKeepsFrontier(edges: Edges, from: Coordinate, seen: set<Coordinate>, distances: Distances,
                            queue: seq<Entry>, u: Coordinate, x: real, i: int)
    requires Improving(edges, from, seen, distances, u, x, i)
    requires forall s :: s in seen ==> Dist(distances, s) <= x
    requires forall v :: v in seen ==> v == from || v in distances
    requires Frontier(from, seen, distances, queue)
    ensures Frontier(from, seen, Recorded(edges, distances, u, x, i),
                     queue + [Entry(Out(edges, u)[i].coordinate, x + Out(edges, u)[i].distance)])
  {
    var d := Recorded(edges, distances, u, x, i);
    var w := Out(edges, u)[i].coordinate;
    var n := Entry(w, x + Out(edges, u)[i].distance);
    var q := queue + [n];
    forall e | e in q && e.coordinate !in seen
      ensures (e.coordinate == from || e.coordinate in d) && e.distance >= Dist(d, e.coordinate)
    {
      if e != n {
        assert e in queue;
      }
    }
    forall v | v in d && v !in seen
      ensures Entry(v, Dist(d, v)) in q
    {
      if v != w {
        assert Entry(v, Dist(distances, v)) in queue;
      }
    }
    forall t, e | t in seen && e in q
      ensures Dist(d, t) <= e.distance
    {
      if e != n {
        assert e in queue;
      }
    }
  }

  lemma RecordKeepsSettled(edges: Edges, from: Coordinate, done: set<Coordinate>, seen: set<Coordinate>,
                           distances: Distances, u: Coordinate, x: real, i: int)
    requires Improving(edges, from, seen, distances, u, x, i)
    requires done <= seen
    requires Settled(edges, from, done, distances)
    requires RelaxedUpTo(edges, from, u, x, distances, i)
    ensures Settled(edges, from, done, Recorded(edges, distances, u, x, i))
    ensures RelaxedUpTo(edges, from, u, x, Recorded(edges, distances, u, x, i), i + 1)
  {
  }

  /** A vertex seen earlier needs no update: it is already no farther than u. */
  lemma SkipSeen(edges: Edges, from: Coordinate, seen: set<Coordinate>, distances: Distances,
                 u: Coordinate, x: real, i: int)
    requires 0 <= i < |Out(edges, u)| && Out(edges, u)[i].coordinate in seen
    requires forall s :: s in seen ==> Dist(distances, s) <= x
    requires forall v :: v in seen ==> v == from || v in distances
    requires RelaxedUpTo(edges, from, u, x, distances, i)
    ensures RelaxedUpTo(edges, from, u, x, distances, i + 1)
  {
  }

  /** A vertex already recorded strictly closer than through u keeps its record. */
  lemma SkipCloser(edges: Edges, from: Coordinate, distances: Distances, u: Coordinate, x: real, i: int)
    requires 0 <= i < |Out(edges, u)|
    requires Out(edges, u)[i].coordinate in distances
    requires distances[Out(edges, u)[i].coordinate].distance < x + Out(edges, u)[i].distance
    requires RelaxedUpTo(edges, from, u, x, distances, i)
    ensures RelaxedUpTo(edges, from, u, x, distances, i + 1)
  {
  }

  lemma RelaxedAll(edges: Edges, from: Coordinate, seen: set<Coordinate>, distances: Distances, u: Coordinate, x: real)
    requires Dist(distances, u) == x
    requires Settled(edges, from, seen - {u}, distances)
    requires RelaxedUpTo(edges, from, u, x, distances, |Out(edges, u)|)
    ensures Settled(edges, from, seen + {u}, distances)
  {
  }

  /**
   * The body of `for destination in edges[coordinate] ?? [] where
   * !seen.contains(destination.coordinate)`, for the vertex u just seen at
   * distance x: every unseen destination whose recorded distance is not
   * strictly smaller than the distance through u is recorded with u as its
   * predecessor and queued.
   */
  method Relax(edges: Edges, from: Coordinate, u: Coordinate, x: real, seen: set<Coordinate>,
               distances0: Distances, queue0: seq<Entry>, ghost V: set<Coordinate>, ghost rank: map<Coordinate, nat>)
    returns (distances: Distances, queue: seq<Entry>)
    requires V == Vertices(edges) + {from}
    requires u in seen && from in seen && Dist(distances0, u) == x
    requires forall s :: s in seen ==> Dist(distances0, s) <= x
    requires Bounded(V, seen, distances0, queue0)
    requires Tree(edges, from, seen, distances0, rank)
    requires Frontier(from, seen, distances0, queue0)
    requires Settled(edges, from, seen - {u}, distances0)
    ensures Bounded(V, seen, distances, queue)
    ensures Tree(edges, from, seen, distances, rank)
    ensures Frontier(from, seen, distances, queue)
    ensures Settled(edges, from, seen, distances)
    ensures (distances, queue) == RelaxedFirst(edges, u, x, seen, distances0, queue0, |Out(edges, u)|)
  {
    distances, queue := distances0, queue0;
    var out := Out(edges, u);
    for i := 0 to |out|
      invariant Relaxing(edges, from, u, x, seen, distances, queue, V, rank, i)
      invariant (distances, queue) == RelaxedFirst(edges, u, x, seen, distances0, queue0, i)
    {
      var destination := out[i];
      if destination.coordinate in seen {
        RelaxSkip(edges, from, u, x, seen, distances, queue, V, rank, i);
        RelaxedFirstSkip(edges, u, x, seen, distances0, queue0, i, distances, queue);
        continue;
      }
      var newDistance := x + destination.distance;
      if destination.coordinate in distances && distances[destination.coordinate].distance < newDistance {
        RelaxSkip(edges, from, u, x, seen, distances, queue, V, rank, i);
        RelaxedFirstSkip(edges, u, x, seen, distances0, queue0, i, distances, queue);
        continue;
      }
      RelaxRecord(edges, from, u, x, seen, distances, queue, V, rank, i);
      RelaxedFirstRecord(edges, u, x, seen, distances0, queue0, i, distances, queue);
      distances := Recorded(edges, distances, u, x, i);
      queue := queue + [Entry(Out(edges, u)[i].coordinate, x + Out(edges, u)[i].distance)];
    }
    RelaxDone(edges, from, u, x, seen, distances, queue, V, rank);
  }

  /**
   * The record rule of the whole loop: seen vertices and vertices that are
   * no destination of u keep their entries, and every destination that is
   * unseen and not recorded strictly nearer beforehand ends with u as its
   * predecessor, ties included.
   */
  lemma RelaxOutcome(edges: Edges, u: Coordinate, x: real, seen: set<Coordinate>, d0: Distances, q0: seq<Entry>)
    ensures var d := RelaxedFirst(edges, u, x, seen, d0, q0, |Out(edges, u)|).0;
      && (forall w :: w in seen ==> (w in d <==> w in d0) && (w in d0 ==> d[w] == d0[w]))
      && (forall w :: w !in Targets(edges, u) ==> (w in d <==> w in d0) && (w in d0 ==> d[w] == d0[w]))
      && (forall j :: 0 <= j < |Out(edges, u)| && Improves(edges, u, x, seen, d0, j) ==>
            Out(edges, u)[j].coordinate in d && d[Out(edges, u)[j].coordinate].previous == u)
  {
    var n := |Out(edges, u)|;
    var d := RelaxedFirst(edges, u, x, seen, d0, q0, n).0;
    forall w | w in seen
      ensures (w in d <==> w in d0) && (w in d0 ==> d[w] == d0[w])
    {
      RelaxedFirstEntry(edges, u, x, seen, d0, q0, n, w);
    }
    forall w | w !in Targets(edges, u)
      ensures (w in d <==> w in d0) && (w in d0 ==> d[w] == d0[w])
    {
      RelaxedFirstEntry(edges, u, x, seen, d0, q0, n, w);
    }
    forall j | 0 <= j < n && Improves(edges, u, x, seen, d0, j)
      ensures Out(edges, u)[j].coordinate in d && d[Out(edges, u)[j].coordinate].previous == u
    {
      RelaxedFirstEntry(edges, u, x, seen, d0, q0, n, Out(edges, u)[j].coordinate);
    }
  }

  /**
   * Whether the i-th destination of u is recorded through u: it is unseen,
   * and its recorded distance is not strictly smaller than the one through u.
   */
  predicate Improves(edges: Edges, u: Coordinate, x: real, seen: set<Coordinate>, distances: Distances, i: int)
    requires 0 <= i < |Out(edges, u)|
  {
    var w := Out(edges, u)[i];
    w.coordinate !in seen && !(w.coordinate in distances && distances[w.coordinate].distance < x + w.distance)
  }

  /** The distances and the queue after the first i destinations of u. */
  function RelaxedFirst(edges: Edges, u: Coordinate, x: real, seen: set<Coordinate>,
                        distances: Distances, queue: seq<Entry>, i: nat): (Distances, seq<Entry>)
    requires i <= |Out(edges, u)|
  {
    if i == 0 then (distances, queue)
    else
      var (d, q) := RelaxedFirst(edges, u, x, seen, distances, queue, i - 1);
      if Improves(edges, u, x, seen, d, i - 1)
      then (Recorded(edges, d, u, x, i - 1), q + [Entry(Out(edges, u)[i - 1].coordinate, x + Out(edges, u)[i - 1].distance)])
      else (d, q)
  }

  /**
   * The tie rule: a destination already recorded at exactly the distance
   * through u gets u as its predecessor.
   */
  lemma RelaxTieOverwrites(edges: Edges, u: Coordinate, x: real, seen: set<Coordinate>,
                           d0: Distances, q0: seq<Entry>, j: nat)
    requires j < |Out(edges, u)| && Out(edges, u)[j].coordinate !in seen
    requires Out(edges, u)[j].coordinate in d0
    requires d0[Out(edges, u)[j].coordinate].distance == x + Out(edges, u)[j].distance
    ensures var d := RelaxedFirst(edges, u, x, seen, d0, q0, |Out(edges, u)|).0;
      Out(edges, u)[j].coordinate in d && d[Out(edges, u)[j].coordinate].previous == u
  {
    RelaxOutcome(edges, u, x, seen, d0, q0);
  }

  lemma RelaxedFirstSkip(edges: Edges, u: Coordinate, x: real, seen: set<Coordinate>,
                         d0: Distances, q0: seq<Entry>, i: nat, d: Distances, q: seq<Entry>)
    requires i < |Out(edges, u)| && (d, q) == RelaxedFirst(edges, u, x, seen, d0, q0, i)
    requires !Improves(edges, u, x, seen, d, i)
    ensures RelaxedFirst(edges, u, x, seen, d0, q0, i + 1) == (d, q)
  {
  }

  lemma RelaxedFirstRecord(edges: Edges, u: Coordinate, x: real, seen: set<Coordinate>,
                           d0: Distances, q0: seq<Entry>, i: nat, d: Distances, q: seq<Entry>)
    requires i < |Out(edges, u)| && (d, q) == RelaxedFirst(edges, u, x, seen, d0, q0, i)
    requires Improves(edges, u, x, seen, d, i)
    ensures RelaxedFirst(edges, u, x, seen, d0, q0, i + 1)
         == (Recorded(edges, d, u, x, i), q + [Entry(Out(edges, u)[i].coordinate, x + Out(edges, u)[i].distance)])
  {
  }

  /**
   * What the first i destinations of u do to the entry of one vertex w: a
   * seen vertex, or one that is not among them, keeps its entry; otherwise
   * the entry only gets nearer, is no farther than any of those edges, and
   * has u as predecessor unless it is the old entry and strictly nearer.
   */
  lemma {:induction false} RelaxedFirstEntry(edges: Edges, u: Coordinate, x: real, seen: set<Coordinate>,
                                             d0: Distances, q0: seq<Entry>, i: nat, w: Coordinate)
    requires i <= |Out(edges, u)|
    ensures var d := RelaxedFirst(edges, u, x, seen, d0, q0, i).0;
      && ((w in seen || w !in Targets(edges, u)[..i]) ==>
            (w in d <==> w in d0) && (w in d0 ==> d[w] == d0[w]))
      && (w in d0 && w !in seen ==> w in d && d[w].distance <= d0[w].distance)
      && (w in d ==> (w in d0 && d[w] == d0[w]) || d[w].previous == u)
      && (forall j :: 0 <= j < i && Out(edges, u)[j].coordinate == w && w !in seen ==>
            w in d && d[w].distance <= x + Out(edges, u)[j].distance)
      && (forall j :: 0 <= j < i && Out(edges, u)[j].coordinate == w && Improves(edges, u, x, seen, d0, j) ==>
            w in d && d[w].previous == u)
    decreases i
  {
    if i > 0 {
      RelaxedFirstEntry(edges, u, x, seen, d0, q0, i - 1, w);
      assert Targets(edges, u)[..i] == Targets(edges, u)[..i - 1] + [Out(edges, u)[i - 1].coordinate];
    }
  }

  /** The invariant of the loop over the destinations of u, the first i of them done. */
  ghost predicate Relaxing(edges: Edges, from: Coordinate, u: Coordinate, x: real, seen: set<Coordinate>,
                           distances: Distances, queue: seq<Entry>, V: set<Coordinate>, rank: map<Coordinate, nat>, i: int)
  {
    && V == Vertices(edges) + {from}
    && u in seen && from in seen && Dist(distances, u) == x
    && (forall s :: s in seen ==> Dist(distances, s) <= x)
    && Bounded(V, seen, distances, queue)
    && Tree(edges, from, seen, distances, rank)
    && Frontier(from, seen, distances, queue)
    && Settled(edges, from, seen - {u}, distances)
    && RelaxedUpTo(edges, from, u, x, distances, i)
  }

  /** A destination already seen, or recorded strictly closer, is passed over. */
  lemma RelaxSkip(edges: Edges, from: Coordinate, u: Coordinate, x: real, seen: set<Coordinate>,
                  distances: Distances, queue: seq<Entry>, V: set<Coordinate>, rank: map<Coordinate, nat>, i: int)
    requires Relaxing(edges, from, u, x, seen, distances, queue, V, rank, i)
    requires 0 <= i < |Out(edges, u)|
    requires || Out(edges, u)[i].coordinate in seen
             || (&& Out(edges, u)[i].coordinate in distances
                 && distances[Out(edges, u)[i].coordinate].distance < x + Out(edges, u)[i].distance)
    ensures Relaxing(edges, from, u, x, seen, distances, queue, V, rank, i + 1)
  {
    if Out(edges, u)[i].coordinate in seen {
      SkipSeen(edges, from, seen, distances, u, x, i);
    } else {
      SkipCloser(edges, from, distances, u, x, i);
    }
  }

  /** Any other destination is recorded through u and queued. */
  lemma RelaxRecord(edges: Edges, from: Coordinate, u: Coordinate, x: real, seen: set<Coordinate>,
                    distances: Distances, queue: seq<Entry>, V: set<Coordinate>, rank: map<Coordinate, nat>, i: int)
    requires Relaxing(edges, from, u, x, seen, distances, queue, V, rank, i)
    requires 0 <= i < |Out(edges, u)|
    requires Out(edges, u)[i].coordinate !in seen
    requires !(Out(edges, u)[i].coordinate in distances
               && distances[Out(edges, u)[i].coordinate].distance < x + Out(edges, u)[i].distance)
    ensures Relaxing(edges, from, u, x, seen, Recorded(edges, distances, u, x, i),
                     queue + [Entry(Out(edges, u)[i].coordinate, x + Out(edges, u)[i].distance)], V, rank, i + 1)
  {
    EdgeInVertices(edges, u, i);
    RecordKeepsTree(edges, from, seen, distances, rank, u, x, i);
    RecordKeepsFrontier(edges, from, seen, distances, queue, u, x, i);
    RecordKeepsSettled(edges, from, seen - {u}, seen, distances, u, x, i);
  }

  /** Once every destination of u is done, u joins the settled vertices. */
  lemma RelaxDone(edges: Edges, from: Coordinate, u: Coordinate, x: real, seen: set<Coordinate>,
                  distances: Distances, queue: seq<Entry>, V: set<Coordinate>, rank: map<Coordinate, nat>)
    requires Relaxing(edges, from, u, x, seen, distances, queue, V, rank, |Out(edges, u)|)
    ensures Bounded(V, seen, distances, queue)
    ensures Tree(edges, from, seen, distances, rank)
    ensures Frontier(from, seen, distances, queue)
    ensures Settled(edges, from, seen, distances)
  {
    RelaxedAll(edges, from, seen, distances, u, x);
    assert seen == seen + {u};
  }

  /** The last entry of a queue sorted by decreasing distance is a nearest one. */
  lemma PopNearest(q: seq<Entry>)
    requires q != [] && SortedDescending(q)
    ensures SortedDescending(q[..|q| - 1])
    ensures forall f :: f in q ==> q[|q| - 1].distance <= f.distance
    ensures forall f :: f in q ==> f in q[..|q| - 1] || f == q[|q| - 1]
  {
    forall f | f in q
      ensures q[|q| - 1].distance <= f.distance
      ensures f in q[..|q| - 1] || f == q[|q| - 1]
    {
      var k :| 0 <= k < |q| && q[k] == f;
      if k < |q| - 1 {
        assert q[..|q| - 1][k] == f;
      }
    }
  }

  /** Popping an entry of a seen vertex keeps the invariant. */
  lemma SkipPopped(V: set<Coordinate>, from: Coordinate, seen: set<Coordinate>, distances: Distances, q: seq<Entry>)
    requires q != [] && SortedDescending(q) && q[|q| - 1].coordinate in seen
    requires Bounded(V, seen, distances, q)
    requires Frontier(from, seen, distances, q)
    ensures SortedDescending(q[..|q| - 1])
    ensures Bounded(V, seen, distances, q[..|q| - 1])
    ensures Frontier(from, seen, distances, q[..|q| - 1])
  {
    PopNearest(q);
    forall w | w in distances && w !in seen
      ensures Entry(w, Dist(distances, w)) in q[..|q| - 1]
    {
      assert Entry(w, Dist(distances, w)) in q;
    }
  }

  /**
   * Popping an entry of an unseen vertex u: its distance is u's recorded
   * distance, no seen vertex is farther, and marking u seen at the next
   * rank meets everything the relaxation of u requires.
   */
  lemma SeePopped(edges: Edges, V: set<Coordinate>, from: Coordinate, seen: set<Coordinate>, distances: Distances,
                  q: seq<Entry>, rank: map<Coordinate, nat>)
    requires q != [] && SortedDescending(q) && q[|q| - 1].coordinate !in seen
    requires seen == {} ==> q == [Entry(from, 0.0)] && distances == map[]
    requires seen != {} ==> from in seen
    requires Bounded(V, seen, distances, q)
    requires Tree(edges, from, seen, distances, rank)
    requires Frontier(from, seen, distances, q)
    requires Settled(edges, from, seen, distances)
    ensures var u := q[|q| - 1].coordinate;
            var x := q[|q| - 1].distance;
            var seen' := seen + {u};
            var rank' := rank[u := |seen|];
            var q' := q[..|q| - 1];
            && from in seen' && Dist(distances, u) == x
            && (forall s :: s in seen' ==> Dist(distances, s) <= x)
            && u in V && |V - seen'| < |V - seen|
            && Bounded(V, seen', distances, q')
            && Tree(edges, from, seen', distances, rank')
            && Frontier(from, seen', distances, q')
            && Settled(edges, from, seen' - {u}, distances)
  {
    var u := q[|q| - 1].coordinate;
    PopNearest(q);
    PoppedDistance(from, seen, distances, q);
    PoppedTree(edges, from, seen, distances, u, rank);
    PoppedFrontier(V, from, seen, distances, q);
    FewerUnseenAfter(V, seen, u);
    assert (seen + {u}) - {u} == seen;
  }

  /** Marking the popped vertex seen keeps what the rest of the queue holds. */
  lemma PoppedFrontier(V: set<Coordinate>, from: Coordinate, seen: set<Coordinate>, distances: Distances, q: seq<Entry>)
    requires q != []
    requires forall f :: f in q ==> f in q[..|q| - 1] || f == q[|q| - 1]
    requires forall f :: f in q ==> q[|q| - 1].distance <= f.distance
    requires Dist(distances, q[|q| - 1].coordinate) == q[|q| - 1].distance
    requires Bounded(V, seen, distances, q)
    requires Frontier(from, seen, distances, q)
    ensures q[|q| - 1].coordinate in V
    ensures Bounded(V, seen + {q[|q| - 1].coordinate}, distances, q[..|q| - 1])
    ensures Frontier(from, seen + {q[|q| - 1].coordinate}, distances, q[..|q| - 1])
  {
    var u := q[|q| - 1].coordinate;
    assert q[|q| - 1] in q;
    forall w | w in distances && w !in seen + {u}
      ensures Entry(w, Dist(distances, w)) in q[..|q| - 1]
    {
      assert Entry(w, Dist(distances, w)) in q;
    }
  }

  lemma FewerUnseenAfter(V: set<Coordinate>, seen: set<Coordinate>, u: Coordinate)
    requires u in V && u !in seen
    ensures |V - (seen + {u})| < |V - seen|
  {
    assert V - seen == (V - (seen + {u})) + {u};
  }

  /** The popped entry carries its vertex's recorded distance, which no seen vertex exceeds. */
  lemma PoppedDistance(from: Coordinate, seen: set<Coordinate>, distances: Distances, q: seq<Entry>)
    requires q != [] && q[|q| - 1].coordinate !in seen
    requires forall f :: f in q ==> q[|q| - 1].distance <= f.distance
    requires seen == {} ==> q == [Entry(from, 0.0)] && distances == map[]
    requires seen != {} ==> from in seen
    requires from !in distances
    requires Frontier(from, seen, distances, q)
    ensures var u := q[|q| - 1].coordinate;
            var x := q[|q| - 1].distance;
            && from in seen + {u} && Dist(distances, u) == x
            && (forall s :: s in seen + {u} ==> Dist(distances, s) <= x)
  {
    var u := q[|q| - 1].coordinate;
    assert q[|q| - 1] in q;
    if seen != {} {
      assert Entry(u, Dist(distances, u)) in q;
    }
  }

  /** Marking an unseen vertex seen at the next rank keeps the predecessor tree. */
  lemma PoppedTree(edges: Edges, from: Coordinate, seen: set<Coordinate>, distances: Distances,
                   u: Coordinate, rank: map<Coordinate, nat>)
    requires u !in seen
    requires Tree(edges, from, seen, distances, rank)
    requires u == from || u in distances
    ensures Tree(edges, from, seen + {u}, distances, rank[u := |seen|])
  {
    PoppedRanks(seen, u, rank);
    PoppedOrder(seen, distances, u, rank);
    PoppedLinks(edges, seen, distances, u);
  }

  lemma PoppedLinks(edges: Edges, seen: set<Coordinate>, distances: Distances, u: Coordinate)
    requires forall v :: v in distances ==> distances[v].previous in seen && Linked(edges, distances, v)
    ensures forall v :: v in distances ==> distances[v].previous in seen + {u} && Linked(edges, distances, v)
  {
  }

  lemma PoppedRanks(seen: set<Coordinate>, u: Coordinate, rank: map<Coordinate, nat>)
    requires u !in seen
    requires forall v :: v in seen ==> v in rank && rank[v] < |seen|
    ensures forall v :: v in seen + {u} ==> v in rank[u := |seen|] && rank[u := |seen|][v] < |seen + {u}|
  {
    assert |seen + {u}| == |seen| + 1;
  }

  lemma PoppedOrder(seen: set<Coordinate>, distances: Distances, u: Coordinate, rank: map<Coordinate, nat>)
    requires u !in seen
    requires forall v :: v in seen ==> v in rank && rank[v] < |seen|
    requires forall v :: v in distances ==> distances[v].previous in seen
    requires forall v :: v in distances && v in seen ==> rank[distances[v].previous] < rank[v]
    ensures forall v :: v in distances && v in seen + {u} ==>
              rank[u := |seen|][distances[v].previous] < rank[u := |seen|][v]
  {
    forall v | v in distances && v in seen + {u}
      ensures rank[u := |seen|][distances[v].previous] < rank[u := |seen|][v]
    {
      var p := distances[v].previous;
      assert p in seen && p != u;
      if v != u {
        assert v in seen;
      }
    }
  }

  /** Sorting the queue keeps its entries, so it keeps the invariant. */
  lemma SortKeeps(V: set<Coordinate>, from: Coordinate, seen: set<Coordinate>, distances: Distances,
                  q: seq<Entry>, sorted: seq<Entry>)
    requires multiset(sorted) == multiset(q)
    requires Bounded(V, seen, distances, q)
    requires Frontier(from, seen, distances, q)
    ensures Bounded(V, seen, distances, sorted)
    ensures Frontier(from, seen, distances, sorted)
  {
    assert forall f :: f in sorted <==> f in multiset(sorted);
    assert forall f :: f in q <==> f in multiset(q);
  }

  /**
   * The main loop of `shortestPath`: pops the nearest queued entry, skips
   * it when its vertex was seen, and otherwise marks it seen, relaxes its
   * edges and sorts the queue by decreasing distance.
   */
  method Explore(edges: Edges, from: Coordinate)
    returns (seen: set<Coordinate>, distances: Distances, ghost rank: map<Coordinate, nat>)
    ensures from in seen
    ensures Tree(edges, from, seen, distances, rank)
    ensures forall w :: w in distances ==> w in seen
    ensures Settled(edges, from, seen, distances)
  {
    ghost var V := Vertices(edges) + {from};
    seen, distances, rank := {}, map[], map[];
    var queue := [Entry(from, 0.0)];
    ExploreStart(edges, V, from);
    while queue != []
      invariant Exploring(edges, V, from, seen, distances, queue, rank)
      decreases |V - seen|, |queue|
    {
      var e := queue[|queue| - 1];
      if e.coordinate in seen {
        ExploreSkip(edges, V, from, seen, distances, queue, rank);
        queue := queue[..|queue| - 1];
        continue;
      }
      SeePopped(edges, V, from, seen, distances, queue, rank);
      queue := queue[..|queue| - 1];
      rank := rank[e.coordinate := |seen|];
      seen := seen + {e.coordinate};
      distances, queue := Relax(edges, from, e.coordinate, e.distance, seen, distances, queue, V, rank);
      var sorted := SortDescending(queue);
      SortKeeps(V, from, seen, distances, queue, sorted);
      queue := sorted;
      ExploreResumed(edges, V, from, seen, distances, queue, rank);
    }
    ExploreDone(edges, V, from, seen, distances, rank);
  }

  /** The invariant of the exploration loop. */
  ghost predicate Exploring(edges: Edges, V: set<Coordinate>, from: Coordinate, seen: set<Coordinate>,
                            distances: Distances, queue: seq<Entry>, rank: map<Coordinate, nat>)
  {
    && V == Vertices(edges) + {from}
    && (seen == {} ==> queue == [Entry(from, 0.0)] && distances == map[])
    && (seen != {} ==> from in seen)
    && SortedDescending(queue)
    && Bounded(V, seen, distances, queue)
    && Tree(edges, from, seen, distances, rank)
    && Frontier(from, seen, distances, queue)
    && Settled(edges, from, seen, distances)
  }

  lemma ExploreStart(edges: Edges, V: set<Coordinate>, from: Coordinate)
    requires V == Vertices(edges) + {from}
    ensures Exploring(edges, V, from, {}, map[], [Entry(from, 0.0)], map[])
  {
  }

  lemma ExploreSkip(edges: Edges, V: set<Coordinate>, from: Coordinate, seen: set<Coordinate>,
                    distances: Distances, queue: seq<Entry>, rank: map<Coordinate, nat>)
    requires Exploring(edges, V, from, seen, distances, queue, rank)
    requires queue != [] && queue[|queue| - 1].coordinate in seen
    ensures Exploring(edges, V, from, seen, distances, queue[..|queue| - 1], rank)
  {
    SkipPopped(V, from, seen, distances, queue);
  }

  lemma ExploreResumed(edges: Edges, V: set<Coordinate>, from: Coordinate, seen: set<Coordinate>,
                       distances: Distances, queue: seq<Entry>, rank: map<Coordinate, nat>)
    requires V == Vertices(edges) + {from} && from in seen && SortedDescending(queue)
    requires Bounded(V, seen, distances, queue)
    requires Tree(edges, from, seen, distances, rank)
    requires Frontier(from, seen, distances, queue)
    requires Settled(edges, from, seen, distances)
    ensures Exploring(edges, V, from, seen, distances, queue, rank)
  {
  }

  lemma ExploreDone(edges: Edges, V: set<Coordinate>, from: Coordinate, seen: set<Coordinate>,
                    distances: Distances, rank: map<Coordinate, nat>)
    requires Exploring(edges, V, from, seen, distances, [], rank)
    ensures from in seen
    ensures Tree(edges, from, seen, distances, rank)
    ensures forall w :: w in distances ==> w in seen
    ensures Settled(edges, from, seen, distances)
  {
  }

  /**
   * Once exploration is over, every walk from the start ends at a seen
   * vertex whose recorded distance is at most the walk's cost.
   */
  lemma {:induction false} WalksAreBounded(edges: Edges, from: Coordinate, seen: set<Coordinate>,
                                            distances: Distances, q: seq<Coordinate>)
    requires from in seen && from !in distances
    requires forall w :: w in distances ==> w in seen
    requires Settled(edges, from, seen, distances)
    requires IsWalk(edges, q) && q[0] == from
    ensures q[|q| - 1] in seen
    ensures Dist(distances, q[|q| - 1]) <= Cost(edges, q)
    decreases |q|
  {
    if |q| > 1 {
      var p := q[..|q| - 1];
      var w := q[|q| - 1];
      assert IsWalk(edges, p) by {
        forall i | 0 <= i < |p| - 1 ensures IsEdge(edges, p[i], p[i + 1]) {
          assert p[i] == q[i] && p[i + 1] == q[i + 1];
        }
      }
      WalksAreBounded(edges, from, seen, distances, p);
      var u := p[|p| - 1];
      assert IsEdge(edges, u, w) by {
        assert q[|q| - 2] == u;
      }
      assert q == p + [w];
      CostAppend(edges, p, w);
      var j :| 0 <= j < |edges[u]| && edges[u][j].coordinate == w && StepCost(edges, u, w) == edges[u][j].distance;
      assert Out(edges, u)[j] == edges[u][j];
    }
  }

  /** One step of the back-walk: the predecessor of the walk's first vertex extends it. */
  lemma BackStep(edges: Edges, from: Coordinate, seen: set<Coordinate>, distances: Distances, rank: map<Coordinate, nat>,
                 to: Coordinate, walk: seq<Coordinate>)
    requires Tree(edges, from, seen, distances, rank)
    requires IsWalk(edges, walk) && walk[0] in distances
    requires Cost(edges, walk) <= Dist(distances, to) - Dist(distances, walk[0])
    ensures var v := distances[walk[0]].previous;
            && IsWalk(edges, [v] + walk)
            && Cost(edges, [v] + walk) <= Dist(distances, to) - Dist(distances, v)
  {
    var v := distances[walk[0]].previous;
    assert Linked(edges, distances, walk[0]);
    CostPrepend(edges, v, walk);
  }

  /**
   * `shortestPath(from:to:)`: nothing when `to` received no predecessor,
   * which happens exactly when it is the start or cannot be reached;
   * otherwise a walk from `from` to `to` that no other walk undercuts.
   */
  method ShortestPath(edges: Edges, from: Coordinate, to: Coordinate) returns (path: Option<seq<Coordinate>>)
    requires from in edges && to in edges
    ensures path.None? <==> from == to || !Reachable(edges, from, to)
    ensures path.Some? ==> IsWalk(edges, path.value) && path.value[0] == from && path.value[|path.value| - 1] == to
    ensures path.Some? ==> forall q :: IsWalk(edges, q) && q[0] == from && q[|q| - 1] == to ==>
                              Cost(edges, path.value) <= Cost(edges, q)
  {
    var seen, distances, rank := Explore(edges, from);
    if to !in distances {
      if from != to && Reachable(edges, from, to) {
        var q :| IsWalk(edges, q) && q[0] == from && q[|q| - 1] == to;
        WalksAreBounded(edges, from, seen, distances, q);
        assert false;
      }
      return None;
    }
    var current := distances[to].previous;
    var result := [to];
    ghost var walk := [to];
    while current != from
      invariant current in seen
      invariant walk == Reverse(result)
      invariant IsWalk(edges, walk) && walk[|walk| - 1] == to && walk[0] in distances && walk[0] in seen
      invariant current == distances[walk[0]].previous
      invariant Cost(edges, walk) <= Dist(distances, to) - Dist(distances, walk[0])
      decreases rank[current]
    {
      BackStep(edges, from, seen, distances, rank, to, walk);
      ReverseAppend(result, current);
      result := result + [current];
      walk := [current] + walk;
      current := distances[current].previous;
    }
    BackStep(edges, from, seen, distances, rank, to, walk);
    ReverseAppend(result, from);
    result := result + [from];
    walk := [from] + walk;
    assert Reachable(edges, from, to);
    forall q | IsWalk(edges, q) && q[0] == from && q[|q| - 1] == to
      ensures Cost(edges, walk) <= Cost(edges, q)
    {
      WalksAreBounded(edges, from, seen, distances, q);
    }
    path := Some(Reverse(result));
  }

  /** A reachable vertex's successor is reachable. */
  lemma ReachableStep(edges: Edges, from: Coordinate, a: Coordinate, b: Coordinate)
    requires Reachable(edges, from, a) && IsEdge(edges, a, b)
    ensures Reachable(edges, from, b)
  {
    var p :| IsWalk(edges, p) && p[0] == from && p[|p| - 1] == a;
    CostAppend(edges, p, b);
    assert (p + [b])[0] == from;
  }

  /** The start reaches itself. */
  lemma ReachableStart(edges: Edges, from: Coordinate)
    ensures Reachable(edges, from, from)
  {
    assert IsWalk(edges, [from]);
  }

  /** A set that holds the start and every successor of its members holds every reachable vertex. */
  lemma {:induction false} ClosedHoldsReachable(edges: Edges, from: Coordinate, seen: set<Coordinate>, q: seq<Coordinate>)
    requires from in seen
    requires forall a, j :: a in seen && 0 <= j < |Out(edges, a)| ==> Out(edges, a)[j].coordinate in seen
    requires IsWalk(edges, q) && q[0] == from
    ensures q[|q| - 1] in seen
    decreases |q|
  {
    if |q| > 1 {
      var p := q[..|q| - 1];
      assert IsWalk(edges, p) by {
        forall i | 0 <= i < |p| - 1 ensures IsEdge(edges, p[i], p[i + 1]) {
          assert p[i] == q[i] && p[i + 1] == q[i + 1];
        }
      }
      ClosedHoldsReachable(edges, from, seen, p);
      var u := q[|q| - 2];
      assert IsEdge(edges, u, q[|q| - 1]);
      var j :| 0 <= j < |edges[u]| && edges[u][j].coordinate == q[|q| - 1];
      assert Out(edges, u)[j] == edges[u][j];
    }
  }

  /** The pairs of all layers, in order. */
  function Pairs(layers: seq<seq<(Coordinate, Coordinate)>>): seq<(Coordinate, Coordinate)>
  {
    if layers == [] then [] else Pairs(layers[..|layers| - 1]) + layers[|layers| - 1]
  }

  lemma PairsAppendToLast(layers: seq<seq<(Coordinate, Coordinate)>>, p: (Coordinate, Coordinate))
    requires layers != []
    ensures Pairs(layers[|layers| - 1 := layers[|layers| - 1] + [p]]) == Pairs(layers) + [p]
  {
    var l := layers[|layers| - 1 := layers[|layers| - 1] + [p]];
    assert l[..|l| - 1] == layers[..|layers| - 1];
  }

  lemma PairsAppendEmpty(layers: seq<seq<(Coordinate, Coordinate)>>)
    ensures Pairs(layers + [[]]) == Pairs(layers)
  {
    assert (layers + [[]])[..|layers|] == layers;
  }

  /** The pair (source, destination) of each edge out of source. */
  function EdgesFrom(edges: Edges, source: Coordinate): (r: seq<(Coordinate, Coordinate)>)
    ensures |r| == |Out(edges, source)|
    ensures forall j :: 0 <= j < |r| ==> r[j] == (source, Out(edges, source)[j].coordinate)
  {
    seq(|Out(edges, source)|, j requires 0 <= j < |Out(edges, source)| => (source, Out(edges, source)[j].coordinate))
  }

  /** The destination of each edge out of source. */
  function Targets(edges: Edges, source: Coordinate): (r: seq<Coordinate>)
    ensures |r| == |Out(edges, source)|
    ensures forall j :: 0 <= j < |r| ==> r[j] == Out(edges, source)[j].coordinate
  {
    seq(|Out(edges, source)|, j requires 0 <= j < |Out(edges, source)| => Out(edges, source)[j].coordinate)
  }

  /**
   * The body of `for edge in edges[source] ?? []`: every edge out of source
   * is appended to the last layer and its destination to the next sources.
   */
  method EmitEdges(edges: Edges, source: Coordinate, result0: seq<seq<(Coordinate, Coordinate)>>, next0: seq<Coordinate>)
    returns (result: seq<seq<(Coordinate, Coordinate)>>, next: seq<Coordinate>)
    requires result0 != []
    ensures |result| == |result0|
    ensures Pairs(result) == Pairs(result0) + EdgesFrom(edges, source)
    ensures next == next0 + Targets(edges, source)
  {
    result, next := result0, next0;
    var out := Out(edges, source);
    for k := 0 to |out|
      invariant |result| == |result0|
      invariant Pairs(result) == Pairs(result0) + EdgesFrom(edges, source)[..k]
      invariant next == next0 + Targets(edges, source)[..k]
    {
      PairsAppendToLast(result, (source, out[k].coordinate));
      result := result[|result| - 1 := result[|result| - 1] + [(source, out[k].coordinate)]];
      next := next + [out[k].coordinate];
      assert EdgesFrom(edges, source)[..k + 1] == EdgesFrom(edges, source)[..k] + [(source, out[k].coordinate)];
      assert Targets(edges, source)[..k + 1] == Targets(edges, source)[..k] + [out[k].coordinate];
    }
    assert EdgesFrom(edges, source)[..|out|] == EdgesFrom(edges, source);
    assert Targets(edges, source)[..|out|] == Targets(edges, source);
  }

  /** What holds of the layers and the seen vertices between two sources of a round. */
  ghost predicate Explored(edges: Edges, from: Coordinate, seen: set<Coordinate>, sources: seq<Coordinate>,
                           found: seq<Coordinate>, pairs: seq<(Coordinate, Coordinate)>)
  {
    && (forall p :: p in pairs ==> IsEdge(edges, p.0, p.1) && p.0 in seen)
    && (forall v :: v in seen ==> Reachable(edges, from, v))
    && (forall v :: v in sources ==> Reachable(edges, from, v))
    && (forall v :: v in found ==> Reachable(edges, from, v))
    && (forall a, j :: a in seen && 0 <= j < |Out(edges, a)| ==>
          (a, Out(edges, a)[j].coordinate) in pairs
          && (Out(edges, a)[j].coordinate in seen || Out(edges, a)[j].coordinate in sources
              || Out(edges, a)[j].coordinate in found))
  }

  /** Visiting one source keeps the invariant, with its destinations added to the found ones. */
  lemma VisitKeeps(edges: Edges, from: Coordinate, seen: set<Coordinate>, sources: seq<Coordinate>,
                   found: seq<Coordinate>, pairs: seq<(Coordinate, Coordinate)>, source: Coordinate)
    requires source in sources
    requires Explored(edges, from, seen, sources, found, pairs)
    ensures Explored(edges, from, seen + {source}, sources, found + Targets(edges, source), pairs + EdgesFrom(edges, source))
  {
    var seen' := seen + {source};
    var found' := found + Targets(edges, source);
    var pairs' := pairs + EdgesFrom(edges, source);
    forall p | p in pairs'
      ensures IsEdge(edges, p.0, p.1) && p.0 in seen'
    {
      if p !in pairs {
        var j :| 0 <= j < |EdgesFrom(edges, source)| && EdgesFrom(edges, source)[j] == p;
        assert edges[source][j].coordinate == p.1;
      }
    }
    forall v | v in found'
      ensures Reachable(edges, from, v)
    {
      if v !in found {
        var j :| 0 <= j < |Targets(edges, source)| && Targets(edges, source)[j] == v;
        assert edges[source][j].coordinate == v;
        ReachableStep(edges, from, source, v);
      }
    }
    forall a, j | a in seen' && 0 <= j < |Out(edges, a)|
      ensures (a, Out(edges, a)[j].coordinate) in pairs'
      ensures Out(edges, a)[j].coordinate in seen' || Out(edges, a)[j].coordinate in sources
              || Out(edges, a)[j].coordinate in found'
    {
      if a == source {
        assert EdgesFrom(edges, source)[j] == (a, Out(edges, a)[j].coordinate);
        assert Targets(edges, source)[j] == Out(edges, a)[j].coordinate;
      }
    }
  }

  /** `filter { !seen.contains($0) }`. */
  function Unseen(s: seq<Coordinate>, seen: set<Coordinate>): (r: seq<Coordinate>)
    ensures forall v :: v in r <==> v in s && v !in seen
    ensures |s| == 1 ==> r == (if s[0] in seen then [] else s)
  {
    if s == [] then []
    else Unseen(s[..|s| - 1], seen) + (if s[|s| - 1] in seen then [] else [s[|s| - 1]])
  }

  /** The filter distributes over concatenation, so the order is kept. */
  lemma {:induction false} UnseenConcat(a: seq<Coordinate>, b: seq<Coordinate>, seen: set<Coordinate>)
    ensures Unseen(a + b, seen) == Unseen(a, seen) + Unseen(b, seen)
    decreases |b|
  {
    if b == [] {
      assert a + b == a;
    } else {
      var b', e := b[..|b| - 1], b[|b| - 1];
      assert (a + b)[..|a + b| - 1] == a + b';
      assert (a + b)[|a + b| - 1] == e;
      UnseenConcat(a, b', seen);
    }
  }

  /** An unseen point is kept as often as it occurs. */
  lemma {:induction false} UnseenCounts(s: seq<Coordinate>, seen: set<Coordinate>, v: Coordinate)
    ensures multiset(Unseen(s, seen))[v] == if v in seen then 0 else multiset(s)[v]
    decreases |s|
  {
    if s != [] {
      var s', e := s[..|s| - 1], s[|s| - 1];
      assert s == s' + [e];
      UnseenCounts(s', seen, v);
    }
  }

  /**
   * The body of `for source in sourcePoints`: marks each source seen and
   * emits its edges into the last layer, collecting their destinations.
   */
  method VisitRound(edges: Edges, from: Coordinate, ghost V: set<Coordinate>, seen0: set<Coordinate>,
                    sourcePoints: seq<Coordinate>, result0: seq<seq<(Coordinate, Coordinate)>>)
    returns (seen: set<Coordinate>, newSourcePoints: seq<Coordinate>, result: seq<seq<(Coordinate, Coordinate)>>)
    requires ClosedUnderEdges(edges, V)
    requires result0 != []
    requires seen0 <= V && forall v :: v in sourcePoints ==> v in V
    requires Explored(edges, from, seen0, sourcePoints, [], Pairs(result0))
    ensures |result| == |result0|
    ensures seen0 <= seen <= V
    ensures forall v :: v in sourcePoints ==> v in seen
    ensures forall v :: v in newSourcePoints ==> v in V
    ensures Explored(edges, from, seen, sourcePoints, newSourcePoints, Pairs(result))
  {
    seen, newSourcePoints, result := seen0, [], result0;
    for i := 0 to |sourcePoints|
      invariant |result| == |result0|
      invariant seen0 <= seen <= V
      invariant forall t :: 0 <= t < i ==> sourcePoints[t] in seen
      invariant forall v :: v in newSourcePoints ==> v in V
      invariant Explored(edges, from, seen, sourcePoints, newSourcePoints, Pairs(result))
    {
      var source := sourcePoints[i];
      var layers, next := EmitEdges(edges, source, result, newSourcePoints);
      VisitStep(edges, from, V, seen, sourcePoints, newSourcePoints, result, source, layers, next);
      seen := seen + {source};
      result, newSourcePoints := layers, next;
    }
  }

  /** One source of a round, with the layers and next sources `EmitEdges` produced for it. */
  lemma VisitStep(edges: Edges, from: Coordinate, V: set<Coordinate>, seen: set<Coordinate>, sourcePoints: seq<Coordinate>,
                  newSourcePoints: seq<Coordinate>, result: seq<seq<(Coordinate, Coordinate)>>, source: Coordinate,
                  result': seq<seq<(Coordinate, Coordinate)>>, next: seq<Coordinate>)
    requires ClosedUnderEdges(edges, V)
    requires source in sourcePoints
    requires forall v :: v in newSourcePoints ==> v in V
    requires Explored(edges, from, seen, sourcePoints, newSourcePoints, Pairs(result))
    requires Pairs(result') == Pairs(result) + EdgesFrom(edges, source)
    requires next == newSourcePoints + Targets(edges, source)
    ensures forall v :: v in next ==> v in V
    ensures Explored(edges, from, seen + {source}, sourcePoints, next, Pairs(result'))
  {
    VisitKeeps(edges, from, seen, sourcePoints, newSourcePoints, Pairs(result), source);
    TargetsInV(edges, V, source, newSourcePoints);
  }

  lemma TargetsInV(edges: Edges, V: set<Coordinate>, source: Coordinate, newSourcePoints: seq<Coordinate>)
    requires ClosedUnderEdges(edges, V)
    requires forall v :: v in newSourcePoints ==> v in V
    ensures forall v :: v in newSourcePoints + Targets(edges, source) ==> v in V
  {
    forall v | v in newSourcePoints + Targets(edges, source)
      ensures v in V
    {
      if v !in newSourcePoints {
        var j :| 0 <= j < |Targets(edges, source)| && Targets(edges, source)[j] == v;
        assert Out(edges, source)[j].coordinate == v;
      }
    }
  }

  /** Keeping only the unseen pending vertices keeps the invariant once every source is seen. */
  lemma NextSourcesKeep(edges: Edges, from: Coordinate, seen: set<Coordinate>, sourcePoints: seq<Coordinate>,
                        newSourcePoints: seq<Coordinate>, pairs: seq<(Coordinate, Coordinate)>)
    requires forall v :: v in sourcePoints ==> v in seen
    requires Explored(edges, from, seen, sourcePoints, newSourcePoints, pairs)
    ensures Explored(edges, from, seen, Unseen(newSourcePoints, seen), [], pairs)
  {
  }

  /** Every destination of an edge is in V. */
  ghost predicate ClosedUnderEdges(edges: Edges, V: set<Coordinate>)
  {
    forall u, j :: 0 <= j < |Out(edges, u)| ==> Out(edges, u)[j].coordinate in V
  }

  lemma VerticesClosed(edges: Edges, from: Coordinate)
    ensures ClosedUnderEdges(edges, Vertices(edges) + {from})
  {
    forall u, j | 0 <= j < |Out(edges, u)|
      ensures Out(edges, u)[j].coordinate in Vertices(edges) + {from}
    {
      EdgeInVertices(edges, u, j);
    }
  }

  lemma {:induction false} CardSubset(a: set<Coordinate>, b: set<Coordinate>)
    requires a <= b
    ensures |a| <= |b|
    decreases |b|
  {
    if b != {} {
      var x :| x in b;
      CardSubset(a - {x}, b - {x});
    }
  }

  /** A round that sees a new vertex leaves fewer vertices unseen. */
  lemma FewerUnseen(V: set<Coordinate>, seen0: set<Coordinate>, seen: set<Coordinate>, x: Coordinate)
    requires seen0 <= seen && x in V && x in seen && x !in seen0
    ensures |V - seen| < |V - seen0|
  {
    CardSubset(V - seen, (V - seen0) - {x});
  }

  /**
   * `debug_connectedVertices(from:)`: layers of (source, destination) pairs
   * found breadth first from `from`, ending with an empty layer. Every pair
   * is an edge leaving a reachable vertex, and every edge leaving a
   * reachable vertex is listed.
   */
  method ConnectedVertices(edges: Edges, from: Coordinate) returns (result: seq<seq<(Coordinate, Coordinate)>>)
    ensures |result| >= 2 && result[|result| - 1] == []
    ensures forall p :: p in Pairs(result) ==> IsEdge(edges, p.0, p.1) && Reachable(edges, from, p.0)
    ensures forall a, j :: Reachable(edges, from, a) && 0 <= j < |Out(edges, a)| ==>
              (a, Out(edges, a)[j].coordinate) in Pairs(result)
  {
    ghost var V := Vertices(edges) + {from};
    VerticesClosed(edges, from);
    result := [[]];
    var seen: set<Coordinate> := {};
    var sourcePoints := [from];
    ReachableStart(edges, from);
    while sourcePoints != []
      invariant result != [] && result[|result| - 1] == []
      invariant seen == {} ==> sourcePoints == [from] && result == [[]]
      invariant seen != {} ==> from in seen && |result| >= 2
      invariant seen <= V && forall v :: v in sourcePoints ==> v in V && v !in seen
      invariant Explored(edges, from, seen, sourcePoints, [], Pairs(result))
      decreases |V - seen|
    {
      ghost var seen0 := seen;
      var newSourcePoints;
      seen, newSourcePoints, result := VisitRound(edges, from, V, seen, sourcePoints, result);
      FewerUnseen(V, seen0, seen, sourcePoints[0]);
      PairsAppendEmpty(result);
      result := result + [[]];
      NextSourcesKeep(edges, from, seen, sourcePoints, newSourcePoints, Pairs(result));
      sourcePoints := Unseen(newSourcePoints, seen);
    }
    forall a, j | Reachable(edges, from, a) && 0 <= j < |Out(edges, a)|
      ensures (a, Out(edges, a)[j].coordinate) in Pairs(result)
    {
      var q :| IsWalk(edges, q) && q[0] == from && q[|q| - 1] == a;
      ClosedHoldsReachable(edges, from, seen, q);
    }
  }
}
