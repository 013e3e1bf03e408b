/** The route server's data and endpoints (app.py): the node list in its
    sorted order, the `/nodes` listing, and `/route`, which parses the two
    ids, runs A*, and stitches the edge geometries and weights along the
    path into the reply. Flask, JSON encoding and the template are not
    modelled; a reply is a value of `Response`. */
module RouteService {
  import opened Collections
  import opened Text
  import opened Catalog
  import opened Units
  import opened Graph
  import opened AStar

  // ---- the sorted node list ----

  /** The first part of the sort key: true for a waypoint ("Node ..."). A
      name is never missing here, since RecordOf fills one in. */
  predicate IsWaypointRecord(n: NodeRecord) {
    StartsWith(n.name, "Node")
  }

  /** Python's order on strings: by code point, a proper prefix first. */
  predicate NameLe(a: string, b: string)
    decreases |a|
  {
    a == [] || (b != [] && (a[0] < b[0] || (a[0] == b[0] && NameLe(a[1..], b[1..]))))
  }

  lemma {:induction false} NameLeTotal(a: string, b: string)
    ensures NameLe(a, b) || NameLe(b, a)
    decreases |a|
  {
    if a != [] && b != [] && a[0] == b[0] {
      NameLeTotal(a[1..], b[1..]);
    }
  }

  lemma {:induction false} NameLeTransitive(a: string, b: string, c: string)
    requires NameLe(a, b) && NameLe(b, c)
    ensures NameLe(a, c)
    decreases |a|
  {
    if a != [] && b != [] && c != [] && a[0] == b[0] == c[0] {
      NameLeTransitive(a[1..], b[1..], c[1..]);
    }
  }

  /** The sort key (is a waypoint, name), compared as a Python tuple. */
  predicate KeyLe(a: NodeRecord, b: NodeRecord) {
    (!IsWaypointRecord(a) && IsWaypointRecord(b)) ||
    (IsWaypointRecord(a) == IsWaypointRecord(b) && NameLe(a.name, b.name))
  }

  predicate SortedByKey(s: seq<NodeRecord>) {
    forall i :: 0 <= i < |s| - 1 ==> KeyLe(s[i], s[i + 1])
  }

  /** Insert `x` before the first entry whose key is not smaller, so that
      among equal keys the earlier entry stays first. */
  function Insert(x: NodeRecord, s: seq<NodeRecord>): (r: seq<NodeRecord>)
    ensures |r| == |s| + 1 && (r[0] == x || (s != [] && r[0] == s[0]))
  {
    if s == [] then [x]
    else if KeyLe(x, s[0]) then [x] + s
    else [s[0]] + Insert(x, s[1..])
  }

  /** `nodes_list.sort(key=...)`: a stable sort by KeyLe. */
  function SortNodes(s: seq<NodeRecord>): (r: seq<NodeRecord>)
    ensures |r| == |s|
  {
    if s == [] then [] else Insert(s[0], SortNodes(s[1..]))
  }

  lemma {:induction false} InsertSorted(x: NodeRecord, s: seq<NodeRecord>)
    requires SortedByKey(s)
    ensures SortedByKey(Insert(x, s))
    ensures multiset(Insert(x, s)) == multiset(s) + multiset{x}
    decreases |s|
  {
    if s != [] && !KeyLe(x, s[0]) {
      var t := s[1..];
      assert SortedByKey(t);
      InsertSorted(x, t);
      NameLeTotal(x.name, s[0].name);
      assert KeyLe(s[0], x);
      assert s == [s[0]] + t;
      var r := Insert(x, s);
      assert r == [s[0]] + Insert(x, t);
      forall i | 0 <= i < |r| - 1
        ensures KeyLe(r[i], r[i + 1])
      {
        if i > 0 {
          assert r[i] == Insert(x, t)[i - 1] && r[i + 1] == Insert(x, t)[i];
        }
      }
    } else if s != [] {
      assert Insert(x, s) == [x] + s;
    }
  }

  /** The sorted list is ordered by the key and holds the same records. */
  lemma {:induction false} SortNodesSortedPermutation(s: seq<NodeRecord>)
    ensures SortedByKey(SortNodes(s))
    ensures multiset(SortNodes(s)) == multiset(s)
  {
    if s != [] {
      SortNodesSortedPermutation(s[1..]);
      InsertSorted(s[0], SortNodes(s[1..]));
      assert s == [s[0]] + s[1..];
    }
  }

  /** In a sorted list no named location comes after a waypoint. */
  lemma {:induction false} WaypointsAfterNamed(s: seq<NodeRecord>)
    requires SortedByKey(s) && s != [] && IsWaypointRecord(s[0])
    ensures forall x :: x in s ==> IsWaypointRecord(x)
  {
    if |s| > 1 {
      assert KeyLe(s[0], s[1]);
      WaypointsAfterNamed(s[1..]);
      assert s == [s[0]] + s[1..];
    }
  }

  // ---- /nodes and the page data ----

  /** `/nodes`: the records whose name does not start with "Node", in list order. */
  function NamedNodes(nodes: seq<NodeRecord>): seq<NodeRecord>
  {
    Filter(nodes, (n: NodeRecord) => !IsWaypointRecord(n))
  }

  /** On the sorted list, /nodes is a prefix of the list: the named
      locations come first. */
  lemma {:induction false} NamedNodesArePrefix(s: seq<NodeRecord>)
    requires SortedByKey(s)
    ensures |NamedNodes(s)| <= |s| && NamedNodes(s) == s[..|NamedNodes(s)|]
  {
    if s != [] {
      assert SortedByKey(s[1..]);
      if IsWaypointRecord(s[0]) {
        WaypointsAfterNamed(s);
        forall x | x in s ensures !(!IsWaypointRecord(x)) {}
        NothingPasses(s);
      } else {
        NamedNodesArePrefix(s[1..]);
        var m := |NamedNodes(s[1..])|;
        assert NamedNodes(s) == [s[0]] + s[1..][..m];
        assert [s[0]] + s[1..][..m] == s[..m + 1];
      }
    }
  }

  lemma {:induction false} NothingPasses(s: seq<NodeRecord>)
    requires forall x :: x in s ==> IsWaypointRecord(x)
    ensures NamedNodes(s) == []
  {
    if s != [] {
      assert forall x :: x in s[1..] ==> x in s;
      NothingPasses(s[1..]);
    }
  }

  /** The page data entry for a record. */
  function ToLocations(nodes: seq<NodeRecord>): (r: seq<Location>)
    ensures |r| == |nodes|
    ensures forall i :: 0 <= i < |nodes| ==>
              r[i] == Location(nodes[i].id, nodes[i].name, nodes[i].lat, nodes[i].lng)
  {
    if nodes == [] then []
    else [Location(nodes[0].id, nodes[0].name, nodes[0].lat, nodes[0].lng)] + ToLocations(nodes[1..])
  }

  /** The page renders the whole node list and the client drops the
      waypoints; what is left is exactly what /nodes returns. */
  lemma {:induction false} PageCatalogIsNodesEndpoint(nodes: seq<NodeRecord>)
    ensures Selectable(ToLocations(nodes)) == ToLocations(NamedNodes(nodes))
  {
    if nodes != [] {
      PageCatalogIsNodesEndpoint(nodes[1..]);
      var locs := ToLocations(nodes);
      assert locs[1..] == ToLocations(nodes[1..]);
      assert IsWaypoint(locs[0]) == IsWaypointRecord(nodes[0]);
      if !IsWaypointRecord(nodes[0]) {
        assert ToLocations([nodes[0]] + NamedNodes(nodes[1..])) ==
               [locs[0]] + ToLocations(NamedNodes(nodes[1..]));
      }
    }
  }

  // ---- the server's state ----

  /** What the server loads at start-up, and the great-circle distance the
      heuristic uses. */
  datatype Server = Server(
    weight: Weights,
    edgeGeom: map<(int, int), seq<Point>>,
    nodes: seq<NodeRecord>,
    nodeCoords: map<int, Point>,
    distance: (Point, Point) -> real)

  /** Start-up: build the graph from graph.csv's rows, the records and
      positions from nodes.csv's rows, and sort the records. */
  method Load(edgeRows: seq<EdgeRow>, nodeRows: seq<NodeRow>, distance: (Point, Point) -> real)
    returns (s: Server)
    ensures s.weight == WeightsOf(edgeRows) && s.edgeGeom == LastWins(GeomPairs(edgeRows))
    ensures s.nodeCoords == LastWins(CoordPairs(nodeRows)) && s.distance == distance
    ensures SortedByKey(s.nodes) && |s.nodes| == |nodeRows|
    ensures multiset(s.nodes) == multiset(seq(|nodeRows|, i requires 0 <= i < |nodeRows| => RecordOf(nodeRows[i])))
  {
    var weight, edgeGeom := BuildGraph(edgeRows);
    var records, nodeCoords := BuildNodes(nodeRows);
    assert records == seq(|nodeRows|, i requires 0 <= i < |nodeRows| => RecordOf(nodeRows[i]));
    SortNodesSortedPermutation(records);
    s := Server(weight, edgeGeom, SortNodes(records), nodeCoords, distance);
  }

  /** `next((n for n in nodes_list if n['id'] == id), None)`. */
  function NodeById(nodes: seq<NodeRecord>, id: int): (r: Option<NodeRecord>)
    ensures r.Some? ==> exists i :: 0 <= i < |nodes| && nodes[i] == r.value && r.value.id == id &&
                                    forall j :: 0 <= j < i ==> nodes[j].id != id
    ensures r.None? ==> forall n :: n in nodes ==> n.id != id
  {
    FindFirst(nodes, (n: NodeRecord) => n.id == id)
  }

  // ---- /route ----

  /** The weight of an edge when the map has it, and nothing otherwise. */
  function EdgeCost(w: Weights, u: int, v: int): real {
    if IsEdge(w, u, v) then w[u][v] else 0.0
  }

  /** total_distance after the first n pairs of the path. */
  function CostTo(w: Weights, p: seq<int>, n: int): real
    requires 0 <= n < |p|
  {
    if n == 0 then 0.0 else CostTo(w, p, n - 1) + EdgeCost(w, p[n - 1], p[n])
  }

  /** total_distance for the whole path. */
  function PathCost(w: Weights, p: seq<int>): real {
    if p == [] then 0.0 else CostTo(w, p, |p| - 1)
  }

  /** With no negative weight, the distance only grows along the path and is never negative. */
  lemma {:induction false} CostGrows(w: Weights, p: seq<int>, k: int, n: int)
    requires forall u, v :: IsEdge(w, u, v) ==> w[u][v] >= 0.0
    requires 0 <= k <= n < |p|
    ensures 0.0 <= CostTo(w, p, k) <= CostTo(w, p, n)
    decreases n
  {
    if k < n {
      CostGrows(w, p, k, n - 1);
    } else if n > 0 {
      CostGrows(w, p, n - 1, n - 1);
    }
  }

  /** `edge_geom.get((u, v), [])`. */
  function SegmentOf(edgeGeom: map<(int, int), seq<Point>>, u: int, v: int): seq<Point> {
    if (u, v) in edgeGeom then edgeGeom[(u, v)] else []
  }

  /** Append a segment, dropping its first point when it repeats the last point so far. */
  function JoinSegment(coords: seq<Point>, seg: seq<Point>): (r: seq<Point>)
    ensures seg != [] ==> r != [] && r[|r| - 1] == seg[|seg| - 1]
    ensures coords != [] && seg != [] && coords[|coords| - 1] == seg[0] ==> |r| == |coords| + |seg| - 1
  {
    if coords != [] && seg != [] && coords[|coords| - 1] == seg[0] then coords + seg[1..] else coords + seg
  }

  /** The coordinates after the first n pairs of the path. */
  function StitchedTo(edgeGeom: map<(int, int), seq<Point>>, p: seq<int>, n: int): seq<Point>
    requires 0 <= n < |p|
  {
    if n == 0 then [] else JoinSegment(StitchedTo(edgeGeom, p, n - 1), SegmentOf(edgeGeom, p[n - 1], p[n]))
  }

  /** The route's coordinates: the path's edge geometries joined in order. */
  function Stitched(edgeGeom: map<(int, int), seq<Point>>, p: seq<int>): seq<Point> {
    if p == [] then [] else StitchedTo(edgeGeom, p, |p| - 1)
  }

  /** Every point of the drawn route is a point of one of its edges' geometries. */
  lemma {:induction false} StitchedPointsFromSegments(edgeGeom: map<(int, int), seq<Point>>, p: seq<int>, n: int, q: Point)
    requires 0 <= n < |p| && q in StitchedTo(edgeGeom, p, n)
    ensures exists i :: 0 <= i < n && q in SegmentOf(edgeGeom, p[i], p[i + 1])
    decreases n
  {
    if q in StitchedTo(edgeGeom, p, n - 1) {
      StitchedPointsFromSegments(edgeGeom, p, n - 1, q);
    } else {
      assert q in SegmentOf(edgeGeom, p[n - 1], p[n]);
    }
  }

  /** The route drawn after k pairs is a prefix of the route drawn after n:
      segments are only ever appended. */
  lemma {:induction false} StitchedGrows(edgeGeom: map<(int, int), seq<Point>>, p: seq<int>, k: int, n: int)
    requires 0 <= k <= n < |p|
    ensures var prefix := StitchedTo(edgeGeom, p, k);
            |prefix| <= |StitchedTo(edgeGeom, p, n)| && StitchedTo(edgeGeom, p, n)[..|prefix|] == prefix
    decreases n
  {
    if k < n {
      StitchedGrows(edgeGeom, p, k, n - 1);
      var before := StitchedTo(edgeGeom, p, n - 1);
      assert StitchedTo(edgeGeom, p, n)[..|before|] == before;
    }
  }

  /** The loop body for the pair (u, v) = (path[i], path[i + 1]): add the
      edge's weight when the map has the edge, and append its geometry,
      without a first point that repeats the last point so far. */
  method AddLeg(weight: Weights, edgeGeom: map<(int, int), seq<Point>>, path: seq<int>, i: int,
                coords: seq<Point>, total: real)
    returns (coords': seq<Point>, total': real)
    requires 0 <= i < |path| - 1
    requires coords == StitchedTo(edgeGeom, path, i) && total == CostTo(weight, path, i)
    ensures coords' == StitchedTo(edgeGeom, path, i + 1) && total' == CostTo(weight, path, i + 1)
  {
    var u, v := path[i], path[i + 1];
    var seg := SegmentOf(edgeGeom, u, v);
    total' := total;
    if u in weight && v in weight[u] {
      total' := total' + weight[u][v];
    }
    if coords != [] && seg != [] && coords[|coords| - 1] == seg[0] {
      seg := seg[1..];
    }
    coords' := coords + seg;
  }

  /** The loop over the path's consecutive pairs: the coordinates are the
      joined geometries and the distance is the summed weights. */
  method StitchRoute(weight: Weights, edgeGeom: map<(int, int), seq<Point>>, path: seq<int>)
    returns (coords: seq<Point>, total: real)
    ensures coords == Stitched(edgeGeom, path) && total == PathCost(weight, path)
  {
    coords := [];
    total := 0.0;
    if path == [] {
      return;
    }
    for i := 0 to |path| - 1
      invariant coords == StitchedTo(edgeGeom, path, i) && total == CostTo(weight, path, i)
    {
      coords, total := AddLeg(weight, edgeGeom, path, i, coords, total);
    }
  }

  /** The reply of /route. */
  datatype Response =
    | BadRequest
    | NoRoute
    | RouteFound(path: seq<int>, coords: seq<Point>, distanceTenths: int, walkingTime: string,
                 startInfo: Option<NodeRecord>, endInfo: Option<NodeRecord>)

  /** The HTTP status of a reply. */
  function Status(r: Response): int {
    match r
    case BadRequest => 400
    case NoRoute => 404
    case RouteFound(_, _, _, _, _, _) => 200
  }

  /** The `error` text of a failed reply. */
  function ErrorText(r: Response): string {
    match r
    case BadRequest => "Invalid node IDs"
    case NoRoute => "No route found between selected locations"
    case RouteFound(_, _, _, _, _, _) => ""
  }

  /** `int(request.args.get('start'))` and the same for `end`: a missing
      argument or a text int() rejects makes the pair fail. */
  function ParseIds(startArg: Option<string>, endArg: Option<string>): (r: Option<(int, int)>)
    ensures r.Some? <==> startArg.Some? && endArg.Some? && PyInt(startArg.value).Some? && PyInt(endArg.value).Some?
  {
    if startArg.None? || endArg.None? then None
    else match (PyInt(startArg.value), PyInt(endArg.value))
      case (Some(a), Some(b)) => Some((a, b))
      case _ => None
  }

  /** The ids the client writes into its request are the ids the server reads back. */
  lemma ClientIdsParse(startId: int, endId: int)
    ensures ParseIds(Some(IntToString(startId)), Some(IntToString(endId))) == Some((startId, endId))
  {
    PyIntRoundTrip(startId);
    PyIntRoundTrip(endId);
  }

  /** An id with a letter in it is refused with 400. */
  lemma LettersAreBadRequest()
    ensures ParseIds(Some("12a"), Some("3")) == None
    ensures ParseIds(None, Some("3")) == None
  {
    PyIntRejectsLetters();
  }

  /** /route: 400 when an id does not parse; 404 when A* finds no path,
      that is when an end has no outgoing edges or `end` cannot be reached;
      otherwise the path, its stitched coordinates, its length rounded to a
      tenth, the walking time, and the first records with the two ids. */
  method Route(s: Server, startArg: Option<string>, endArg: Option<string>) returns (r: Response)
    ensures ParseIds(startArg, endArg).None? <==> r == BadRequest
    ensures ParseIds(startArg, endArg).Some? ==>
              var (a, b) := ParseIds(startArg, endArg).value;
              && (r == NoRoute <==> !(a in s.weight && b in s.weight && Reachable(s.weight, a, b)))
              && (r.RouteFound? ==>
                    && PathFromTo(s.weight, r.path, a, b)
                    && r.coords == Stitched(s.edgeGeom, r.path)
                    && r.distanceTenths == RoundHalfEven(PathCost(s.weight, r.path) * 10.0)
                    && r.walkingTime == Render(PyDuration(PathCost(s.weight, r.path)))
                    && r.startInfo == NodeById(s.nodes, a) && r.endInfo == NodeById(s.nodes, b))
              && (a == b && a in s.weight ==> r.RouteFound? && r.path == [a] && r.coords == [] && r.distanceTenths == 0)
  {
    var ids := ParseIds(startArg, endArg);
    if ids.None? {
      return BadRequest;
    }
    var (a, b) := ids.value;
    var found;
    ghost var expanded;
    found, expanded := Astar(s.weight, n => Heuristic(s.nodeCoords, s.distance, n, b), a, b);
    if found.None? {
      return NoRoute;
    }
    var path := found.value;
    var coords, total := StitchRoute(s.weight, s.edgeGeom, path);
    r := RouteFound(path, coords, RoundHalfEven(total * 10.0), Render(PyDuration(total)),
                    NodeById(s.nodes, a), NodeById(s.nodes, b));
  }
}
