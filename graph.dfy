/** The routing graph of the route server (app.py): edge weights and edge
    geometries built from the rows of graph.csv, node records built from the
    rows of nodes.csv, and the distance heuristic. Reading the CSV files and
    parsing WKT are not modelled: rows arrive already decoded, a geometry as
    its (longitude, latitude) points or None when it could not be parsed. */
module Graph {
  import opened Collections
  import opened Text

  /** A point of a geometry or a node position. */
  type Point = (real, real)

  /** `weight`: for each node with outgoing edges, its neighbours and the edge weights. */
  type Weights = map<int, map<int, real>>

  predicate IsEdge(w: Weights, u: int, v: int) {
    u in w && v in w[u]
  }

  /** Every node the graph mentions: the sources and the targets of its edges. */
  ghost function Nodes(w: Weights): set<int>
  {
    w.Keys + set u, v | u in w && v in w[u] :: v
  }

  lemma EdgeEndsAreNodes(w: Weights, u: int, v: int)
    requires IsEdge(w, u, v)
    ensures u in Nodes(w) && v in Nodes(w)
  {
  }

  /** Consecutive nodes of the path are joined by edges. */
  predicate IsPath(w: Weights, p: seq<int>) {
    forall i :: 0 <= i < |p| - 1 ==> IsEdge(w, p[i], p[i + 1])
  }

  predicate PathFromTo(w: Weights, p: seq<int>, s: int, t: int) {
    |p| >= 1 && p[0] == s && p[|p| - 1] == t && IsPath(w, p)
  }

  ghost predicate Reachable(w: Weights, s: int, t: int) {
    exists p :: PathFromTo(w, p, s, t)
  }

  /** A path extended along an edge out of its last node is still a path. */
  lemma ExtendPath(w: Weights, p: seq<int>, v: int)
    requires |p| >= 1 && IsPath(w, p) && IsEdge(w, p[|p| - 1], v)
    ensures IsPath(w, p + [v])
  {
    var q := p + [v];
    forall i | 0 <= i < |q| - 1 ensures IsEdge(w, q[i], q[i + 1]) {
      if i < |p| - 1 {
        assert q[i] == p[i] && q[i + 1] == p[i + 1];
      }
    }
  }

  /** A set holding `s` and closed under edges holds every node reachable from `s`. */
  lemma {:induction false} ClosedSetHoldsPaths(w: Weights, closed: set<int>, p: seq<int>, s: int, t: int)
    requires s in closed
    requires forall u, v :: u in closed && IsEdge(w, u, v) ==> v in closed
    requires PathFromTo(w, p, s, t)
    ensures t in closed
    decreases |p|
  {
    if |p| > 1 {
      var init := p[..|p| - 1];
      assert PathFromTo(w, init, s, init[|init| - 1]);
      ClosedSetHoldsPaths(w, closed, init, s, init[|init| - 1]);
      assert IsEdge(w, p[|p| - 2], p[|p| - 1]);
    }
  }

  /** A node outside a set that holds `s` and is closed under edges is not reachable from `s`. */
  lemma ClosedSetBlocks(w: Weights, closed: set<int>, s: int, t: int)
    requires s in closed && t !in closed
    requires forall u, v :: u in closed && IsEdge(w, u, v) ==> v in closed
    ensures !Reachable(w, s, t)
  {
    forall p | PathFromTo(w, p, s, t)
      ensures false
    {
      ClosedSetHoldsPaths(w, closed, p, s, t);
    }
  }

  // ---- graph.csv ----

  /** A row of graph.csv: `from`, `to`, `weight`, and the parsed geometry. */
  datatype EdgeRow = EdgeRow(from: int, to: int, weight: real, geometry: Option<seq<Point>>)

  /** `weight.setdefault(u, {})[v] = w`. */
  function AddEdge(w: Weights, u: int, v: int, x: real): (r: Weights)
    ensures IsEdge(r, u, v) && r[u][v] == x
    ensures forall a, b :: (a, b) != (u, v) ==> (IsEdge(r, a, b) <==> IsEdge(w, a, b))
    ensures forall a, b :: (a, b) != (u, v) && IsEdge(w, a, b) ==> IsEdge(r, a, b) && r[a][b] == w[a][b]
  {
    w[u := (if u in w then w[u] else map[])[v := x]]
  }

  /** The weights after reading the rows in order. */
  function WeightsOf(rows: seq<EdgeRow>): Weights
  {
    if rows == [] then map[]
    else
      var last := rows[|rows| - 1];
      AddEdge(WeightsOf(rows[..|rows| - 1]), last.from, last.to, last.weight)
  }

  /** There is an edge u -> v exactly when some row goes from u to v. */
  lemma {:induction false} EdgeIffRow(rows: seq<EdgeRow>, u: int, v: int)
    ensures IsEdge(WeightsOf(rows), u, v) <==>
            exists i :: 0 <= i < |rows| && rows[i].from == u && rows[i].to == v
  {
    if rows != [] {
      var init := rows[..|rows| - 1];
      EdgeIffRow(init, u, v);
      if exists i :: 0 <= i < |init| && init[i].from == u && init[i].to == v {
        var i :| 0 <= i < |init| && init[i].from == u && init[i].to == v;
        assert rows[i] == init[i];
      }
      if exists i :: 0 <= i < |rows| && rows[i].from == u && rows[i].to == v {
        var i :| 0 <= i < |rows| && rows[i].from == u && rows[i].to == v;
        if i < |init| {
          assert init[i] == rows[i];
        }
      }
    }
  }

  /** A repeated edge keeps the weight of its last row. */
  lemma {:induction false} LastRowWins(rows: seq<EdgeRow>, i: int)
    requires 0 <= i < |rows|
    requires forall j :: i < j < |rows| ==> (rows[j].from, rows[j].to) != (rows[i].from, rows[i].to)
    ensures IsEdge(WeightsOf(rows), rows[i].from, rows[i].to)
    ensures WeightsOf(rows)[rows[i].from][rows[i].to] == rows[i].weight
  {
    if i < |rows| - 1 {
      var init := rows[..|rows| - 1];
      assert init[i] == rows[i];
      LastRowWins(init, i);
    }
  }

  /** The geometry stored for a row: its points turned into (latitude,
      longitude), or no points when the geometry could not be parsed. */
  function Segment(geometry: Option<seq<Point>>): (r: seq<Point>)
    ensures geometry.None? ==> r == []
    ensures geometry.Some? ==>
              && |r| == |geometry.value|
              && forall k :: 0 <= k < |r| ==> r[k] == (geometry.value[k].1, geometry.value[k].0)
  {
    if geometry.None? then []
    else seq(|geometry.value|, k requires 0 <= k < |geometry.value| => (geometry.value[k].1, geometry.value[k].0))
  }

  /** A dictionary filled from key/value pairs in order: the last pair for a key wins. */
  function LastWins<K, V>(pairs: seq<(K, V)>): map<K, V>
  {
    if pairs == [] then map[]
    else LastWins(pairs[..|pairs| - 1])[pairs[|pairs| - 1].0 := pairs[|pairs| - 1].1]
  }

  /** The keys are the keys of the pairs, and each key holds the value of its last pair. */
  lemma {:induction false} LastWinsValue<K, V>(pairs: seq<(K, V)>, i: int)
    requires 0 <= i < |pairs|
    requires forall j :: i < j < |pairs| ==> pairs[j].0 != pairs[i].0
    ensures pairs[i].0 in LastWins(pairs) && LastWins(pairs)[pairs[i].0] == pairs[i].1
  {
    if i < |pairs| - 1 {
      var init := pairs[..|pairs| - 1];
      assert init[i] == pairs[i];
      LastWinsValue(init, i);
    }
  }

  lemma {:induction false} LastWinsKeys<K, V>(pairs: seq<(K, V)>, k: K)
    ensures k in LastWins(pairs) <==> exists i :: 0 <= i < |pairs| && pairs[i].0 == k
  {
    if pairs != [] {
      var init := pairs[..|pairs| - 1];
      LastWinsKeys(init, k);
      if exists i :: 0 <= i < |init| && init[i].0 == k {
        var i :| 0 <= i < |init| && init[i].0 == k;
        assert pairs[i] == init[i];
      }
      if exists i :: 0 <= i < |pairs| && pairs[i].0 == k {
        var i :| 0 <= i < |pairs| && pairs[i].0 == k;
        if i < |init| {
          assert init[i] == pairs[i];
        }
      }
    }
  }

  /** The (edge, geometry) pairs of the rows. */
  function GeomPairs(rows: seq<EdgeRow>): (r: seq<((int, int), seq<Point>)>)
    ensures |r| == |rows| && forall i :: 0 <= i < |rows| ==>
              r[i] == ((rows[i].from, rows[i].to), Segment(rows[i].geometry))
  {
    seq(|rows|, i requires 0 <= i < |rows| => ((rows[i].from, rows[i].to), Segment(rows[i].geometry)))
  }

  /** The loop over graph.csv: every row sets the weight and the geometry of
      its edge, a later row for the same edge replacing an earlier one. */
  method BuildGraph(rows: seq<EdgeRow>) returns (weight: Weights, edgeGeom: map<(int, int), seq<Point>>)
    ensures weight == WeightsOf(rows)
    ensures edgeGeom == LastWins(GeomPairs(rows))
  {
    weight := map[];
    edgeGeom := map[];
    for i := 0 to |rows|
      invariant weight == WeightsOf(rows[..i])
      invariant edgeGeom == LastWins(GeomPairs(rows)[..i])
    {
      var row := rows[i];
      weight := AddEdge(weight, row.from, row.to, row.weight);
      edgeGeom := edgeGeom[(row.from, row.to) := Segment(row.geometry)];
      assert rows[..i + 1][..i] == rows[..i];
      assert GeomPairs(rows)[..i + 1][..i] == GeomPairs(rows)[..i];
    }
    assert rows[..|rows|] == rows;
    assert GeomPairs(rows)[..|rows|] == GeomPairs(rows);
  }

  // ---- nodes.csv ----

  /** A row of nodes.csv: `node_id`, `x` (longitude), `y` (latitude), and the name when present. */
  datatype NodeRow = NodeRow(nodeId: int, x: real, y: real, name: Option<string>)

  /** A node record `{id, lat, lng, name}`. */
  datatype NodeRecord = NodeRecord(id: int, lat: real, lng: real, name: string)

  /** The record for a row: an unnamed node is called "Node <id>". */
  function RecordOf(row: NodeRow): (r: NodeRecord)
    ensures r.id == row.nodeId && r.lat == row.y && r.lng == row.x
    ensures row.name.Some? ==> r.name == row.name.value
    ensures row.name.None? ==> r.name == "Node " + IntToString(row.nodeId)
  {
    NodeRecord(row.nodeId, row.y, row.x, if row.name.Some? then row.name.value else "Node " + IntToString(row.nodeId))
  }

  /** An unnamed node's record is a waypoint: its name starts with "Node". */
  lemma UnnamedIsWaypoint(row: NodeRow)
    requires row.name.None?
    ensures StartsWith(RecordOf(row).name, "Node")
  {
    assert RecordOf(row).name[..4] == "Node";
  }

  function CoordPairs(rows: seq<NodeRow>): (r: seq<(int, Point)>)
    ensures |r| == |rows| && forall i :: 0 <= i < |rows| ==> r[i] == (rows[i].nodeId, (rows[i].y, rows[i].x))
  {
    seq(|rows|, i requires 0 <= i < |rows| => (rows[i].nodeId, (rows[i].y, rows[i].x)))
  }

  /** The loop over nodes.csv: one record per row, in row order, and the
      position of each id (the last row for an id wins). */
  method BuildNodes(rows: seq<NodeRow>) returns (nodes: seq<NodeRecord>, nodeCoords: map<int, Point>)
    ensures |nodes| == |rows| && forall i :: 0 <= i < |rows| ==> nodes[i] == RecordOf(rows[i])
    ensures nodeCoords == LastWins(CoordPairs(rows))
  {
    nodes := [];
    nodeCoords := map[];
    for i := 0 to |rows|
      invariant |nodes| == i && forall k :: 0 <= k < i ==> nodes[k] == RecordOf(rows[k])
      invariant nodeCoords == LastWins(CoordPairs(rows)[..i])
    {
      var row := rows[i];
      nodes := nodes + [RecordOf(row)];
      nodeCoords := nodeCoords[row.nodeId := (row.y, row.x)];
      assert CoordPairs(rows)[..i + 1][..i] == CoordPairs(rows)[..i];
    }
    assert CoordPairs(rows)[..|rows|] == CoordPairs(rows);
  }

  /** heuristic(n1, n2): the distance between the two nodes' positions, or 0
      when either has none. The great-circle distance is a parameter. */
  function Heuristic(nodeCoords: map<int, Point>, distance: (Point, Point) -> real, n1: int, n2: int): (r: real)
    ensures n1 !in nodeCoords || n2 !in nodeCoords ==> r == 0.0
    ensures n1 in nodeCoords && n2 in nodeCoords ==> r == distance(nodeCoords[n1], nodeCoords[n2])
  {
    if n1 !in nodeCoords || n2 !in nodeCoords then 0.0 else distance(nodeCoords[n1], nodeCoords[n2])
  }
}
