/** The browser page the client managers share: the two search fields with
    their dropdowns and styled wrappers, the find-route button, the route
    summary and its minimised copy, and the layers of the Leaflet map. Each
    manager holds a reference to the one page, as each JavaScript manager
    reaches the same `document` and the same map. */
module Page {
  import opened Collections
  import opened Catalog

  /** The two endpoints of a route: the 'start' and 'end' fields. */
  datatype Role = Start | End {
    function Other(): Role { if this == Start then End else Start }
  }

  /** One value per role. */
  datatype PerRole<T> = PerRole(start: T, end: T) {
    function Get(role: Role): T {
      if role == Start then start else end
    }
    function Set(role: Role, v: T): (r: PerRole<T>)
      ensures r.Get(role) == v && r.Get(role.Other()) == Get(role.Other())
    {
      if role == Start then this.(start := v) else this.(end := v)
    }
  }

  /** A rendered dropdown row: a selectable `.dropdown-item[data-id]` carrying
      its `data-id` text, its `data-type` and its (highlighted) caption, or the
      inert "No locations found" row. */
  datatype Row = LocationRow(dataId: string, dataType: Role, caption: string) | NoResultsRow

  /** The number of selectable rows, `querySelectorAll('.dropdown-item[data-id]').length`. */
  function SelectableCount(rows: seq<Row>): (n: nat)
    ensures n <= |rows|
  {
    if rows == [] then 0 else (if rows[0].LocationRow? then 1 else 0) + SelectableCount(rows[1..])
  }

  /** The `k`-th selectable row, if there is one (`validItems[k]`). */
  function SelectableAt(rows: seq<Row>, k: nat): (r: Option<Row>)
    ensures r.Some? <==> k < SelectableCount(rows)
    ensures r.Some? ==> r.value.LocationRow? && r.value in rows
  {
    if rows == [] then None
    else if rows[0].LocationRow? then (if k == 0 then Some(rows[0]) else SelectableAt(rows[1..], k - 1))
    else SelectableAt(rows[1..], k)
  }

  /** A suggestion dropdown: whether it carries the 'show' class, its rows,
      and the position among the selectable rows of the one carrying the
      'highlighted' class (no row carries it when the position is out of range). */
  datatype Dropdown = Dropdown(shown: bool, rows: seq<Row>, highlighted: int)

  /** The classes 'valid' and 'invalid' of a field's `.search-input-wrapper`. */
  datatype Mark = ValidMark | InvalidMark

  /** How the find-route button looks: its inner HTML and its 'loading' class. */
  datatype ButtonLook = ButtonLook(html: string, loading: bool)

  /** `#route-summary` (shown unless its display is 'none'), `#route-distance`, `#route-time`. */
  datatype Summary = Summary(shown: bool, distance: string, time: string)

  /** `#mini-route-info` and `#mini-distance`, the summary copy shown while the panel is minimised. */
  datatype MiniInfo = MiniInfo(shown: bool, distance: string)

  /** A map coordinate (latitude, longitude). */
  type Coord = (real, real)

  /** What a map layer draws: a role's pulsing marker at a location, or the route polyline. */
  datatype LayerKind = RoleMarker(role: Role, at: int) | RoutePath(points: seq<Coord>)

  /** A Leaflet layer: each `L.marker(...)` or `L.polyline(...)` is a new object. */
  class Layer {
    const kind: LayerKind

    constructor (kind: LayerKind)
      ensures this.kind == kind
    {
      this.kind := kind;
    }
  }

  function OptSet(l: Layer?): set<Layer>
  {
    if l == null then {} else {l}
  }

  class Page {
    /** The text of `#start-search` and `#end-search`. */
    var texts: PerRole<string>
    var dropdowns: PerRole<Dropdown>
    var wrappers: PerRole<set<Mark>>
    /** `#find-route.disabled`. */
    var routeDisabled: bool
    var routeButton: ButtonLook
    var summary: Summary
    var mini: MiniInfo
    /** The layers on the Leaflet map (role markers and route paths). */
    var layers: set<Layer>
    /** The ids of the locations drawn as circle markers in the markers layer group. */
    var dots: seq<int>
    /** The 'active' class of the layers button. */
    var layersButtonActive: bool

    /** The page as the template serves it: empty fields, hidden dropdowns, an
        empty map; whether the summary starts hidden is up to the template. */
    constructor (buttonLabel: string, summaryShown: bool)
      ensures texts == PerRole("", "") && wrappers == PerRole({}, {})
      ensures dropdowns == PerRole(Dropdown(false, [], -1), Dropdown(false, [], -1))
      ensures routeDisabled && routeButton == ButtonLook(buttonLabel, false)
      ensures summary == Summary(summaryShown, "", "") && !mini.shown
      ensures layers == {} && dots == []
    {
      texts := PerRole("", "");
      dropdowns := PerRole(Dropdown(false, [], -1), Dropdown(false, [], -1));
      wrappers := PerRole({}, {});
      routeDisabled := true;
      routeButton := ButtonLook(buttonLabel, false);
      summary := Summary(summaryShown, "", "");
      mini := MiniInfo(false, "");
      layers := {};
      dots := [];
      layersButtonActive := true;
    }

    /** The role markers of one role currently on the map. */
    function MarkerLayers(role: Role): set<Layer>
      reads this
    {
      set l | l in layers && l.kind.RoleMarker? && l.kind.role == role
    }

    /** The route polylines currently on the map. */
    function PathLayers(): set<Layer>
      reads this
    {
      set l | l in layers && l.kind.RoutePath?
    }
  }

  /** Every layer is a role marker or a route path, so a map without either
      has no layers at all. */
  lemma NothingLeftOnMap(page: Page)
    requires page.MarkerLayers(Start) == {} && page.MarkerLayers(End) == {} && page.PathLayers() == {}
    ensures page.layers == {}
  {
    forall l | l in page.layers
      ensures l in page.MarkerLayers(Start) + page.MarkerLayers(End) + page.PathLayers()
    {
      match l.kind
      case RoleMarker(role, _) =>
        assert l in page.MarkerLayers(role);
      case RoutePath(_) =>
    }
  }
}
