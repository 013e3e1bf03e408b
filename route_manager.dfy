/** routeManager.js: asks the route endpoint for a path between the two
    selections, draws the returned polyline, fills the route summary, and
    clears them again. The network is a parameter: `Reply` is what
    `fetch(...)` followed by `response.json()` produced. */
module Routes {
  import opened Collections
  import opened Text
  import opened Catalog
  import opened Page
  import opened Units
  import opened Ui

  /** The outcome of the request: no JSON body at all (network failure or
      unparsable body), or the decoded body. A missing or empty `error` and a
      missing or empty `walking_time` are both "" (falsy in JavaScript);
      `distance` is the server's value in tenths of a metre. */
  datatype Reply =
    | NoJson
    | Json(error: string, coords: seq<Coord>, distanceTenths: int, walkingTime: string)

  /** The request findRoute sends: `/route?start=<id>&end=<id>`. */
  function RouteUrl(startId: int, endId: int): string
  {
    "/route?start=" + IntToString(startId) + "&end=" + IntToString(endId)
  }

  /** `routeData.walking_time || this.calculateWalkingTime(routeData.distance)`. */
  function TimeText(walkingTime: string, distanceTenths: int): (r: string)
    ensures walkingTime != "" ==> r == walkingTime
    ensures walkingTime == "" ==> r == Render(JsDuration(distanceTenths as real / 10.0))
  {
    if walkingTime != "" then walkingTime else Render(JsDuration(distanceTenths as real / 10.0))
  }

  /** The find-route button's label while a request is outstanding. */
  const FindingHtml: string := "<i class=\"fas fa-spinner fa-spin\"></i> Finding..."

  class RouteManager {
    const page: Page
    var pathLayer: Layer?

    /** The only route polyline on the map is the one this manager holds. */
    ghost predicate Valid()
      reads this, page
    {
      page.PathLayers() == OptSet(pathLayer)
    }

    constructor (page: Page)
      requires page.PathLayers() == {}
      ensures this.page == page && Valid() && pathLayer == null
    {
      this.page := page;
      pathLayer := null;
    }

    /** hasActiveRoute: a route is active exactly when a polyline is on the map. */
    function HasActiveRoute(): (b: bool)
      reads this, page
      requires Valid()
      ensures b <==> page.PathLayers() != {}
    {
      pathLayer != null
    }

    /** clearRoute: the polyline (if any) leaves the map, and the summary and
        its minimised copy are hidden; their texts and the markers stay. */
    method ClearRoute()
      requires Valid()
      modifies this`pathLayer, page`layers, page`summary, page`mini
      ensures Valid() && pathLayer == null && !HasActiveRoute()
      ensures page.layers == old(page.layers) - OptSet(old(pathLayer))
      ensures page.MarkerLayers(Start) == old(page.MarkerLayers(Start))
      ensures page.MarkerLayers(End) == old(page.MarkerLayers(End))
      ensures page.summary == old(page.summary).(shown := false)
      ensures page.mini == old(page.mini).(shown := false)
    {
      if pathLayer != null {
        page.layers := page.layers - {pathLayer};
        pathLayer := null;
      }
      assert page.PathLayers() == {};
      assert page.MarkerLayers(Start) == old(page.MarkerLayers(Start));
      assert page.MarkerLayers(End) == old(page.MarkerLayers(End));
      page.summary := page.summary.(shown := false);
      page.mini := page.mini.(shown := false);
    }

    /** displayRoute: always clears first; a non-empty coordinate list
        becomes the one polyline, the summary shows the distance and the
        walking time (the server's, else the client's estimate), and a
        minimised panel gets the distance copied into its mini info. */
    method DisplayRoute(coords: seq<Coord>, distanceTenths: int, walkingTime: string, ui: UIManager?)
      requires Valid() && (ui != null ==> ui.page == page)
      modifies this`pathLayer, page`layers, page`summary, page`mini
      ensures Valid()
      ensures page.MarkerLayers(Start) == old(page.MarkerLayers(Start))
      ensures page.MarkerLayers(End) == old(page.MarkerLayers(End))
      ensures coords == [] ==>
                && pathLayer == null && page.layers == old(page.layers) - OptSet(old(pathLayer))
                && page.summary == old(page.summary).(shown := false)
                && page.mini == old(page.mini).(shown := false)
      ensures coords != [] ==>
                && pathLayer != null && fresh(pathLayer) && pathLayer.kind == RoutePath(coords)
                && page.layers == old(page.layers) - OptSet(old(pathLayer)) + {pathLayer}
                && page.summary == Summary(true, DistanceText(distanceTenths), TimeText(walkingTime, distanceTenths))
                && page.mini == (if ui != null && ui.isPanelMinimized
                                 then MiniInfo(true, DistanceText(distanceTenths))
                                 else old(page.mini).(shown := false))
    {
      ClearRoute();
      if coords != [] {
        var path := new Layer(RoutePath(coords));
        page.layers := page.layers + {path};
        pathLayer := path;
        assert page.PathLayers() == {path};
        assert page.MarkerLayers(Start) == old(page.MarkerLayers(Start));
        assert page.MarkerLayers(End) == old(page.MarkerLayers(End));
        page.summary := Summary(true, DistanceText(distanceTenths), TimeText(walkingTime, distanceTenths));
        if ui != null && ui.isPanelMinimized {
          ui.UpdateMiniRouteInfo();
        }
      }
    }

    /** findRoute: without both selections nothing happens and no request is
        sent. Otherwise the request for the two ids is sent with the button
        in its loading look, and the button gets its label back whatever
        the outcome. A reply without an error is displayed; a failure or an
        error reply leaves the route, the summary and the map as they were. */
    method FindRoute(selectedStart: Option<Location>, selectedEnd: Option<Location>, reply: Reply, ui: UIManager?)
      returns (request: Option<string>)
      requires Valid() && (ui != null ==> ui.page == page)
      modifies this`pathLayer, page`layers, page`summary, page`mini, page`routeButton
      ensures Valid()
      ensures page.MarkerLayers(Start) == old(page.MarkerLayers(Start))
      ensures page.MarkerLayers(End) == old(page.MarkerLayers(End))
      ensures selectedStart.None? || selectedEnd.None? ==>
                request.None? && unchanged(this) && unchanged(page)
      ensures selectedStart.Some? && selectedEnd.Some? ==>
                && request == Some(RouteUrl(selectedStart.value.id, selectedEnd.value.id))
                && page.routeButton == old(page.routeButton).(loading := false)
      ensures selectedStart.Some? && selectedEnd.Some? && (reply.NoJson? || reply.error != "") ==>
                unchanged(this) && unchanged(page`layers, page`summary, page`mini)
      ensures selectedStart.Some? && selectedEnd.Some? && reply.Json? && reply.error == "" && reply.coords != [] ==>
                && pathLayer != null && fresh(pathLayer) && pathLayer.kind == RoutePath(reply.coords)
                && page.layers == old(page.layers) - OptSet(old(pathLayer)) + {pathLayer}
                && page.summary == Summary(true, DistanceText(reply.distanceTenths),
                                           TimeText(reply.walkingTime, reply.distanceTenths))
                && page.mini == (if ui != null && ui.isPanelMinimized
                                 then MiniInfo(true, DistanceText(reply.distanceTenths))
                                 else old(page.mini).(shown := false))
      ensures selectedStart.Some? && selectedEnd.Some? && reply.Json? && reply.error == "" && reply.coords == [] ==>
                && pathLayer == null && page.layers == old(page.layers) - OptSet(old(pathLayer))
                && page.summary == old(page.summary).(shown := false)
                && page.mini == old(page.mini).(shown := false)
    {
      if selectedStart.None? || selectedEnd.None? {
        request := None;
        return;
      }
      var originalHtml := page.routeButton.html;
      page.routeButton := ButtonLook(FindingHtml, true);
      request := Some(RouteUrl(selectedStart.value.id, selectedEnd.value.id));
      if reply.Json? && reply.error == "" {
        DisplayRoute(reply.coords, reply.distanceTenths, reply.walkingTime, ui);
      }
      page.routeButton := page.routeButton.(html := originalHtml, loading := false);
    }
  }
}
