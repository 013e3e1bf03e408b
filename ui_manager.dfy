/** uiManager.js: the minimised-panel flag, the route-button rule and the
    minimised copy of the route summary. */
module Ui {
  import opened Collections
  import opened Catalog
  import opened Page

  /** updateRouteButton's rule: the button is disabled iff a selection is missing. */
  predicate RouteButtonDisabled(selectedStart: Option<Location>, selectedEnd: Option<Location>) {
    !(selectedStart.Some? && selectedEnd.Some?)
  }

  /** The mini info after updateMiniRouteInfo: a copy of the distance, shown,
      when the summary is visible; otherwise hidden with its text left alone. */
  function MiniFor(summary: Summary, mini: MiniInfo): (r: MiniInfo)
    ensures r.shown <==> summary.shown
    ensures summary.shown ==> r.distance == summary.distance
    ensures !summary.shown ==> r.distance == mini.distance
  {
    if summary.shown then MiniInfo(true, summary.distance) else mini.(shown := false)
  }

  class UIManager {
    const page: Page
    var isPanelMinimized: bool

    constructor (page: Page)
      ensures this.page == page && !isPanelMinimized
    {
      this.page := page;
      isPanelMinimized := false;
    }

    /** Sets the flag and refreshes the mini info (panel animation and toast not modelled). */
    method MinimizePanel()
      modifies this, page`mini
      ensures isPanelMinimized
      ensures page.mini == MiniFor(page.summary, old(page.mini))
    {
      isPanelMinimized := true;
      UpdateMiniRouteInfo();
    }

    /** Clears the flag (panel animation not modelled). */
    method RestorePanel()
      modifies this
      ensures !isPanelMinimized
    {
      isPanelMinimized := false;
    }

    /** Flips the flag: two toggles give back the original value. */
    method TogglePanel()
      modifies this, page`mini
      ensures isPanelMinimized == !old(isPanelMinimized)
      ensures page.mini == if old(isPanelMinimized) then old(page.mini) else MiniFor(page.summary, old(page.mini))
    {
      if isPanelMinimized {
        RestorePanel();
      } else {
        MinimizePanel();
      }
    }

    method UpdateMiniRouteInfo()
      modifies page`mini
      ensures page.mini == MiniFor(page.summary, old(page.mini))
    {
      if page.summary.shown {
        page.mini := MiniInfo(true, page.summary.distance);
      } else {
        page.mini := page.mini.(shown := false);
      }
    }

    method UpdateRouteButton(selectedStart: Option<Location>, selectedEnd: Option<Location>)
      modifies page`routeDisabled
      ensures page.routeDisabled == RouteButtonDisabled(selectedStart, selectedEnd)
    {
      page.routeDisabled := !(selectedStart.Some? && selectedEnd.Some?);
    }
  }

  /** Toggling the panel twice restores the flag. */
  method ToggleTwice(ui: UIManager)
    modifies ui, ui.page`mini
    ensures ui.isPanelMinimized == old(ui.isPanelMinimized)
  {
    ui.TogglePanel();
    ui.TogglePanel();
  }
}
