/** eventHandlers.js: the page's buttons and keyboard shortcuts, composed
    from the selection store, the route manager and the UI manager. The
    locate button (geolocation), map view resets and toasts are not part of
    this model. */
module Events {
  import opened Collections
  import opened Text
  import opened Catalog
  import opened Page
  import opened Validity
  import opened Ui
  import opened Locations
  import opened Units
  import opened Routes

  /** A document keydown: whether its target is an INPUT, the Ctrl and Meta
      modifiers, and `e.key`. */
  datatype KeyEvent = KeyEvent(targetIsInput: bool, ctrlKey: bool, metaKey: bool, key: string)

  /** What a document keydown does. */
  datatype Shortcut = Ignored | RequestRoute | ClearEverything | TogglePanel | CloseDropdowns | NoShortcut

  /** bindKeyboardShortcuts' dispatch: nothing for a key typed into an input;
      with Ctrl or Meta, Enter asks for a route when the button is enabled and
      Backspace clears; without them, 'h' in either case toggles the panel
      and Escape closes the dropdowns. */
  function ShortcutFor(e: KeyEvent, routeDisabled: bool): (s: Shortcut)
    ensures s == Ignored <==> e.targetIsInput
    ensures s == RequestRoute <==>
              !e.targetIsInput && (e.ctrlKey || e.metaKey) && e.key == "Enter" && !routeDisabled
    ensures s == ClearEverything <==> !e.targetIsInput && (e.ctrlKey || e.metaKey) && e.key == "Backspace"
    ensures s == TogglePanel <==> !e.targetIsInput && !e.ctrlKey && !e.metaKey && Lower(e.key) == "h"
    ensures s == CloseDropdowns <==> !e.targetIsInput && !e.ctrlKey && !e.metaKey && Lower(e.key) == "escape"
  {
    if e.targetIsInput then Ignored
    else if e.ctrlKey || e.metaKey then
      if e.key == "Enter" then (if !routeDisabled then RequestRoute else NoShortcut)
      else if e.key == "Backspace" then ClearEverything
      else NoShortcut
    else if Lower(e.key) == "h" then TogglePanel
    else if Lower(e.key) == "escape" then CloseDropdowns
    else NoShortcut
  }

  /** Both 'h' and 'H' toggle the panel; Ctrl+H does not. */
  lemma HToggles()
    ensures ShortcutFor(KeyEvent(false, false, false, "h"), true) == TogglePanel
    ensures ShortcutFor(KeyEvent(false, false, false, "H"), true) == TogglePanel
    ensures ShortcutFor(KeyEvent(false, true, false, "H"), true) == NoShortcut
    ensures ShortcutFor(KeyEvent(true, false, false, "h"), true) == Ignored
  {
    assert Lower("H") == "h";
    assert Lower("h") == "h";
  }

  class EventHandlers {
    const page: Page
    const lm: LocationManager
    const rm: RouteManager
    const ui: UIManager

    /** The managers share the one page, and each keeps its own invariant. */
    ghost predicate Valid()
      reads this, lm, rm, page
    {
      lm.page == page && rm.page == page && ui.page == page && lm.Valid() && rm.Valid()
    }

    constructor (lm: LocationManager, rm: RouteManager, ui: UIManager)
      requires lm.page == rm.page == ui.page
      ensures this.lm == lm && this.rm == rm && this.ui == ui && page == lm.page
    {
      this.lm := lm;
      this.rm := rm;
      this.ui := ui;
      this.page := lm.page;
    }

    /** The find-route click: the current selections go to findRoute as they
        are, and the page is left as findRoute leaves it for the reply. */
    method OnFindRouteClick(reply: Reply) returns (request: Option<string>)
      requires Valid()
      modifies rm`pathLayer, page`layers, page`summary, page`mini, page`routeButton
      ensures Valid() && unchanged(lm)
      ensures lm.selectedStart.Some? && lm.selectedEnd.Some? ==>
                && request == Some(RouteUrl(lm.selectedStart.value.id, lm.selectedEnd.value.id))
                && page.routeButton == old(page.routeButton).(loading := false)
                && ((reply.NoJson? || reply.error != "") ==> unchanged(rm) && unchanged(page`layers, page`summary, page`mini))
                && (reply.Json? && reply.error == "" && reply.coords != [] ==>
                      && rm.pathLayer != null && fresh(rm.pathLayer) && rm.pathLayer.kind == RoutePath(reply.coords)
                      && page.layers == old(page.layers) - OptSet(old(rm.pathLayer)) + {rm.pathLayer}
                      && page.summary == Summary(true, DistanceText(reply.distanceTenths),
                                                 TimeText(reply.walkingTime, reply.distanceTenths))
                      && page.mini == (if ui.isPanelMinimized then MiniInfo(true, DistanceText(reply.distanceTenths))
                                       else old(page.mini).(shown := false)))
                && (reply.Json? && reply.error == "" && reply.coords == [] ==>
                      && rm.pathLayer == null && page.layers == old(page.layers) - OptSet(old(rm.pathLayer))
                      && page.summary == old(page.summary).(shown := false)
                      && page.mini == old(page.mini).(shown := false))
      ensures lm.selectedStart.None? || lm.selectedEnd.None? ==>
                request.None? && unchanged(rm) && unchanged(page)
    {
      var selections := lm.GetSelections();
      request := rm.FindRoute(selections.selectedStart, selections.selectedEnd, reply, ui);
    }

    /** clearRoute (the clear button and Ctrl/Meta+Backspace): no route, no
        selections, no role markers (so nothing left on the map), empty
        fields, the summary hidden, the dots redrawn when visible, and the
        button disabled. With the wrappers installed, clearAll validated
        before emptying the fields, so the wrappers show the old texts as
        invalid. */
    method ClearRoute()
      requires Valid()
      modifies rm`pathLayer, lm`selectedStart, lm`selectedEnd, lm`startMarker, lm`endMarker
      modifies page`layers, page`summary, page`mini, page`texts, page`dots, page`routeDisabled, page`wrappers
      ensures Valid() && !rm.HasActiveRoute()
      ensures
        && rm.pathLayer == null && lm.startMarker == null && lm.endMarker == null && page.layers == {}
        && lm.selectedStart.None? && lm.selectedEnd.None?
        && page.texts == PerRole("", "") && page.routeDisabled
        && page.summary == old(page.summary).(shown := false) && page.mini == old(page.mini).(shown := false)
        && page.dots == (if lm.isMarkersVisible then Ids(lm.locations) else old(page.dots))
        && (lm.validationHooked ==> page.wrappers == PerRole(FieldStyle(old(page.texts.start), false),
                                                             FieldStyle(old(page.texts.end), false)))
        && (!lm.validationHooked ==> unchanged(page`wrappers))
    {
      rm.ClearRoute();
      lm.ClearAll();
      var selections := lm.GetSelections();
      ui.UpdateRouteButton(selections.selectedStart, selections.selectedEnd);
      NothingLeftOnMap(page);
    }

    /** The swap click. With nothing selected, swapLocations returns undefined
        and reading `.selectedStart` of it throws: the route is still cleared,
        but the button is not updated. Otherwise the selections are exchanged,
        any route is cleared, and the button follows the swapped pair. */
    method OnSwapClick() returns (thrown: bool)
      requires Valid()
      modifies lm`selectedStart, lm`selectedEnd, lm`startMarker, lm`endMarker
      modifies rm`pathLayer, page`texts, page`layers, page`summary, page`mini, page`routeDisabled, page`wrappers
      ensures Valid()
      ensures thrown <==> old(lm.selectedStart.None? && lm.selectedEnd.None?)
      ensures !rm.HasActiveRoute() && rm.pathLayer == null
      ensures lm.GetSelections() == if thrown then old(lm.GetSelections()) else Swapped(old(lm.GetSelections()))
      ensures old(rm.pathLayer) != null ==>
                page.summary == old(page.summary).(shown := false) && page.mini == old(page.mini).(shown := false)
      ensures old(rm.pathLayer) == null ==> unchanged(page`summary, page`mini)
      ensures thrown ==>
                && unchanged(page`texts) && lm.startMarker == old(lm.startMarker) && lm.endMarker == old(lm.endMarker)
                && page.layers == old(page.layers) - OptSet(old(rm.pathLayer))
                && (lm.validationHooked ==> Validated(page, lm.GetSelections()))
                && (!lm.validationHooked ==> unchanged(page`routeDisabled, page`wrappers))
      ensures !thrown ==>
                && page.texts == PerRole(NameOrEmpty(lm.selectedStart), NameOrEmpty(lm.selectedEnd))
                && (lm.selectedStart.Some? ==> lm.startMarker != null && fresh(lm.startMarker) &&
                                               lm.startMarker.kind == RoleMarker(Start, lm.selectedStart.value.id))
                && (lm.selectedStart.None? ==> lm.startMarker == old(lm.startMarker))
                && (lm.selectedEnd.Some? ==> lm.endMarker != null && fresh(lm.endMarker) &&
                                             lm.endMarker.kind == RoleMarker(End, lm.selectedEnd.value.id))
                && (lm.selectedEnd.None? ==> lm.endMarker == old(lm.endMarker))
                && page.routeDisabled == RouteButtonDisabled(lm.selectedStart, lm.selectedEnd)
                && (lm.validationHooked ==> Styled(page, lm.GetSelections()))
                && (!lm.validationHooked ==> unchanged(page`wrappers))
    {
      var swapped := lm.SwapLocations();
      if rm.HasActiveRoute() {
        rm.ClearRoute();
      }
      if swapped.None? {
        thrown := true;
        return;
      }
      thrown := false;
      ui.UpdateRouteButton(swapped.value.selectedStart, swapped.value.selectedEnd);
    }

    /** The layers click: the markers' visibility flips and the button's
        'active' class shows the new visibility. */
    method OnLayersClick()
      requires Valid()
      modifies lm`isMarkersVisible, lm`startMarker, lm`endMarker, page`dots, page`layers, page`layersButtonActive
      ensures Valid()
      ensures lm.isMarkersVisible == !old(lm.isMarkersVisible)
      ensures page.layersButtonActive == lm.isMarkersVisible
      ensures page.dots == if lm.isMarkersVisible then Ids(lm.locations) else []
      ensures page.PathLayers() == old(page.PathLayers()) && unchanged(rm)
      ensures old(lm.startMarker) != null && lm.selectedStart.Some? ==>
                lm.startMarker != null && fresh(lm.startMarker) &&
                lm.startMarker.kind == RoleMarker(Start, lm.selectedStart.value.id)
      ensures !(old(lm.startMarker) != null && lm.selectedStart.Some?) ==> lm.startMarker == old(lm.startMarker)
      ensures old(lm.endMarker) != null && lm.selectedEnd.Some? ==>
                lm.endMarker != null && fresh(lm.endMarker) &&
                lm.endMarker.kind == RoleMarker(End, lm.selectedEnd.value.id)
      ensures !(old(lm.endMarker) != null && lm.selectedEnd.Some?) ==> lm.endMarker == old(lm.endMarker)
    {
      var isVisible := lm.ToggleMarkers();
      page.layersButtonActive := isVisible;
    }

    /** The toggle-panel click. */
    method OnTogglePanelClick()
      requires Valid()
      modifies ui, page`mini
      ensures Valid() && ui.isPanelMinimized == !old(ui.isPanelMinimized)
      ensures page.mini == if old(ui.isPanelMinimized) then old(page.mini) else MiniFor(page.summary, old(page.mini))
    {
      ui.TogglePanel();
    }

    /** The restore-panel click. */
    method OnRestorePanelClick()
      requires Valid()
      modifies ui
      ensures Valid() && !ui.isPanelMinimized
    {
      ui.RestorePanel();
    }

    /** Escape outside an input: every shown dropdown loses 'show'. */
    method HideShownDropdowns()
      modifies page`dropdowns
      ensures page.dropdowns == PerRole(old(page.dropdowns.start).(shown := false), old(page.dropdowns.end).(shown := false))
    {
      page.dropdowns := PerRole(page.dropdowns.start.(shown := false), page.dropdowns.end.(shown := false));
    }

    /** A document keydown, run as ShortcutFor dispatches it. */
    method OnDocumentKeyDown(e: KeyEvent, reply: Reply) returns (request: Option<string>)
      requires Valid()
      modifies rm`pathLayer, lm`selectedStart, lm`selectedEnd, lm`startMarker, lm`endMarker, ui
      modifies page`layers, page`summary, page`mini, page`texts, page`dots, page`routeDisabled, page`wrappers
      modifies page`routeButton, page`dropdowns
      ensures Valid()
      ensures var s := ShortcutFor(e, old(page.routeDisabled));
        && (s == Ignored || s == NoShortcut ==> request.None? && unchanged(lm, rm, ui, page))
        && (s == RequestRoute ==>
              && unchanged(lm, ui) && unchanged(page`texts, page`dots, page`routeDisabled, page`wrappers, page`dropdowns)
              && (lm.selectedStart.None? || lm.selectedEnd.None? ==> request.None? && unchanged(rm) && unchanged(page))
              && (lm.selectedStart.Some? && lm.selectedEnd.Some? ==>
                    && request == Some(RouteUrl(lm.selectedStart.value.id, lm.selectedEnd.value.id))
                    && page.routeButton == old(page.routeButton).(loading := false)
                    && ((reply.NoJson? || reply.error != "") ==> unchanged(rm) && unchanged(page`layers, page`summary, page`mini))
                    && (reply.Json? && reply.error == "" && reply.coords != [] ==>
                          && rm.pathLayer != null && fresh(rm.pathLayer) && rm.pathLayer.kind == RoutePath(reply.coords)
                          && page.layers == old(page.layers) - OptSet(old(rm.pathLayer)) + {rm.pathLayer}
                          && page.summary == Summary(true, DistanceText(reply.distanceTenths),
                                                     TimeText(reply.walkingTime, reply.distanceTenths))
                          && page.mini == (if ui.isPanelMinimized then MiniInfo(true, DistanceText(reply.distanceTenths))
                                           else old(page.mini).(shown := false)))
                    && (reply.Json? && reply.error == "" && reply.coords == [] ==>
                          && rm.pathLayer == null && page.layers == old(page.layers) - OptSet(old(rm.pathLayer))
                          && page.summary == old(page.summary).(shown := false)
                          && page.mini == old(page.mini).(shown := false))))
        && (s == ClearEverything ==>
              && request.None? && unchanged(ui) && unchanged(page`routeButton, page`dropdowns)
              && rm.pathLayer == null && lm.startMarker == null && lm.endMarker == null && page.layers == {}
              && lm.selectedStart.None? && lm.selectedEnd.None?
              && page.texts == PerRole("", "") && page.routeDisabled
              && page.summary == old(page.summary).(shown := false) && page.mini == old(page.mini).(shown := false)
              && page.dots == (if lm.isMarkersVisible then Ids(lm.locations) else old(page.dots))
              && (lm.validationHooked ==> page.wrappers == PerRole(FieldStyle(old(page.texts.start), false),
                                                                   FieldStyle(old(page.texts.end), false)))
              && (!lm.validationHooked ==> unchanged(page`wrappers)))
        && (s == TogglePanel ==>
              && request.None? && unchanged(lm, rm)
              && ui.isPanelMinimized == !old(ui.isPanelMinimized)
              && page.mini == (if old(ui.isPanelMinimized) then old(page.mini) else MiniFor(page.summary, old(page.mini)))
              && unchanged(page`texts, page`dropdowns, page`wrappers, page`routeDisabled, page`routeButton)
              && unchanged(page`summary, page`layers, page`dots))
        && (s == CloseDropdowns ==>
              && request.None? && unchanged(lm, rm, ui)
              && page.dropdowns == PerRole(old(page.dropdowns.start).(shown := false), old(page.dropdowns.end).(shown := false))
              && unchanged(page`texts, page`wrappers, page`routeDisabled, page`routeButton)
              && unchanged(page`summary, page`mini, page`layers, page`dots))
    {
      request := None;
      match ShortcutFor(e, page.routeDisabled)
      case Ignored =>
      case NoShortcut =>
      case RequestRoute =>
        request := OnFindRouteClick(reply);
      case ClearEverything =>
        ClearRoute();
      case TogglePanel =>
        OnTogglePanelClick();
      case CloseDropdowns =>
        HideShownDropdowns();
    }
  }
}
