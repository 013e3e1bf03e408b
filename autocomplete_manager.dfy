/** autocompleteManager.js: the suggestion dropdown of one search field. The
    source keeps `highlightedIndex` and `filteredLocations` in the closure of
    setupAutocomplete, one pair per field; here each field is one
    `FieldAutocomplete` object holding that pair. */
module Autocomplete {
  import opened Collections
  import opened Text
  import opened Catalog
  import opened Page
  import opened Validity
  import opened Ui
  import opened Locations
  import opened Highlight

  /** A row's caption: the name, with the query's terms highlighted when the
      (trimmed) query is not empty. */
  function Caption(name: string, query: string): string
  {
    if query == "" then name else HighlightAll(name, Terms(query))
  }

  /** The rows showDropdown renders: "No locations found" for no results,
      otherwise one selectable row per result, in order, carrying the id
      as `${location.id}` and the field's role. */
  function RowsFor(locs: seq<Location>, query: string, role: Role): (rows: seq<Row>)
    ensures locs == [] ==> rows == [NoResultsRow]
    ensures locs != [] ==> |rows| == |locs| && forall k :: 0 <= k < |locs| ==>
              rows[k] == LocationRow(IntToString(locs[k].id), role, Caption(locs[k].name, query))
  {
    if locs == [] then [NoResultsRow]
    else seq(|locs|, k requires 0 <= k < |locs| => LocationRow(IntToString(locs[k].id), role, Caption(locs[k].name, query)))
  }

  /** Every row is selectable when there are results: the k-th selectable
      row is the k-th result. */
  lemma {:induction false} RowsAllSelectable(locs: seq<Location>, query: string, role: Role, k: nat)
    requires locs != [] && k < |locs|
    ensures SelectableCount(RowsFor(locs, query, role)) == |locs|
    ensures SelectableAt(RowsFor(locs, query, role), k) == Some(RowsFor(locs, query, role)[k])
  {
    AllLocationRows(RowsFor(locs, query, role), k);
  }

  lemma {:induction false} AllLocationRows(rows: seq<Row>, k: nat)
    requires forall j :: 0 <= j < |rows| ==> rows[j].LocationRow?
    requires k < |rows|
    ensures SelectableCount(rows) == |rows|
    ensures SelectableAt(rows, k) == Some(rows[k])
  {
    if k > 0 {
      AllLocationRows(rows[1..], k - 1);
    } else if |rows| > 1 {
      AllLocationRows(rows[1..], 0);
    }
  }

  /** The keys of the field's keydown handler. */
  datatype Key = ArrowDown | ArrowUp | Enter | Escape | OtherKey

  /** The new highlighted position after a key, given the number of
      selectable rows: ArrowDown moves down but not past the last row,
      ArrowUp moves up but not past -1 (nothing highlighted). */
  function StepIndex(index: int, key: Key, count: nat): int
  {
    match key
    case ArrowDown => if index + 1 < count - 1 then index + 1 else count - 1
    case ArrowUp => if index - 1 > -1 then index - 1 else -1
    case _ => index
  }

  /** Arrow keys keep an in-range position in range: from -1 up to the last
      selectable row. */
  lemma {:induction false} StepsStayInRange(index: int, keys: seq<Key>, count: nat)
    requires -1 <= index <= count - 1
    ensures -1 <= StepAll(index, keys, count) <= count - 1
    decreases |keys|
  {
    if keys != [] {
      StepsStayInRange(StepIndex(index, keys[0], count), keys[1..], count);
    }
  }

  /** Several keys in a row. */
  function StepAll(index: int, keys: seq<Key>, count: nat): int
    decreases |keys|
  {
    if keys == [] then index else StepAll(StepIndex(index, keys[0], count), keys[1..], count)
  }

  class FieldAutocomplete {
    const role: Role
    const page: Page
    const lm: LocationManager
    const ui: UIManager
    var highlightedIndex: int
    var filteredLocations: seq<Location>

    /** The managers share the one page. */
    ghost predicate Valid()
      reads this, lm, page
    {
      lm.page == page && ui.page == page && lm.Valid()
    }

    constructor (role: Role, lm: LocationManager, ui: UIManager)
      requires lm.page == ui.page
      ensures this.role == role && this.lm == lm && this.ui == ui && page == lm.page
      ensures highlightedIndex == -1 && filteredLocations == []
    {
      this.role := role;
      this.lm := lm;
      this.ui := ui;
      this.page := lm.page;
      highlightedIndex := -1;
      filteredLocations := [];
    }

    function Rows(): seq<Row>
      reads this, page
    {
      page.dropdowns.Get(role).rows
    }

    /** showDropdown: the field's dropdown gets the rows for the results and
        the 'show' class; no row is highlighted in the new markup. */
    method ShowDropdown(locs: seq<Location>, query: string)
      modifies page`dropdowns
      ensures page.dropdowns == old(page.dropdowns).Set(role, Dropdown(true, RowsFor(locs, query, role), -1))
    {
      page.dropdowns := page.dropdowns.Set(role, Dropdown(true, RowsFor(locs, query, role), -1));
    }

    /** hideDropdown: the field's dropdown loses the 'show' class. */
    method HideDropdown()
      modifies page`dropdowns
      ensures page.dropdowns == old(page.dropdowns).Set(role, old(page.dropdowns).Get(role).(shown := false))
    {
      page.dropdowns := page.dropdowns.Set(role, page.dropdowns.Get(role).(shown := false));
    }

    /** updateHighlight: the selectable row at `index` carries 'highlighted'. */
    method UpdateHighlight(index: int)
      modifies page`dropdowns
      ensures page.dropdowns == old(page.dropdowns).Set(role, old(page.dropdowns).Get(role).(highlighted := index))
    {
      page.dropdowns := page.dropdowns.Set(role, page.dropdowns.Get(role).(highlighted := index));
    }

    /** The results for a trimmed query, shown in the dropdown: the
        catalog's head for an empty query, the search results otherwise. */
    method Suggest(query: string)
      modifies this`filteredLocations, page`dropdowns
      ensures filteredLocations == FilterLocations(lm.locations, query)
      ensures page.dropdowns == old(page.dropdowns).Set(role, Dropdown(true, RowsFor(filteredLocations, query, role), -1))
    {
      if |query| == 0 {
        filteredLocations := Take(lm.locations, MaxSuggestions);
      } else {
        filteredLocations := FilterLocations(lm.locations, query);
      }
      ShowDropdown(filteredLocations, query);
    }

    /** The input listener, run on the field's current text: a minimised panel
        is restored when the text is not empty; the position is reset; the
        results are the catalog's head for a blank query (and the role's
        selection is cleared) or the search results otherwise (and the
        route button follows the selections). */
    method OnInput()
      requires Valid()
      modifies this`highlightedIndex, this`filteredLocations, lm`selectedStart, lm`selectedEnd, lm`startMarker, lm`endMarker
      modifies page`dropdowns, page`layers, page`routeDisabled, page`wrappers, ui
      ensures Valid()
      ensures highlightedIndex == -1
      ensures filteredLocations == FilterLocations(lm.locations, JsTrim(page.texts.Get(role)))
      ensures page.dropdowns == old(page.dropdowns).Set(role, Dropdown(true, RowsFor(filteredLocations, JsTrim(page.texts.Get(role)), role), -1))
      ensures old(ui.isPanelMinimized) && page.texts.Get(role) != "" ==> !ui.isPanelMinimized
      ensures !(old(ui.isPanelMinimized) && page.texts.Get(role) != "") ==> ui.isPanelMinimized == old(ui.isPanelMinimized)
      ensures JsTrim(page.texts.Get(role)) == "" ==>
                && lm.Selected(role).None? && lm.Marker(role) == null
                && lm.Selected(role.Other()) == old(lm.Selected(role.Other()))
                && lm.Marker(role.Other()) == old(lm.Marker(role.Other()))
                && page.layers == old(page.layers) - OptSet(old(lm.Marker(role)))
                && page.PathLayers() == old(page.PathLayers())
                && (lm.validationHooked ==> Validated(page, lm.GetSelections()))
                && (!lm.validationHooked ==> unchanged(page`routeDisabled, page`wrappers))
      ensures JsTrim(page.texts.Get(role)) != "" ==>
                && unchanged(lm) && unchanged(page`layers, page`wrappers)
                && page.routeDisabled == RouteButtonDisabled(lm.selectedStart, lm.selectedEnd)
    {
      var value := page.texts.Get(role);
      if ui.isPanelMinimized && |value| > 0 {
        ui.RestorePanel();
      }
      var query := JsTrim(value);
      highlightedIndex := -1;
      if |query| == 0 {
        InputCleared();
      } else {
        InputQuery(query);
      }
    }

    /** The blank-query branch of the input listener. */
    method InputCleared()
      requires Valid()
      modifies this`filteredLocations, lm`selectedStart, lm`selectedEnd, lm`startMarker, lm`endMarker
      modifies page`dropdowns, page`layers, page`routeDisabled, page`wrappers
      ensures Valid()
      ensures filteredLocations == FilterLocations(lm.locations, "")
      ensures page.dropdowns == old(page.dropdowns).Set(role, Dropdown(true, RowsFor(filteredLocations, "", role), -1))
      ensures lm.Selected(role).None? && lm.Marker(role) == null
      ensures lm.Selected(role.Other()) == old(lm.Selected(role.Other()))
      ensures lm.Marker(role.Other()) == old(lm.Marker(role.Other()))
      ensures page.layers == old(page.layers) - OptSet(old(lm.Marker(role)))
      ensures page.PathLayers() == old(page.PathLayers())
      ensures lm.validationHooked ==> Validated(page, lm.GetSelections())
      ensures !lm.validationHooked ==> unchanged(page`routeDisabled, page`wrappers)
    {
      Suggest("");
      lm.ClearSelection(role);
    }

    /** The non-blank branch of the input listener. */
    method InputQuery(query: string)
      requires Valid()
      modifies this`filteredLocations, page`dropdowns, page`routeDisabled
      ensures Valid()
      ensures filteredLocations == FilterLocations(lm.locations, query)
      ensures page.dropdowns == old(page.dropdowns).Set(role, Dropdown(true, RowsFor(filteredLocations, query, role), -1))
      ensures page.routeDisabled == RouteButtonDisabled(lm.selectedStart, lm.selectedEnd)
    {
      Suggest(query);
      var selections := lm.GetSelections();
      ui.UpdateRouteButton(selections.selectedStart, selections.selectedEnd);
    }

    /** The focus listener: a minimised panel is restored and the dropdown
        shows the results for the current text. The position is not reset,
        so it may point past the new rows. */
    method OnFocus()
      requires Valid()
      modifies this`filteredLocations, page`dropdowns, ui
      ensures Valid()
      ensures !ui.isPanelMinimized && highlightedIndex == old(highlightedIndex)
      ensures filteredLocations == FilterLocations(lm.locations, JsTrim(page.texts.Get(role)))
      ensures page.dropdowns == old(page.dropdowns).Set(role, Dropdown(true, RowsFor(filteredLocations, JsTrim(page.texts.Get(role)), role), -1))
    {
      if ui.isPanelMinimized {
        ui.RestorePanel();
      }
      Suggest(JsTrim(page.texts.Get(role)));
    }

    /** selectLocationFromDropdown: the row's data-id is read with parseInt
        and handed to selectLocation for this field's role; when that
        selected something, the route button follows the selections. */
    method SelectLocationFromDropdown(row: Row)
      requires Valid() && row.LocationRow?
      modifies lm`selectedStart, lm`selectedEnd, lm`startMarker, lm`endMarker
      modifies page`texts, page`dropdowns, page`layers, page`routeDisabled, page`wrappers, ui
      ensures Valid()
      ensures var found := Lookup(lm.locations, JsParseInt(row.dataId));
        && (found.None? ==> unchanged(lm) && unchanged(ui) && unchanged(page`texts, page`dropdowns, page`layers))
        && (found.None? && lm.validationHooked ==> Validated(page, lm.GetSelections()))
        && (found.None? && !lm.validationHooked ==> unchanged(page`routeDisabled, page`wrappers))
        && (found.Some? ==>
              && lm.Selected(role) == found
              && lm.Selected(role.Other()) == old(lm.Selected(role.Other()))
              && page.texts == old(page.texts).Set(role, found.value.name)
              && page.dropdowns == old(page.dropdowns).Set(role, old(page.dropdowns).Get(role).(shown := false))
              && lm.Marker(role) != null && fresh(lm.Marker(role)) && lm.Marker(role).kind == RoleMarker(role, found.value.id)
              && lm.Marker(role.Other()) == old(lm.Marker(role.Other()))
              && page.layers == old(page.layers) - OptSet(old(lm.Marker(role))) + {lm.Marker(role)}
              && page.PathLayers() == old(page.PathLayers())
              && !ui.isPanelMinimized
              && page.routeDisabled == RouteButtonDisabled(lm.selectedStart, lm.selectedEnd)
              && (lm.validationHooked ==> Styled(page, lm.GetSelections()))
              && (!lm.validationHooked ==> unchanged(page`wrappers)))
    {
      var locationId := JsParseInt(row.dataId);
      var selections := lm.SelectLocation(locationId, role, ui);
      if selections.Some? {
        ui.UpdateRouteButton(selections.value.selectedStart, selections.value.selectedEnd);
      }
    }

    /** The keydown listener. ArrowDown and ArrowUp move the position within
        the selectable rows and highlight it; Enter selects the row at the
        position when there is one; Escape hides the dropdown. */
    method OnKeyDown(key: Key)
      requires Valid()
      modifies this`highlightedIndex, lm`selectedStart, lm`selectedEnd, lm`startMarker, lm`endMarker
      modifies page`texts, page`dropdowns, page`layers, page`routeDisabled, page`wrappers, ui
      ensures Valid()
      ensures highlightedIndex == StepIndex(old(highlightedIndex), key, SelectableCount(old(Rows())))
      ensures (key == ArrowDown || key == ArrowUp) ==>
                && page.dropdowns == old(page.dropdowns).Set(role, old(page.dropdowns).Get(role).(highlighted := highlightedIndex))
                && unchanged(lm) && unchanged(ui) && unchanged(page`texts, page`layers, page`routeDisabled, page`wrappers)
      ensures key == Escape ==>
                && page.dropdowns == old(page.dropdowns).Set(role, old(page.dropdowns).Get(role).(shown := false))
                && unchanged(lm) && unchanged(ui) && unchanged(page`texts, page`layers, page`routeDisabled, page`wrappers)
      ensures key == Enter && (old(highlightedIndex) < 0 || SelectableAt(old(Rows()), old(highlightedIndex)).None?) ==>
                unchanged(lm) && unchanged(ui) && unchanged(page`texts, page`dropdowns, page`layers, page`routeDisabled, page`wrappers)
      ensures key == Enter && old(highlightedIndex) >= 0 && SelectableAt(old(Rows()), old(highlightedIndex)).Some? ==>
                var found := Lookup(lm.locations, JsParseInt(SelectableAt(old(Rows()), old(highlightedIndex)).value.dataId));
                  && (found.None? ==> unchanged(lm) && unchanged(ui) && unchanged(page`texts, page`dropdowns, page`layers))
                  && (found.None? && lm.validationHooked ==> Validated(page, lm.GetSelections()))
                  && (found.None? && !lm.validationHooked ==> unchanged(page`routeDisabled, page`wrappers))
                  && (found.Some? ==>
                        && lm.Selected(role) == found
                        && lm.Selected(role.Other()) == old(lm.Selected(role.Other()))
                        && page.texts == old(page.texts).Set(role, found.value.name)
                        && page.dropdowns == old(page.dropdowns).Set(role, old(page.dropdowns).Get(role).(shown := false))
                        && lm.Marker(role) != null && fresh(lm.Marker(role)) && lm.Marker(role).kind == RoleMarker(role, found.value.id)
                        && lm.Marker(role.Other()) == old(lm.Marker(role.Other()))
                        && page.layers == old(page.layers) - OptSet(old(lm.Marker(role))) + {lm.Marker(role)}
                        && page.PathLayers() == old(page.PathLayers())
                        && !ui.isPanelMinimized
                        && page.routeDisabled == RouteButtonDisabled(lm.selectedStart, lm.selectedEnd)
                        && (lm.validationHooked ==> Styled(page, lm.GetSelections()))
                        && (!lm.validationHooked ==> unchanged(page`wrappers)))
      ensures key == OtherKey ==> unchanged(lm) && unchanged(ui) && unchanged(page)
    {
      var rows := Rows();
      var count: int := SelectableCount(rows);
      match key
      case ArrowDown =>
        highlightedIndex := if highlightedIndex + 1 < count - 1 then highlightedIndex + 1 else count - 1;
        UpdateHighlight(highlightedIndex);
      case ArrowUp =>
        highlightedIndex := if highlightedIndex - 1 > -1 then highlightedIndex - 1 else -1;
        UpdateHighlight(highlightedIndex);
      case Enter =>
        if highlightedIndex >= 0 && SelectableAt(rows, highlightedIndex).Some? {
          SelectLocationFromDropdown(SelectableAt(rows, highlightedIndex).value);
        }
      case Escape =>
        HideDropdown();
      case OtherKey =>
    }

    /** A mousedown on a selectable row selects it. */
    method OnRowMouseDown(k: nat)
      requires Valid() && SelectableAt(Rows(), k).Some?
      modifies lm`selectedStart, lm`selectedEnd, lm`startMarker, lm`endMarker
      modifies page`texts, page`dropdowns, page`layers, page`routeDisabled, page`wrappers, ui
      ensures Valid()
      ensures var found := Lookup(lm.locations, JsParseInt(SelectableAt(old(Rows()), k).value.dataId));
        && (found.None? ==> unchanged(lm) && unchanged(ui) && unchanged(page`texts, page`dropdowns, page`layers))
        && (found.None? && lm.validationHooked ==> Validated(page, lm.GetSelections()))
        && (found.None? && !lm.validationHooked ==> unchanged(page`routeDisabled, page`wrappers))
        && (found.Some? ==>
              && lm.Selected(role) == found
              && lm.Selected(role.Other()) == old(lm.Selected(role.Other()))
              && page.texts == old(page.texts).Set(role, found.value.name)
              && page.dropdowns == old(page.dropdowns).Set(role, old(page.dropdowns).Get(role).(shown := false))
              && lm.Marker(role) != null && fresh(lm.Marker(role)) && lm.Marker(role).kind == RoleMarker(role, found.value.id)
              && lm.Marker(role.Other()) == old(lm.Marker(role.Other()))
              && page.layers == old(page.layers) - OptSet(old(lm.Marker(role))) + {lm.Marker(role)}
              && page.PathLayers() == old(page.PathLayers())
              && !ui.isPanelMinimized
              && page.routeDisabled == RouteButtonDisabled(lm.selectedStart, lm.selectedEnd)
              && (lm.validationHooked ==> Styled(page, lm.GetSelections()))
              && (!lm.validationHooked ==> unchanged(page`wrappers)))
    {
      SelectLocationFromDropdown(SelectableAt(Rows(), k).value);
    }

    /** The blur listener's timer, 150 ms later: the dropdown is hidden unless
        the focus moved into it. */
    method OnBlurElapsed(focusInDropdown: bool)
      modifies page`dropdowns
      ensures focusInDropdown ==> unchanged(page`dropdowns)
      ensures !focusInDropdown ==> page.dropdowns == old(page.dropdowns).Set(role, old(page.dropdowns).Get(role).(shown := false))
    {
      if !focusInDropdown {
        HideDropdown();
      }
    }
  }

  /** A row rendered for a catalog entry leads back to that entry: parseInt
      of its data-id is the entry's id, so the lookup finds an entry with it. */
  lemma RowLeadsBackToLocation(locs: seq<Location>, query: string, role: Role, k: nat, catalog: seq<Location>)
    requires k < |locs| && locs[k] in catalog
    ensures var row := RowsFor(locs, query, role)[k];
      && JsParseInt(row.dataId) == Some(locs[k].id)
      && Lookup(catalog, JsParseInt(row.dataId)).Some?
      && Lookup(catalog, JsParseInt(row.dataId)).value.id == locs[k].id
  {
    JsParseIntRoundTrip(locs[k].id);
  }
}
