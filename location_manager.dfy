/** locationManager.js: the selection store. It holds the catalog, the start
    and end selections and their map markers, and writes the search fields.
    Once ValueDetector has installed its wrappers (`validationHooked`),
    selectLocation, clearSelection and swapLocations revalidate the page after
    running; clearAll reaches clearSelection through the wrapped slot too. */
module Locations {
  import opened Collections
  import opened Text
  import opened Catalog
  import opened Page
  import opened Validity
  import opened Ui

  /** The pair after swapLocations exchanges the two selections. */
  function Swapped(sel: Selections): (r: Selections)
    ensures r.selectedStart == sel.selectedEnd && r.selectedEnd == sel.selectedStart
  {
    Selections(sel.selectedEnd, sel.selectedStart)
  }

  /** Swapping is its own inverse. */
  lemma SwappedTwice(sel: Selections)
    ensures Swapped(Swapped(sel)) == sel
  {
  }

  /** The field text swapLocations writes for a selection: its name, or ''. */
  function NameOrEmpty(sel: Option<Location>): string
  {
    if sel.Some? then sel.value.name else ""
  }

  /** `this.locations.find(l => l.id === locationId)`. */
  function FindById(locs: seq<Location>, id: int): (r: Option<Location>)
    ensures r.Some? ==> r.value in locs && r.value.id == id
    ensures r.Some? ==> exists i :: 0 <= i < |locs| && locs[i] == r.value &&
                                    forall j :: 0 <= j < i ==> locs[j].id != id
    ensures r.None? <==> forall l :: l in locs ==> l.id != id
  {
    FindFirst(locs, (l: Location) => l.id == id)
  }

  /** The lookup selectLocation makes; None stands for an id that is NaN,
      which equals no id. */
  function Lookup(locs: seq<Location>, id: Option<int>): (r: Option<Location>)
    ensures id.None? ==> r.None?
    ensures id.Some? ==> r == FindById(locs, id.value)
  {
    if id.Some? then FindById(locs, id.value) else None
  }

  /** The ids of the catalog, one circle marker each. */
  function Ids(locs: seq<Location>): (r: seq<int>)
    ensures |r| == |locs| && forall i :: 0 <= i < |locs| ==> r[i] == locs[i].id
  {
    seq(|locs|, i requires 0 <= i < |locs| => locs[i].id)
  }

  class LocationManager {
    const page: Page
    var locations: seq<Location>
    var selectedStart: Option<Location>
    var selectedEnd: Option<Location>
    var startMarker: Layer?
    var endMarker: Layer?
    var isMarkersVisible: bool
    /** ValueDetector has replaced selectLocation, clearSelection and
        swapLocations by wrappers that call validateAndUpdate afterwards. */
    var validationHooked: bool

    /** Each role has at most one marker on the map: the one in its field. */
    ghost predicate Valid()
      reads this, page
    {
      page.MarkerLayers(Start) == OptSet(startMarker) && page.MarkerLayers(End) == OptSet(endMarker)
    }

    constructor (page: Page)
      requires page.MarkerLayers(Start) == {} && page.MarkerLayers(End) == {}
      ensures this.page == page && Valid()
      ensures locations == [] && selectedStart.None? && selectedEnd.None?
      ensures isMarkersVisible && !validationHooked
    {
      this.page := page;
      locations := [];
      selectedStart, selectedEnd := None, None;
      startMarker, endMarker := null, null;
      isMarkersVisible := true;
      validationHooked := false;
    }

    function Selected(role: Role): Option<Location>
      reads this
    {
      if role == Start then selectedStart else selectedEnd
    }

    function Marker(role: Role): Layer?
      reads this
    {
      if role == Start then startMarker else endMarker
    }

    /** getSelections: the current pair. */
    function GetSelections(): (r: Selections)
      reads this
      ensures r.selectedStart == Selected(Start) && r.selectedEnd == Selected(End)
    {
      Selections(selectedStart, selectedEnd)
    }

    /** The tail of the three wrapped methods: revalidate when the wrappers are installed. */
    method Revalidate()
      modifies page`routeDisabled, page`wrappers
      ensures validationHooked ==> Validated(page, GetSelections())
      ensures !validationHooked ==> unchanged(page`routeDisabled, page`wrappers)
    {
      if validationHooked {
        ValidateAndUpdate(page, GetSelections());
      }
    }

    /** loadLocations: keep the page data without waypoints, then draw them. */
    method LoadLocations(data: seq<Location>)
      modifies this`locations, page`dots
      ensures locations == Selectable(data)
      ensures page.dots == if isMarkersVisible then Ids(locations) else old(page.dots)
    {
      locations := Selectable(data);
      ShowLocationMarkers();
    }

    /** showLocationMarkers: one circle marker per catalog entry, when markers are visible. */
    method ShowLocationMarkers()
      modifies page`dots
      ensures page.dots == if isMarkersVisible then Ids(locations) else old(page.dots)
    {
      if isMarkersVisible {
        page.dots := Ids(locations);
      }
    }

    /** updateMarker: the role's previous marker leaves the map before the new
        one is added and stored, so the role never has two markers. */
    method UpdateMarker(location: Location, role: Role)
      requires Valid()
      modifies this`startMarker, this`endMarker, page`layers
      ensures Valid() && page.PathLayers() == old(page.PathLayers())
      ensures Marker(role) != null && fresh(Marker(role))
      ensures Marker(role).kind == RoleMarker(role, location.id)
      ensures page.MarkerLayers(role) == {Marker(role)}
      ensures Marker(role.Other()) == old(Marker(role.Other()))
      ensures page.layers == old(page.layers) - OptSet(old(Marker(role))) + {Marker(role)}
    {
      var previous := Marker(role);
      if previous != null {
        page.layers := page.layers - {previous};
      }
      var marker := new Layer(RoleMarker(role, location.id));
      page.layers := page.layers + {marker};
      if role == Start {
        startMarker := marker;
      } else {
        endMarker := marker;
      }
      assert page.MarkerLayers(role) == {marker};
      assert page.MarkerLayers(role.Other()) == old(page.MarkerLayers(role.Other()));
      assert page.PathLayers() == old(page.PathLayers());
    }

    /** The part of selectLocation after the lookup: the name goes into the
        role's field, its dropdown is hidden, the selection is stored and the
        role's marker moves to the location. */
    method Store(location: Location, role: Role)
      requires Valid()
      modifies this`selectedStart, this`selectedEnd, this`startMarker, this`endMarker
      modifies page`texts, page`dropdowns, page`layers
      ensures Valid() && page.PathLayers() == old(page.PathLayers())
      ensures Selected(role) == Some(location) && Selected(role.Other()) == old(Selected(role.Other()))
      ensures page.texts == old(page.texts).Set(role, location.name)
      ensures page.dropdowns == old(page.dropdowns).Set(role, old(page.dropdowns).Get(role).(shown := false))
      ensures Marker(role) != null && fresh(Marker(role))
      ensures Marker(role).kind == RoleMarker(role, location.id)
      ensures Marker(role.Other()) == old(Marker(role.Other()))
      ensures page.layers == old(page.layers) - OptSet(old(Marker(role))) + {Marker(role)}
    {
      page.texts := page.texts.Set(role, location.name);
      page.dropdowns := page.dropdowns.Set(role, page.dropdowns.Get(role).(shown := false));
      if role == Start {
        selectedStart := Some(location);
      } else {
        selectedEnd := Some(location);
      }
      UpdateMarker(location, role);
    }

    /** selectLocation: an unknown id changes nothing and returns undefined;
        a known id restores a minimised panel, writes the name into the role's
        field, hides its dropdown, stores the selection, moves the role's
        marker to it, and returns the resulting pair. The other role is untouched. */
    method SelectLocation(locationId: Option<int>, role: Role, ui: UIManager?) returns (r: Option<Selections>)
      requires Valid()
      modifies this`selectedStart, this`selectedEnd, this`startMarker, this`endMarker
      modifies page`texts, page`dropdowns, page`layers, page`routeDisabled, page`wrappers, ui
      ensures Valid() && page.PathLayers() == old(page.PathLayers())
      ensures Lookup(old(locations), locationId).None? ==>
                && r.None? && unchanged(this) && (ui != null ==> unchanged(ui))
                && unchanged(page`texts, page`dropdowns, page`layers)
      ensures Lookup(old(locations), locationId).Some? ==>
                var loc := Lookup(old(locations), locationId).value;
                && r == Some(GetSelections())
                && loc in locations && locationId == Some(loc.id)
                && Selected(role) == Some(loc)
                && Selected(role.Other()) == old(Selected(role.Other()))
                && page.texts == old(page.texts).Set(role, loc.name)
                && page.dropdowns == old(page.dropdowns).Set(role, old(page.dropdowns).Get(role).(shown := false))
                && Marker(role) != null && fresh(Marker(role))
                && Marker(role).kind == RoleMarker(role, loc.id)
                && Marker(role.Other()) == old(Marker(role.Other()))
                && page.layers == old(page.layers) - OptSet(old(Marker(role))) + {Marker(role)}
                && (ui != null ==> !ui.isPanelMinimized)
      ensures validationHooked ==> Validated(page, GetSelections())
      ensures !validationHooked ==> unchanged(page`routeDisabled, page`wrappers)
    {
      var found := Lookup(locations, locationId);
      if found.None? {
        r := None;
      } else {
        var location := found.value;
        if ui != null && ui.isPanelMinimized {
          ui.RestorePanel();
        }
        Store(location, role);
        r := Some(GetSelections());
      }
      Revalidate();
    }

    /** clearSelection: the role loses its selection and its marker (removed
        from the map when present); the other role is untouched. A second call
        finds nothing left to remove. */
    method ClearSelection(role: Role)
      requires Valid()
      modifies this`selectedStart, this`selectedEnd, this`startMarker, this`endMarker
      modifies page`layers, page`routeDisabled, page`wrappers
      ensures Valid() && page.PathLayers() == old(page.PathLayers())
      ensures Selected(role).None? && Marker(role) == null && page.MarkerLayers(role) == {}
      ensures Selected(role.Other()) == old(Selected(role.Other()))
      ensures Marker(role.Other()) == old(Marker(role.Other()))
      ensures page.layers == old(page.layers) - OptSet(old(Marker(role)))
      ensures validationHooked ==> Validated(page, GetSelections())
      ensures !validationHooked ==> unchanged(page`routeDisabled, page`wrappers)
    {
      if role == Start {
        selectedStart := None;
        if startMarker != null {
          page.layers := page.layers - {startMarker};
          startMarker := null;
        }
      } else {
        selectedEnd := None;
        if endMarker != null {
          page.layers := page.layers - {endMarker};
          endMarker := null;
        }
      }
      assert page.MarkerLayers(role) == {};
      assert page.MarkerLayers(role.Other()) == old(page.MarkerLayers(role.Other()));
      assert page.PathLayers() == old(page.PathLayers());
      Revalidate();
    }

    /** swapLocations: with nothing selected it returns undefined and changes
        nothing; otherwise the selections are exchanged, each field shows its
        new selection's name (or ''), each selected role's marker is redrawn at
        its new location, and the new pair is returned. A role left without a
        selection keeps whatever marker it had. */
    method SwapLocations() returns (r: Option<Selections>)
      requires Valid()
      modifies this`selectedStart, this`selectedEnd, this`startMarker, this`endMarker
      modifies page`texts, page`layers, page`routeDisabled, page`wrappers
      ensures Valid() && page.PathLayers() == old(page.PathLayers())
      ensures old(selectedStart.None? && selectedEnd.None?) ==>
                r.None? && unchanged(this) && unchanged(page`texts, page`layers)
      ensures old(selectedStart.Some? || selectedEnd.Some?) ==>
                && r == Some(GetSelections())
                && GetSelections() == Swapped(old(GetSelections()))
                && page.texts == PerRole(NameOrEmpty(selectedStart), NameOrEmpty(selectedEnd))
                && (selectedStart.Some? ==> startMarker != null && fresh(startMarker) &&
                                            startMarker.kind == RoleMarker(Start, selectedStart.value.id))
                && (selectedStart.None? ==> startMarker == old(startMarker))
                && (selectedEnd.Some? ==> endMarker != null && fresh(endMarker) &&
                                          endMarker.kind == RoleMarker(End, selectedEnd.value.id))
                && (selectedEnd.None? ==> endMarker == old(endMarker))
      ensures validationHooked ==> Validated(page, GetSelections())
      ensures !validationHooked ==> unchanged(page`routeDisabled, page`wrappers)
    {
      if selectedStart.None? && selectedEnd.None? {
        r := None;
      } else {
        var tempStart := selectedStart;
        var tempEnd := selectedEnd;
        selectedStart := tempEnd;
        selectedEnd := tempStart;
        page.texts := PerRole(NameOrEmpty(selectedStart), NameOrEmpty(selectedEnd));
        if selectedStart.Some? {
          UpdateMarker(selectedStart.value, Start);
        }
        if selectedEnd.Some? {
          UpdateMarker(selectedEnd.value, End);
        }
        r := Some(GetSelections());
      }
      Revalidate();
    }

    /** toggleMarkers: flips the visibility of the catalog's circle markers and
        redraws each role marker that is on the map while its role is selected. */
    method ToggleMarkers() returns (visible: bool)
      requires Valid()
      modifies this`isMarkersVisible, this`startMarker, this`endMarker, page`dots, page`layers
      ensures Valid() && page.PathLayers() == old(page.PathLayers())
      ensures visible == isMarkersVisible == !old(isMarkersVisible)
      ensures page.dots == if visible then Ids(locations) else []
      ensures old(startMarker) != null && selectedStart.Some? ==>
                startMarker != null && fresh(startMarker) &&
                startMarker.kind == RoleMarker(Start, selectedStart.value.id)
      ensures !(old(startMarker) != null && selectedStart.Some?) ==> startMarker == old(startMarker)
      ensures old(endMarker) != null && selectedEnd.Some? ==>
                endMarker != null && fresh(endMarker) &&
                endMarker.kind == RoleMarker(End, selectedEnd.value.id)
      ensures !(old(endMarker) != null && selectedEnd.Some?) ==> endMarker == old(endMarker)
    {
      isMarkersVisible := !isMarkersVisible;
      if isMarkersVisible {
        ShowLocationMarkers();
      } else {
        page.dots := [];
      }
      if startMarker != null && selectedStart.Some? {
        UpdateMarker(selectedStart.value, Start);
      }
      if endMarker != null && selectedEnd.Some? {
        UpdateMarker(selectedEnd.value, End);
      }
      visible := isMarkersVisible;
    }

    /** clearAll: clears both roles through the (possibly wrapped)
        clearSelection, then empties both fields and redraws the catalog. When
        the wrappers are installed, validation ran before the fields were
        emptied, so each wrapper keeps the style of the text it had before. */
    method ClearAll()
      requires Valid()
      modifies this`selectedStart, this`selectedEnd, this`startMarker, this`endMarker
      modifies page`texts, page`layers, page`dots, page`routeDisabled, page`wrappers
      ensures Valid() && page.PathLayers() == old(page.PathLayers())
      ensures selectedStart.None? && selectedEnd.None? && startMarker == null && endMarker == null
      ensures page.MarkerLayers(Start) == {} && page.MarkerLayers(End) == {}
      ensures page.texts == PerRole("", "")
      ensures page.dots == if isMarkersVisible then Ids(locations) else old(page.dots)
      ensures validationHooked ==>
                page.routeDisabled &&
                page.wrappers == PerRole(FieldStyle(old(page.texts.start), false),
                                         FieldStyle(old(page.texts.end), false))
      ensures !validationHooked ==> unchanged(page`routeDisabled, page`wrappers)
    {
      ClearSelection(Start);
      ClearSelection(End);
      page.texts := PerRole("", "");
      ShowLocationMarkers();
    }
  }
}
