# Campus-Map route finder, modelled in Dafny

Campus-Map is a campus map with a walking-route finder. The browser client is a set of
JavaScript managers that share one page:

- the selection store (`locationManager.js`) holds the location catalog, the start and end
  selections and their map markers;
- the autocomplete (`autocompleteManager.js`) fills a suggestion dropdown under each search
  field and commits a picked row to the store;
- the value detector (`valueDetector.js`) keeps the find-route button and the green/red field
  styling in step with the fields, through field listeners, observers, a poll and wrappers
  around three store methods;
- the route manager (`routeManager.js`) requests a route, draws it and fills the summary;
- the UI manager (`uiManager.js`) holds the minimised-panel flag and the button rule;
- the event handlers (`eventHandlers.js`) wire the buttons and keyboard shortcuts to them.

The Flask server (`campus_map_app/app.py`) loads the graph and node tables, serves the
named nodes, and answers `/route` with an A* path, its stitched geometry, its length and a
walking time.

The model is one Dafny module per source unit. The client managers are classes over a
shared `Page` object (fields, dropdowns, wrappers' classes, button, summary, map layers),
and their methods state the whole new page state. The server is modelled on values: the
start-up loops as methods proved against fold functions; A* as a method over a queue, with
the search invariant that gives both soundness and completeness; and `/route` as a method
whose reply is tied to the graph.

| file | module | source |
|---|---|---|
| collections.dfy | Collections | Option, filter, find, slice |
| text.dfy | Text | trim, lower-case, includes, split, integer printing and parsing |
| catalog.dfy | Catalog | the catalog and `filterLocations` |
| page.dfy | Page | the DOM and map state the managers share |
| validity.dfy | Validity | `validateAndUpdate`, `updateVisualFeedback` |
| ui_manager.dfy | Ui | `uiManager.js` |
| location_manager.dfy | Locations | `locationManager.js` |
| units.dfy | Units | both walking-time formats, distance printing, rounding |
| route_manager.dfy | Routes | `routeManager.js` |
| highlight.dfy | Highlight | `highlightMatch` |
| autocomplete_manager.dfy | Autocomplete | `autocompleteManager.js` |
| value_detector.dfy | Detector | `valueDetector.js` |
| event_handlers.dfy | Events | `eventHandlers.js` |
| graph.dfy | Graph | graph and node loading, heuristic (`app.py`) |
| astar.dfy | AStar | `astar` (`app.py`) |
| route_service.dfy | RouteService | sort, `/nodes`, `/route` (`app.py`) |

## Model

| member | source | states |
|---|---|---|
| Collections.Filter | campus_map_app/static/js/locationManager.js:15 | the kept elements are elements of the input that pass the test, and there are no more of them than inputs |
| Collections.FilterComplete | campus_map_app/static/js/locationManager.js:195-198 | every element that passes the test is kept |
| Collections.FilterExactly | campus_map_app/static/js/autocompleteManager.js:129 | an element is kept exactly when it is in the input and passes the test |
| Collections.FilterIsSubsequence | campus_map_app/static/js/locationManager.js:195-198 | filtering keeps the original order (the result is a subsequence) |
| Collections.FilterAppend | campus_map_app/static/js/locationManager.js:195-198 | filtering distributes over concatenation |
| Collections.Take | campus_map_app/static/js/locationManager.js:190 | `slice(0, n)`: the first min(n, length) elements, unchanged |
| Collections.FindFirst | campus_map_app/static/js/locationManager.js:58 | `find`: the result passes the test and no earlier element does; None exactly when no element passes |
| Text.TrimStartSlice | campus_map_app/static/js/valueDetector.js:119-120 | trimming the front removes only white space, and the result starts with a non-space |
| Text.TrimEndSlice | campus_map_app/static/js/valueDetector.js:119-120 | trimming the back removes only white space, and the result ends with a non-space |
| Text.TrimEmptyIffAllSpace | campus_map_app/static/js/valueDetector.js:119-124 | a trimmed text is empty exactly when every character is white space |
| Text.LowerChar | campus_map_app/static/js/locationManager.js:193 | an upper-case ASCII letter becomes the lower-case letter at the same place in the alphabet; every other character is unchanged |
| Text.Lower | campus_map_app/static/js/locationManager.js:196 | lower-casing keeps the length and lower-cases each character |
| Text.ContainsAt | campus_map_app/static/js/locationManager.js:197 | `includes` holds exactly when the term occurs at some position |
| Text.Split | campus_map_app/static/js/locationManager.js:193 | `split(' ')` gives at least one piece and no piece contains a space |
| Text.JoinSplit | campus_map_app/static/js/locationManager.js:193 | joining the pieces of `split(' ')` with spaces gives back the query |
| Text.Terms | campus_map_app/static/js/autocompleteManager.js:129 | the search terms are exactly the non-empty pieces of the lower-cased query split on single spaces, in their order; none is empty or holds a space |
| Text.NatToString | campus_map_app/static/js/autocompleteManager.js:104 | an integer prints as a non-empty run of digits with no leading zero |
| Text.NatToStringValue | campus_map_app/static/js/autocompleteManager.js:104 | the printed digits read back as the number |
| Text.DigitRun | campus_map_app/app.py:128-129 | the digit prefix is all digits and is followed by a non-digit or the end |
| Text.DigitRunAll | campus_map_app/app.py:128-129 | a text made only of digits is read to its end |
| Text.SignedDigitsOfDigits | campus_map_app/app.py:128-129 | a run of digits reads as its value and is consumed entirely |
| Text.SignedDigitsOfNegative | campus_map_app/app.py:128-129 | a minus sign followed by digits reads as the negated value and is consumed entirely |
| Text.SignedDigitsOfIntToString | campus_map_app/static/js/routeManager.js:19 | a printed integer reads back, sign included, as that integer, using every character |
| Text.JsParseIntRoundTrip | campus_map_app/static/js/autocompleteManager.js:148 | `parseInt` of a row's `data-id` is the id that was printed into it |
| Text.PyIntRoundTrip | campus_map_app/app.py:128-129 | `int()` of an id printed into the request URL is that id |
| Text.PyIntRejectsLetters | campus_map_app/app.py:127-131 | `int()` rejects "12a" and "", and accepts " 7 " as 7 |
| Catalog.LoadKeepsNonWaypointsInOrder | campus_map_app/static/js/locationManager.js:14-17 | the catalog holds exactly the entries whose name does not start with "Node", in their original order |
| Catalog.FilterLocations | campus_map_app/static/js/locationManager.js:188-199 | at most ten results, all from the catalog; for a non-blank query each contains every term |
| Catalog.BlankQueryListsCatalogHead | campus_map_app/static/js/locationManager.js:189-191 | a blank query gives the first ten catalog entries, unfiltered |
| Catalog.FilterReturnsFirstMatches | campus_map_app/static/js/locationManager.js:195-198 | any matching entry with fewer than ten matches before it is among the results |
| Catalog.FilterPosition | campus_map_app/static/js/locationManager.js:195-198 | a passing element stands in the filtered list right after the passing elements before it |
| Catalog.FilterKeepsCatalogOrder | campus_map_app/static/js/locationManager.js:188-199 | the results are in catalog order |
| Catalog.SubsequenceReflexive | campus_map_app/static/js/locationManager.js:190 | the whole catalog keeps its own order |
| Catalog.PrefixIsSubsequence | campus_map_app/static/js/locationManager.js:198 | cutting the results to ten keeps them in catalog order |
| Page.SelectableCount | campus_map_app/static/js/autocompleteManager.js:59 | the selectable rows are no more than the rows |
| Page.SelectableAt | campus_map_app/static/js/autocompleteManager.js:76 | the k-th selectable row exists exactly when k is below their count, and it is a location row of the dropdown |
| Page.Layer.constructor | campus_map_app/static/js/locationManager.js:114-117 | a new map layer of the given kind |
| Page.NothingLeftOnMap | campus_map_app/static/js/eventHandlers.js:90-105 | a map with no role marker and no route polyline has no layers |
| Validity.WrapperClasses | campus_map_app/static/js/valueDetector.js:137-150 | whatever classes the wrapper had, it ends with 'valid' alone, 'invalid' alone, or neither, as the text and validity decide |
| Validity.MarksAreTwo | campus_map_app/static/js/valueDetector.js:137-150 | the wrapper's styling classes are only 'valid' and 'invalid' |
| Validity.ValidateAndUpdate | campus_map_app/static/js/valueDetector.js:111-135 | the button is disabled unless both roles are selected with non-blank text, and each wrapper is styled from its own field |
| Validity.EditedTextStaysValid | campus_map_app/static/js/valueDetector.js:119-127 | after a commit, typing one more character keeps the role valid although the text no longer names the selection |
| Validity.ValidIffSelectedAndNotBlank | campus_map_app/static/js/valueDetector.js:119-127 | a role is valid exactly when it is selected and its text has a non-space character |
| Ui.MiniFor | campus_map_app/static/js/uiManager.js:46-58 | the mini info is shown exactly when the summary is, and then copies its distance |
| Ui.UIManager.constructor | campus_map_app/static/js/uiManager.js:2-5 | the panel starts restored |
| Ui.UIManager.MinimizePanel | campus_map_app/static/js/uiManager.js:7-23 | the flag is set and the mini info follows the summary |
| Ui.UIManager.RestorePanel | campus_map_app/static/js/uiManager.js:25-36 | the flag is cleared |
| Ui.UIManager.TogglePanel | campus_map_app/static/js/uiManager.js:38-44 | the flag flips; minimising refreshes the mini info |
| Ui.UIManager.UpdateMiniRouteInfo | campus_map_app/static/js/uiManager.js:46-58 | the mini info becomes MiniFor of the summary |
| Ui.UIManager.UpdateRouteButton | campus_map_app/static/js/uiManager.js:60-63 | the button is disabled exactly when a selection is missing |
| Ui.ToggleTwice | campus_map_app/static/js/uiManager.js:38-44 | two toggles give back the flag |
| Locations.Swapped | campus_map_app/static/js/locationManager.js:154-158 | the start and end selections are exchanged |
| Locations.SwappedTwice | campus_map_app/static/js/locationManager.js:151-167 | swapping twice gives back the pair |
| Locations.FindById | campus_map_app/static/js/locationManager.js:58 | the first location with the id (none earlier has it); None exactly when no location has it |
| Locations.Lookup | campus_map_app/static/js/locationManager.js:58-59 | a NaN id finds nothing; otherwise the lookup is by id |
| Locations.Ids | campus_map_app/static/js/locationManager.js:25-54 | one circle marker per catalog entry, in order |
| Locations.LocationManager.constructor | campus_map_app/static/js/locationManager.js:4-12 | empty catalog, no selections, markers visible, no role marker on the map |
| Locations.LocationManager.GetSelections | campus_map_app/static/js/locationManager.js:213-218 | the current start and end selections |
| Locations.LocationManager.Revalidate | campus_map_app/static/js/valueDetector.js:73-77 | with the wrappers installed the page is revalidated; otherwise the button and wrappers are untouched |
| Locations.LocationManager.LoadLocations | campus_map_app/static/js/locationManager.js:14-17 | the catalog is the page data without waypoints, drawn when markers are visible |
| Locations.LocationManager.ShowLocationMarkers | campus_map_app/static/js/locationManager.js:19-55 | visible markers are redrawn one per catalog entry; hidden ones are left alone |
| Locations.LocationManager.UpdateMarker | campus_map_app/static/js/locationManager.js:90-131 | the role's old marker leaves the map before a fresh one at the location is added, so the role keeps exactly one marker and the other role's marker is kept |
| Locations.LocationManager.Store | campus_map_app/static/js/locationManager.js:66-78 | the name goes into the role's field, its dropdown is hidden, the selection and marker move to the location, the layers swap exactly the old marker for the new one, and the other role is untouched |
| Locations.LocationManager.SelectLocation | campus_map_app/static/js/locationManager.js:57-88 | an unknown id changes nothing and returns nothing; a known one restores the panel, fills the field, hides the dropdown, selects, moves the marker (the layers swap exactly the old marker for the new one, the route polyline and the other role stay) and returns the pair |
| Locations.LocationManager.ClearSelection | campus_map_app/static/js/locationManager.js:133-149 | the role loses its selection and its marker, the marker leaves the map, and the other role is untouched |
| Locations.LocationManager.SwapLocations | campus_map_app/static/js/locationManager.js:151-167 | nothing selected changes nothing; otherwise the pair is swapped, the fields show the new names, selected roles get fresh markers and the new pair is returned |
| Locations.LocationManager.ToggleMarkers | campus_map_app/static/js/locationManager.js:169-186 | visibility flips and is returned; the circle markers follow it; a role marker on the map for a selected role is redrawn |
| Locations.LocationManager.ClearAll | campus_map_app/static/js/locationManager.js:201-207 | no selections, no role markers, empty fields; with the wrappers, validation saw the texts from before they were emptied |
| Units.WalkSeconds | campus_map_app/static/js/routeManager.js:66 | the walking time is the distance at 5000 m per hour |
| Units.JsRound | campus_map_app/static/js/routeManager.js:69 | `Math.round` is within half a unit of its argument |
| Units.Trunc | campus_map_app/app.py:159 | `int()` of a float truncates toward zero |
| Units.JsDuration | campus_map_app/static/js/routeManager.js:65-77 | seconds below a minute, minutes below an hour, else hours and minutes; each printed count is within half its unit of the walking time, and may reach 60 |
| Units.PyDuration | campus_map_app/app.py:155-165 | the same three forms, each count truncated: minutes stay below 60 and the printed time is at most the walking time and less than a unit below it |
| Units.ClientRoundsUpToSixty | campus_map_app/static/js/routeManager.js:65-77 | for 4975 m the client prints "60min" where the server prints "59min"; for 9960 m the client prints "1h 60min" |
| Units.RoundHalfEven | campus_map_app/app.py:170 | `round()` is within half a unit, and a tie goes to the even neighbour |
| Units.DistanceText | campus_map_app/static/js/routeManager.js:55 | a distance of t tenths prints as the whole metres, then "." and the tenths digit when that digit is not zero, then "m"; a negative one starts with "-"; a "." appears exactly when the tenths digit is not zero |
| Routes.TimeText | campus_map_app/static/js/routeManager.js:56 | the server's walking time when it sent one, the client's estimate otherwise |
| Routes.RouteManager.constructor | campus_map_app/static/js/routeManager.js:4-7 | no route drawn |
| Routes.RouteManager.HasActiveRoute | campus_map_app/static/js/routeManager.js:90-92 | a route is active exactly when a route polyline is on the map |
| Routes.RouteManager.ClearRoute | campus_map_app/static/js/routeManager.js:79-88 | the polyline leaves the map, the summary and mini info are hidden, the role markers stay |
| Routes.RouteManager.DisplayRoute | campus_map_app/static/js/routeManager.js:41-63 | after clearing, non-empty coordinates become the only polyline and fill the summary; a minimised panel gets the distance copied |
| Routes.RouteManager.FindRoute | campus_map_app/static/js/routeManager.js:9-39 | no request without both selections; otherwise the request for the two ids and the button's label restored; an error or failure leaves route, summary and map alone; a reply with points becomes the one polyline with the summary filled and a minimised panel's mini info showing the distance; a reply without points clears route, summary and mini info |
| Highlight.Pieces | campus_map_app/static/js/autocompleteManager.js:133-134 | every highlighted stretch equals the term, ignoring case |
| Highlight.PiecesIsLeftmostScan | campus_map_app/static/js/autocompleteManager.js:133-134 | the scan spells the caption, each highlighted stretch is the term, and no match starts at a character left alone: every leftmost non-overlapping match is wrapped |
| Highlight.ScanCons | campus_map_app/static/js/autocompleteManager.js:133-134 | a valid first piece followed by a scan of the rest is a scan of the whole caption |
| Highlight.LeftmostScanUnique | campus_map_app/static/js/autocompleteManager.js:133-134 | any cutting of the caption with those three properties is the scan itself, so the wrapped stretches are determined by the caption and the term |
| Highlight.HighlightTermWrapsScan | campus_map_app/static/js/autocompleteManager.js:133-134 | highlighting one term gives the markup of that unique leftmost non-overlapping scan |
| Highlight.PiecesKeepText | campus_map_app/static/js/autocompleteManager.js:133-134 | removing the highlight markup gives back the caption |
| Highlight.LowerSlice | campus_map_app/static/js/autocompleteManager.js:133 | lower-casing commutes with slicing |
| Highlight.OccursShift | campus_map_app/static/js/autocompleteManager.js:133-134 | an occurrence past the first character is an occurrence in the rest |
| Highlight.OccursAtStart | campus_map_app/static/js/autocompleteManager.js:133-134 | a case-insensitive match at the start is an occurrence at position 0 |
| Highlight.HitImpliesOccurs | campus_map_app/static/js/autocompleteManager.js:133-134 | a highlighted stretch means the term occurs in the caption |
| Highlight.OccursImpliesHit | campus_map_app/static/js/autocompleteManager.js:133-134 | an occurrence of the term means something is highlighted |
| Highlight.HitIffOccurs | campus_map_app/static/js/autocompleteManager.js:133-134 | something is highlighted exactly when the term occurs, ignoring case |
| Highlight.MarkupOfPlain | campus_map_app/static/js/autocompleteManager.js:133-134 | without matches the markup is the plain text |
| Highlight.NoOccurrenceUnchanged | campus_map_app/static/js/autocompleteManager.js:133-134 | a caption without the term comes back unchanged |
| Highlight.NoTermOccursUnchanged | campus_map_app/static/js/autocompleteManager.js:126-138 | a caption containing none of the terms comes back unchanged |
| Highlight.HighlightStep | campus_map_app/static/js/autocompleteManager.js:132-135 | one more term highlights the running result |
| Highlight.HighlightMatch | campus_map_app/static/js/autocompleteManager.js:126-138 | an empty query leaves the caption alone; otherwise the loop equals HighlightAll over the query's terms: each term in order wraps its leftmost non-overlapping case-insensitive matches in the previous result (HighlightTermWrapsScan) |
| Autocomplete.RowsFor | campus_map_app/static/js/autocompleteManager.js:97-117 | no results give the single "No locations found" row; otherwise one row per result, in order, with its id, role and caption |
| Autocomplete.RowsAllSelectable | campus_map_app/static/js/autocompleteManager.js:101-111 | with results, every row is selectable and the k-th selectable row is the k-th result's |
| Autocomplete.AllLocationRows | campus_map_app/static/js/autocompleteManager.js:59 | in rows that are all location rows, the selectable rows are the rows |
| Autocomplete.StepsStayInRange | campus_map_app/static/js/autocompleteManager.js:62-72 | arrow keys keep an in-range position between -1 and the last selectable row |
| Autocomplete.FieldAutocomplete.constructor | campus_map_app/static/js/autocompleteManager.js:15-18 | nothing highlighted, no results |
| Autocomplete.FieldAutocomplete.ShowDropdown | campus_map_app/static/js/autocompleteManager.js:97-120 | the dropdown shows the rows for the results, none highlighted |
| Autocomplete.FieldAutocomplete.HideDropdown | campus_map_app/static/js/autocompleteManager.js:122-124 | the dropdown loses 'show' and nothing else changes |
| Autocomplete.FieldAutocomplete.UpdateHighlight | campus_map_app/static/js/autocompleteManager.js:140-145 | the selectable row at the index is the highlighted one |
| Autocomplete.FieldAutocomplete.Suggest | campus_map_app/static/js/autocompleteManager.js:49-55 | the results are filterLocations of the query, shown in the dropdown |
| Autocomplete.FieldAutocomplete.OnInput | campus_map_app/static/js/autocompleteManager.js:20-42 | position reset and results shown; a blank query clears the role's selection and marker, the layers lose exactly that marker, and the other role's marker and the route polyline stay; otherwise the store and the map are unchanged and the button follows the selections |
| Autocomplete.FieldAutocomplete.InputCleared | campus_map_app/static/js/autocompleteManager.js:28-32 | the catalog head is shown, the role's selection and marker are cleared, the layers lose exactly that marker, and the other role's marker and the route polyline stay |
| Autocomplete.FieldAutocomplete.InputQuery | campus_map_app/static/js/autocompleteManager.js:35-41 | the search results are shown and the button follows the selections |
| Autocomplete.FieldAutocomplete.OnFocus | campus_map_app/static/js/autocompleteManager.js:44-56 | the panel is restored and the results shown; the position is not reset |
| Autocomplete.FieldAutocomplete.SelectLocationFromDropdown | campus_map_app/static/js/autocompleteManager.js:147-154 | a known id: the role's selection, text, hidden dropdown and fresh marker, the layers swapping exactly the old marker for it, the other role and the route polyline kept, the panel restored, the button following the selections and the wrappers styled; an unknown id: store, panel, texts, dropdowns and map unchanged |
| Autocomplete.FieldAutocomplete.OnKeyDown | campus_map_app/static/js/autocompleteManager.js:58-86 | arrows move and highlight the position; Enter at a row performs the same full commit (exact layers, route polyline kept), or the same no-change miss, as selecting that row; Enter elsewhere changes nothing; Escape hides the dropdown; only a commit touches the panel flag |
| Autocomplete.FieldAutocomplete.OnRowMouseDown | campus_map_app/static/js/autocompleteManager.js:111-116 | a pressed row leads to the full commit of its location for the role (selection, text, hidden dropdown, fresh marker replacing the old one in the layers, other role and route polyline kept, panel restored, button and wrappers), or to no change when its id is not in the catalog |
| Autocomplete.FieldAutocomplete.OnBlurElapsed | campus_map_app/static/js/autocompleteManager.js:88-94 | the dropdown is hidden unless focus moved into it |
| Autocomplete.RowLeadsBackToLocation | campus_map_app/static/js/autocompleteManager.js:104 | a row's data-id parses back to its entry's id, which the catalog lookup finds |
| Detector.Trimmed | campus_map_app/static/js/valueDetector.js:98-101 | both field texts, trimmed |
| Detector.ValueDetector.constructor | campus_map_app/static/js/valueDetector.js:2-11 | not initialised, no observers, empty last values |
| Detector.ValueDetector.Init | campus_map_app/static/js/valueDetector.js:13-22 | a first call installs listeners, two observers, the poll and the wrappers; a repeated call changes nothing |
| Detector.ValueDetector.SetupValidationTriggers | campus_map_app/static/js/valueDetector.js:71-92 | the store's wrappers are installed |
| Detector.ValueDetector.Validate | campus_map_app/static/js/valueDetector.js:111-135 | the page is validated against the store's selections |
| Detector.ValueDetector.CheckForChanges | campus_map_app/static/js/valueDetector.js:94-109 | the trimmed texts are remembered; a change revalidates, no change leaves the page alone |
| Detector.ValueDetector.OnFieldEvent | campus_map_app/static/js/valueDetector.js:24-39 | a validation is scheduled |
| Detector.ValueDetector.DebounceElapsed | campus_map_app/static/js/valueDetector.js:152-157 | a scheduled validation runs once |
| Detector.ValueDetector.OnValueAttributeChanged | campus_map_app/static/js/valueDetector.js:41-63 | a connected observer revalidates; a disconnected one does nothing |
| Detector.ValueDetector.ForceValidation | campus_map_app/static/js/valueDetector.js:159-161 | the page is validated |
| Detector.ValueDetector.Destroy | campus_map_app/static/js/valueDetector.js:163-170 | observers disconnected, pending validation cancelled, not initialised |
| Detector.InitTwice | campus_map_app/static/js/valueDetector.js:13-22 | init twice is init once |
| Events.ShortcutFor | campus_map_app/static/js/eventHandlers.js:56-88 | each outcome holds exactly when its condition does: an input target is ignored; Ctrl/Meta+Enter with an enabled button requests a route; Ctrl/Meta+Backspace clears; unmodified 'h' or 'H' toggles the panel; unmodified Escape (any case) closes the dropdowns |
| Events.HToggles | campus_map_app/static/js/eventHandlers.js:75-79 | 'h' and 'H' toggle the panel, Ctrl+H does not, and an input swallows the key |
| Events.EventHandlers.constructor | campus_map_app/static/js/eventHandlers.js:2-6 | the three managers, sharing one page |
| Events.EventHandlers.OnFindRouteClick | campus_map_app/static/js/eventHandlers.js:9-12 | with both roles selected: the request for their ids, and the route, map layers, summary, mini info and button exactly as findRoute leaves them for the reply; otherwise nothing changes; the selections stay as they are |
| Events.EventHandlers.ClearRoute | campus_map_app/static/js/eventHandlers.js:90-105 | no route, no selections, no role markers and nothing left on the map, empty fields, disabled button, summary and mini info hidden, the dots redrawn when visible, and with the wrappers installed the pre-clear texts styled invalid |
| Events.EventHandlers.OnSwapClick | campus_map_app/static/js/eventHandlers.js:18-28 | with nothing selected the handler throws after clearing the route, fields and markers unchanged; otherwise the pair is swapped, the fields show the swapped names, selected roles get fresh markers, the button follows and the wrappers are styled; an active route is removed and its summary and mini info hidden, and without one they stay |
| Events.EventHandlers.OnLayersClick | campus_map_app/static/js/eventHandlers.js:34-43 | marker visibility flips, the dots follow it, the button's 'active' class shows it, each selected role's marker on the map is redrawn fresh at its location, any other marker stays, and the route is untouched |
| Events.EventHandlers.OnTogglePanelClick | campus_map_app/static/js/eventHandlers.js:45-47 | the panel flag flips, and minimising refreshes the mini info from the summary |
| Events.EventHandlers.OnRestorePanelClick | campus_map_app/static/js/eventHandlers.js:49-51 | the panel is restored |
| Events.EventHandlers.HideShownDropdowns | campus_map_app/static/js/eventHandlers.js:80-84 | both dropdowns lose 'show' |
| Events.EventHandlers.OnDocumentKeyDown | campus_map_app/static/js/eventHandlers.js:56-88 | each shortcut ShortcutFor dispatches leaves the whole page as its handler does: the route request's full reply effect, the full clear, the panel toggle with only the mini info changing, Escape hiding both dropdowns and changing nothing else; an ignored key changes nothing |
| Graph.EdgeEndsAreNodes | campus_map_app/app.py:109 | both ends of an edge are nodes of the graph |
| Graph.ExtendPath | campus_map_app/app.py:120 | a path extended along an edge out of its end is a path |
| Graph.ClosedSetHoldsPaths | campus_map_app/app.py:107-120 | a set holding the start and closed under edges holds every reachable node |
| Graph.ClosedSetBlocks | campus_map_app/app.py:98-122 | a node outside such a set is unreachable |
| Graph.AddEdge | campus_map_app/app.py:27 | the edge gets the weight; every other edge keeps its presence and weight |
| Graph.EdgeIffRow | campus_map_app/app.py:24-27 | there is an edge u to v exactly when some row goes from u to v |
| Graph.LastRowWins | campus_map_app/app.py:24-27 | a repeated edge keeps the weight of its last row |
| Graph.Segment | campus_map_app/app.py:29-35 | the geometry's points as (latitude, longitude), or none when it does not parse |
| Graph.LastWinsValue | campus_map_app/app.py:33 | a dictionary filled in order holds each key's last value |
| Graph.LastWinsKeys | campus_map_app/app.py:52 | its keys are exactly the keys of the pairs |
| Graph.GeomPairs | campus_map_app/app.py:33-35 | one (edge, geometry) pair per row, in order |
| Graph.BuildGraph | campus_map_app/app.py:24-35 | the weights are the fold of the rows and each edge's geometry is its last row's |
| Graph.RecordOf | campus_map_app/app.py:41-50 | a row's record: its id and position, and its name or "Node id" |
| Graph.UnnamedIsWaypoint | campus_map_app/app.py:49 | an unnamed node's record is a waypoint |
| Graph.CoordPairs | campus_map_app/app.py:52 | one (id, position) pair per row, in order |
| Graph.BuildNodes | campus_map_app/app.py:40-52 | one record per row in row order, and each id's last position |
| Graph.Heuristic | campus_map_app/app.py:72-85 | 0 when either node has no position, otherwise the distance between the positions |
| AStar.PathLeTotal | campus_map_app/app.py:99 | Python's list order is total |
| AStar.PathLeTransitive | campus_map_app/app.py:99 | Python's list order is transitive |
| AStar.PathLeAntisymmetric | campus_map_app/app.py:99 | Python's list order is antisymmetric |
| AStar.EntryLeTotal | campus_map_app/app.py:99 | the queue's tuple order is total |
| AStar.EntryLeTransitive | campus_map_app/app.py:99 | the queue's tuple order is transitive |
| AStar.PopMin | campus_map_app/app.py:99 | heappop takes a least entry, and every least entry is that entry |
| AStar.Pop | campus_map_app/app.py:99 | the least entry leaves the queue and every other entry stays |
| AStar.FewerLeft | campus_map_app/app.py:107 | marking a node visited leaves fewer unvisited nodes |
| AStar.PopKeeps | campus_map_app/app.py:99-107 | popping keeps the search state, and an unvisited node can be marked |
| AStar.PushKeeps | campus_map_app/app.py:120 | a push keeps the queued entries |
| AStar.Expand | campus_map_app/app.py:109-120 | every unvisited neighbour with a new or better g-score gets that score and a queue entry; every other node keeps its g-score; each pushed entry is for such a neighbour and extends the path; the search state is kept |
| AStar.Relax | campus_map_app/app.py:110-120 | one neighbour: an improving one gets its score and entry, any other changes nothing, and the loop state is kept |
| AStar.PushRelaxed | campus_map_app/app.py:114-120 | recording an improving neighbour's score and pushing its entry keeps the loop state |
| AStar.Step | campus_map_app/app.py:98-120 | one turn returns a path from start to end, or keeps the search state and makes progress |
| AStar.Astar | campus_map_app/app.py:88-122 | None when start or end has no outgoing edges; otherwise a path from start to end exactly when end is reachable; [start] when start is end; each node expanded once |
| RouteService.NameLeTotal | campus_map_app/app.py:55 | Python's string order is total |
| RouteService.NameLeTransitive | campus_map_app/app.py:55 | Python's string order is transitive |
| RouteService.Insert | campus_map_app/app.py:55 | inserting adds one element, placed first or behind the old head |
| RouteService.SortNodes | campus_map_app/app.py:55 | sorting keeps the length |
| RouteService.InsertSorted | campus_map_app/app.py:55 | inserting into a sorted list keeps it sorted and adds exactly the element |
| RouteService.SortNodesSortedPermutation | campus_map_app/app.py:55 | the node list is sorted by (waypoint, name) and holds the same records |
| RouteService.WaypointsAfterNamed | campus_map_app/app.py:55 | in the sorted list nothing named follows a waypoint |
| RouteService.NamedNodesArePrefix | campus_map_app/app.py:66-69 | on the sorted list, /nodes is its head |
| RouteService.NothingPasses | campus_map_app/app.py:68 | a list of waypoints has no named node |
| RouteService.ToLocations | campus_map_app/app.py:62-63 | one catalog entry per record, with the same id, name and position |
| RouteService.PageCatalogIsNodesEndpoint | campus_map_app/app.py:62-69 | the client's catalog from the page data is exactly what /nodes returns |
| RouteService.Load | campus_map_app/app.py:17-55 | the server's weights, geometries and positions come from the rows, and its node list is the rows' records, sorted |
| RouteService.NodeById | campus_map_app/app.py:152-153 | a record with the id and no earlier record with it, or None when there is none |
| RouteService.CostGrows | campus_map_app/app.py:141-146 | with non-negative weights the distance is non-negative and grows along the path |
| RouteService.JoinSegment | campus_map_app/app.py:148-150 | the joined route ends where the segment ends, one point shorter when the segment repeats the last point |
| RouteService.StitchedPointsFromSegments | campus_map_app/app.py:141-150 | every point of the route comes from an edge of the path |
| RouteService.StitchedGrows | campus_map_app/app.py:141-150 | the route drawn so far is a prefix of the final route |
| RouteService.AddLeg | campus_map_app/app.py:142-150 | one pair of the path adds its edge's weight and appends its geometry |
| RouteService.StitchRoute | campus_map_app/app.py:138-150 | the coordinates are the path's geometries joined, and the distance is the summed weights |
| RouteService.ParseIds | campus_map_app/app.py:127-131 | the pair parses exactly when both arguments are present and int() accepts them |
| RouteService.ClientIdsParse | campus_map_app/app.py:128-129 | the ids the client sends are read back unchanged |
| RouteService.LettersAreBadRequest | campus_map_app/app.py:127-131 | "12a" or a missing argument fails to parse |
| RouteService.Route | campus_map_app/app.py:125-175 | 400 exactly when an id fails to parse; 404 exactly when an end has no outgoing edges or end is unreachable; otherwise a path from start to end with its stitched route, its length to a tenth, its walking time and both records |

## Left out

- Rendering is not modelled: Leaflet drawing, popups, icons, `fitBounds`, `centerOnLocation`, `closePopup`, `resetView` and the panel animations. Map layers are modelled as objects with a kind.
- Toasts (`showToast`) are not modelled. They only show text.
- `locateUser` and the locate button are not modelled. They need geolocation and the map bounds.
- `mapManager.js`, `main.js`, `config.js` and `data_builder/nodes_to_graph.py` are not part of this model.
- Timers and observers are explicit calls: `OnFieldEvent`, `DebounceElapsed`, `CheckForChanges`, `OnValueAttributeChanged` and `OnBlurElapsed`. Their interleaving with other events is left to the caller.
- Detector.ValueDetector.Init: listeners and the poll are counted, not run. Each init after a destroy adds another set, because destroy does not remove them.
- The network is a parameter. `Reply` is the decoded JSON or its absence. Stale or out-of-order replies, and the `await` between request and reply, are not modelled.
- Routes.RouteManager.FindRoute: the reply arrives within the call, so the loading look of the button is only visible in between.
- Floating point is modelled as exact reals, in the weights, the distances and the walking time. The haversine distance is a parameter of the server.
- Units.RoundHalfEven: Python's `round(x, 1)` is modelled as half-even rounding of 10·x on exact reals. The binary representation of the float is not modelled.
- Reading the CSV files and parsing WKT are not modelled. Rows arrive decoded, with a geometry that did not parse given as None.
- A NaN name in nodes.csv is the missing name (`Option`). The sort's `pd.isna` test therefore never holds for a record.
- `f_scores` in `astar` is written but never read, so it is not modelled.
- AStar.Astar: the neighbours are taken in no particular order. The path returned does not depend on it, because the pop is an exact least-entry selection.
- AStar.Astar: the path is not proved shortest, because the heuristic is not assumed consistent. Only soundness and completeness are proved.
- AStar.Astar: heapq's heap layout is replaced by a sequence with a least-entry pop. They return the same entry, because equal entries are identical.
- RouteService.SortNodes: stability of the sort is not stated. Only sortedness and the permutation are proved.
- Flask, JSON encoding, HTTP routing and the template are not modelled. `Response` is the reply, and `Status` and `ErrorText` its status and error text.
- Text.Lower lower-cases ASCII only. Other Unicode case mappings and Unicode white space beyond the listed characters are not modelled.
- Highlight.HighlightMatch: a term is matched literally. Regular-expression characters in a term do not get their special meaning, and a term that is an invalid pattern does not throw.
- Text.PyIntRoundTrip: underscores and non-ASCII digits, which `int()` also accepts, are not modelled.
- Listeners attached by `showDropdown` to each row are modelled as `OnRowMouseDown` on the current rows.

## Where the code and the specification disagree

The model follows the code in each case.

- Validity does not compare the field text with the selected name. A role is valid when it is selected and its text is not blank. `Validity.EditedTextStaysValid` shows an edited text that stays valid.
- The focus handler does not reset the highlighted position. After a refocus it can point past the new rows, and Enter then selects nothing.
- The server returns the distance rounded to one decimal, not whole metres. The model carries it in tenths.
- The client's walking time rounds and can print "60min" or "1h 60min". The server truncates and prints "59min" for the same distance (`Units.ClientRoundsUpToSixty`).
- `astar` answers None when `end` has no outgoing edges, even when it is reachable. `/route` then replies 404.
- With nothing selected, the swap button's handler throws after clearing the route. The button is not updated.
- `clearAll` validates before it empties the fields. With the wrappers installed, each wrapper keeps the style of the text it had until the next poll.
