# Fleet dashboard: a Dafny model of its list logic

The dashboard shows emergency vehicles on a map of Santiago. It has four parts:

- a header with a search box and point-of-interest filters;
- a side panel and a header menu that list the vehicles and the radio log, each sorted by a chosen key;
- popup cards for the vehicles the user has clicked;
- the markers of the active point-of-interest categories.

The model covers the data behind these views. It leaves out how they are drawn.

- `VehicleTracker` (src/pages/VehicleTracker.tsx) holds:
  - the `Vehicle` and `Communication` records and the seed fleet and log;
  - the case-insensitive search on name or unit;
  - the handlers that open and close vehicle popups and toggle filters, as the class `TrackerState`.
- `Sidebar` (src/components/Sidebar.tsx) holds:
  - the three sort keys for vehicles and for the log;
  - the Spanish status-label chain;
  - the expanded-note list, with its state in `SidebarState`.
- `EnhancedVehicleDropdown` (src/components/EnhancedVehicleDropdown.tsx) holds the header menu:
  - sorting with vehicle names resolved from the fleet;
  - the unit column with its "N/A" default and the note column;
  - the status-dot colour;
  - the open/tab/sort state in `DropdownState`.
- `MapView` (src/components/MapView.tsx) holds the point-of-interest catalogue and the flattened, tagged marker list of the active filters.
- `VehiclePopup` (src/components/VehiclePopup.tsx) holds:
  - the status-label table;
  - the card placement with its `max(y - 200, 10)` clamp;
  - the communications panel and its notes, as `PopupState`.
- Shared modules, one per library behaviour the components use:
  - `Text`: `toLowerCase`, `includes` and `localeCompare`.
  - `Lists`: `filter`, the include-or-remove toggle used by every handler, and removal at an index.
  - `Sorting`: the stable `Array.prototype.sort` under a comparator, with its comparators.
  - `Wrappers`: `Option`.

React state becomes class fields. Each setter assigns a value computed by a pure function, and every method's `ensures` ties the new state to that function.

How `Sorting` models `Array.prototype.sort`:

- The sorted list is `Sorting.SortBy`, an insertion from the right. `Sorting.SortInPlace` computes it in place on an array, and `Sorting.SortedCopy` copies the list and sorts the copy, as `[...xs].sort(cmp)` does.
- The result is always a permutation of the input.
- It is sorted and stable only when the comparator is a total preorder on the list. A text comparator always is. A time comparator is when every date parses.
- When no date parses, every comparison is NaN, which the sort reads as a tie, so the list keeps its order.

Where the sources differ:

- The side panel's "reciente" order compares the `lastUpdate` strings, newest last-update text first, while the header menu parses them as dates. Each component is modelled as written.
- When the side panel sorts the log by "estado", no branch of its own handles that key, so the log is sorted by time (`Sidebar.CommunicationStatusIsRecent`).
- The menu's colour table is keyed by Spanish words (`activo`, `en_ruta`, ...), while vehicles hold English statuses (`active`, `busy`, ...). As written, every vehicle gets the grey default dot (`EnhancedVehicleDropdown.EveryVehicleDotIsGray`).
- Closing a popup at an index that does not exist is not an error: the filter keeps every element, so the list is unchanged (`Lists.RemoveAt`).
- The unit column shows "N/A" both when the vehicle is missing and when its unit is the empty string (`||` treats "" as false).

## Model

| member | source | states |
|---|---|---|
| Text.ToLowerIdempotent | src/pages/VehicleTracker.tsx:104-105 | lower-casing an already lower-cased text changes nothing |
| Text.ContainsIsSubstring | src/pages/VehicleTracker.tsx:104-105 | `includes` holds exactly when the needle occurs as a contiguous slice at some position |
| Text.NotContainsWithoutFirst | src/pages/VehicleTracker.tsx:104-105 | a text without the needle's first character does not include the needle |
| Text.ContainsEmpty | src/pages/VehicleTracker.tsx:104-105 | every text includes the empty string |
| Text.Compare | src/components/Sidebar.tsx:49 | `localeCompare` yields -1, 0 or 1 |
| Text.CompareAntisymmetric | src/components/Sidebar.tsx:49 | swapping the operands negates the comparison |
| Text.CompareZeroIffEqual | src/components/Sidebar.tsx:49 | the comparison is zero exactly for equal strings |
| Text.CompareTransitive | src/components/Sidebar.tsx:49 | the order is transitive |
| Text.CompareEmptyFirst | src/components/EnhancedVehicleDropdown.tsx:44-46 | the empty string orders before every non-empty string |
| Lists.Filter | src/pages/VehicleTracker.tsx:103-106 | the result is no longer than the input; it holds exactly the input's elements that satisfy the predicate |
| Lists.FilterCount | src/pages/VehicleTracker.tsx:103-106 | each kept value occurs as often as in the input; each dropped one does not occur |
| Lists.FilterCountAll | src/pages/VehicleTracker.tsx:123 | the same, for every value at once |
| Lists.FilterIsSubsequence | src/pages/VehicleTracker.tsx:103-106 | the kept elements appear in their input order |
| Lists.FilterAppend | src/pages/VehicleTracker.tsx:120-126 | filtering a concatenation filters each part |
| Lists.FilterKeepsAll | src/pages/VehicleTracker.tsx:103-106 | when every element passes, the list comes back unchanged |
| Lists.FilterSamePredicate | src/pages/VehicleTracker.tsx:103-106 | two predicates that agree on the list filter it alike |
| Lists.FilterNoDuplicates | src/pages/VehicleTracker.tsx:123 | filtering keeps a list duplicate-free |
| Lists.Toggle | src/pages/VehicleTracker.tsx:120-126 | the value ends up in the list exactly when it was absent before; no other value is added or lost; an absent value is appended; a present one is removed with every copy, every other value keeping its number of occurrences and the order of the rest unchanged |
| Lists.ToggleTwiceAbsent | src/pages/VehicleTracker.tsx:120-126 | toggling an absent value twice restores the list |
| Lists.ToggleNoDuplicates | src/pages/VehicleTracker.tsx:120-126 | toggling keeps a list duplicate-free |
| Lists.RemoveAt | src/pages/VehicleTracker.tsx:135 | drops exactly the element at a valid index, keeping the order of the rest; any other index leaves the list unchanged |
| Sorting.InsertPermutes | src/components/Sidebar.tsx:46-56 | inserting adds exactly one copy of the element |
| Sorting.SortByPermutes | src/components/Sidebar.tsx:46-56 | the sorted copy is a permutation of the input, of the same length |
| Sorting.ConsistentSub | src/components/Sidebar.tsx:46-56 | a comparator that is a total preorder on a list is one on any list drawn from it |
| Sorting.InsertSorted | src/components/Sidebar.tsx:46-56 | inserting into a sorted list under a total preorder keeps it sorted |
| Sorting.SortBySorted | src/components/Sidebar.tsx:46-56 | under a total preorder the result is sorted |
| Sorting.ClassOfSnoc | src/components/Sidebar.tsx:46-56 | the elements tying with k in a list extended by x are those of the list, then x if it ties |
| Sorting.InsertStable | src/components/Sidebar.tsx:46-56 | insertion places the element after all elements it ties with |
| Sorting.SortByStableAt | src/components/Sidebar.tsx:46-56 | elements tying with a given one keep their input order |
| Sorting.SortByStable | src/components/Sidebar.tsx:46-56 | every class of tying elements keeps its input order (stability) |
| Sorting.SortedIsFixed | src/components/Sidebar.tsx:46-56 | an already sorted list is returned unchanged |
| Sorting.SortIdempotent | src/components/Sidebar.tsx:46-56 | sorting twice is sorting once |
| Sorting.AllTiesKeepOrder | src/components/Sidebar.tsx:58-66 | when every pair compares equal, the order is kept |
| Sorting.ByTextConsistent | src/components/Sidebar.tsx:49 | ascending text order is a total preorder on every list |
| Sorting.ByTextDescConsistent | src/components/Sidebar.tsx:54 | descending text order is a total preorder on every list |
| Sorting.ByTextTies | src/components/Sidebar.tsx:46-56 | two elements tie under a text order exactly when their keys are equal |
| Sorting.ByTimeConsistent | src/components/Sidebar.tsx:64 | the newest-first order is a total preorder once every date parses |
| Sorting.ByTimeUnparsedKeepsOrder | src/components/Sidebar.tsx:64 | when no date parses every comparison is NaN, read as a tie, and the list keeps its order |
| Sorting.ClassOfByKey | src/components/Sidebar.tsx:46-56 | when ties are exactly equal keys, the elements tying with k are those sharing k's key |
| Sorting.FilterNoKey | src/components/Sidebar.tsx:46-56 | no element carries a key that no element has |
| Sorting.SortByKeepsKeyOrder | src/components/Sidebar.tsx:46-56 | under a total preorder whose ties are equal keys, the elements with each key keep their input order |
| Sorting.ByTextSort | src/components/Sidebar.tsx:49 | sorting by a text key ascending gives a permutation with keys in ascending order; equal keys keep their input order |
| Sorting.ByTextDescSort | src/components/Sidebar.tsx:54 | the same for a descending text key |
| Sorting.ByTimeTies | src/components/Sidebar.tsx:64 | once every date parses, two elements tie exactly when their times are equal |
| Sorting.ByTimeSortStable | src/components/Sidebar.tsx:64 | once every date parses, elements with equal times keep their input order |
| Sorting.SortByMembers | src/components/Sidebar.tsx:46-56 | every element of the sorted copy comes from the input |
| Sorting.ByTimeSortedTimes | src/components/Sidebar.tsx:64 | once every date parses, the result runs newest first |
| Sorting.ByTimeSort | src/components/Sidebar.tsx:64 | once every date parses, the result is a permutation, newest first, with equal times in input order |
| Sorting.InsertAt | src/components/Sidebar.tsx:46-56 | insertion places the element at the position after the last one it may follow, having passed every element it must precede |
| Sorting.InsertInPlace | src/components/Sidebar.tsx:46-56 | on an array, shifting a[i] left into the sorted prefix gives the inserted prefix and leaves the rest of the array unchanged |
| Sorting.SortByPrefixStep | src/components/Sidebar.tsx:46-56 | sorting one more element of a prefix is inserting it into the sorted prefix |
| Sorting.SortInPlace | src/components/Sidebar.tsx:46-56 | the in-place sort leaves the array holding the sorted list of its old contents |
| Sorting.SortedCopy | src/components/Sidebar.tsx:46 | `[...xs].sort(cmp)` returns the sorted list and leaves the input as it was |
| VehicleTracker.FindIndex | src/pages/VehicleTracker.tsx:110 | `findIndex`: -1 exactly when no element has the id; otherwise the first position holding it |
| VehicleTracker.FindVehicle | src/components/EnhancedVehicleDropdown.tsx:147 | `find`: none exactly when no vehicle has the id; otherwise the first vehicle with that id |
| VehicleTracker.SearchKeepsExactlyMatches | src/pages/VehicleTracker.tsx:103-106 | the search keeps exactly the vehicles whose lower-cased name or unit includes the lower-cased query, each as often as it occurs, in list order |
| VehicleTracker.SearchEmptyQuery | src/pages/VehicleTracker.tsx:103-106 | the empty query returns the whole list |
| VehicleTracker.SearchIgnoresCase | src/pages/VehicleTracker.tsx:103-106 | two queries with the same lower-case form find the same vehicles |
| VehicleTracker.LacksB1Misses | src/pages/VehicleTracker.tsx:104-105 | a text with no 'b' or 'B' directly before '1' does not include "b1" once lower-cased |
| VehicleTracker.VehicleMissesB1 | src/pages/VehicleTracker.tsx:103-106 | a vehicle whose name and unit both lack such a pair is not found by "b1" |
| VehicleTracker.SuperTangoMatchesB1 | src/pages/VehicleTracker.tsx:27-35 | the seed vehicle with unit B16 is found by "b1" |
| VehicleTracker.RescueUnitMissesB1 | src/pages/VehicleTracker.tsx:36-44 | the seed vehicle with unit H17 is not found by "b1" |
| VehicleTracker.PatrolAlphaMissesB1 | src/pages/VehicleTracker.tsx:45-53 | the seed vehicle with unit BX19 is not found by "b1" |
| VehicleTracker.EmergencyResponseMissesB1 | src/pages/VehicleTracker.tsx:54-62 | the seed vehicle with unit B21 is not found by "b1" |
| VehicleTracker.LowerB1 | src/pages/VehicleTracker.tsx:104 | "b1" and "B1" both lower-case to "b1" |
| VehicleTracker.SearchSeedB1 | src/pages/VehicleTracker.tsx:103-106 | on the seed fleet, "b1" and "B1" both find exactly the unit B16 |
| VehicleTracker.ToggleVehicleEffect | src/pages/VehicleTracker.tsx:108-118 | a click on a vehicle whose id is not open appends it; a click on an open id removes it at its first position, the rest keeping their order |
| VehicleTracker.ToggleVehicleDistinct | src/pages/VehicleTracker.tsx:108-118 | clicks keep at most one popup per vehicle id |
| VehicleTracker.RemoveAtDistinct | src/pages/VehicleTracker.tsx:135 | closing a popup keeps the open ids distinct |
| VehicleTracker.ToggleVehicleTwice | src/pages/VehicleTracker.tsx:108-118 | clicking a vehicle that is not open twice restores the list |
| VehicleTracker.ClickScenario | src/pages/VehicleTracker.tsx:108-118 | clicking vehicle 2 twice closes its popup; clicking 2 and then 3 opens both, in click order |
| VehicleTracker.TrackerState.constructor | src/pages/VehicleTracker.tsx:99-101 | no popup open, no filter active, empty query |
| VehicleTracker.TrackerState.HandleVehicleClick | src/pages/VehicleTracker.tsx:108-118 | the open list becomes the toggled list; ids stay distinct and filters duplicate-free |
| VehicleTracker.TrackerState.HandleFilterToggle | src/pages/VehicleTracker.tsx:120-126 | the filter list becomes the toggled list, still duplicate-free |
| VehicleTracker.TrackerState.ClosePopup | src/pages/VehicleTracker.tsx:135 | the open list loses exactly the element at the index, if there is one |
| VehicleTracker.TrackerState.SetSearchQuery | src/pages/VehicleTracker.tsx:143 | the query is replaced, and the vehicles shown become the search of the seed fleet by that query |
| Sidebar.StatusLabelOfStatus | src/components/Sidebar.tsx:153-157 | each of the five statuses gets its Spanish label |
| Sidebar.StatusLabelInjective | src/components/Sidebar.tsx:153-157 | different statuses get different labels |
| Sidebar.StatusLabelDefault | src/components/Sidebar.tsx:153-157 | any value other than the four named statuses is labelled "Emergencia" |
| Sidebar.SortedVehiclesOrder | src/components/Sidebar.tsx:46-56 | for each key, the sorted vehicles form a permutation ordered by name ascending, by status ascending, or by `lastUpdate` text descending; vehicles with equal keys keep their order |
| Sidebar.CommunicationStatusIsRecent | src/components/Sidebar.tsx:58-66 | sorting the log by "estado" is sorting it by "reciente" |
| Sidebar.SortFour | src/components/Sidebar.tsx:58-66 | when the second must precede the first, the third may follow the first, and the fourth must precede the other three, the sort gives fourth, second, first, third |
| Sidebar.SeedCommunicationsAlphabetical | src/components/Sidebar.tsx:60-61 | the seed log sorted alphabetically is Patrol Alpha, Rescue Unit 1, then vehicle 1's two entries side by side in log order |
| Sidebar.SortedCommunicationsAlphabetical | src/components/Sidebar.tsx:60-61 | sorted alphabetically, the log is a permutation ordered by the carried vehicle name; equal names keep their order |
| Sidebar.SortedCommunicationsByTime | src/components/Sidebar.tsx:62-65 | for any other key the log is a permutation; when every timestamp parses it runs newest first with equal times in order; when none parses it is unchanged |
| Sidebar.ToggleNoteShows | src/components/Sidebar.tsx:190 | toggling an id flips whether a note with that id is shown, if the entry has a note; other entries are unaffected |
| Sidebar.SidebarState.constructor | src/components/Sidebar.tsx:35-36 | starts sorted by "reciente", every note collapsed |
| Sidebar.SidebarState.SetSortBy | src/components/Sidebar.tsx:111 | the sort key becomes the chosen one |
| Sidebar.SidebarState.ToggleNote | src/components/Sidebar.tsx:38-44 | the expanded list becomes the toggled list, still duplicate-free |
| Sidebar.SidebarState.SortedVehicles | src/components/Sidebar.tsx:46-56 | returns the vehicles sorted by the current key's comparator |
| Sidebar.SidebarState.SortedCommunications | src/components/Sidebar.tsx:58-66 | returns the log sorted by the current key's comparator |
| EnhancedVehicleDropdown.ResolvedName | src/components/EnhancedVehicleDropdown.tsx:44-45 | the name of the first vehicle with the id; "" when no vehicle has it; a non-empty result is the name of a vehicle with that id |
| EnhancedVehicleDropdown.SortedVehiclesByText | src/components/EnhancedVehicleDropdown.tsx:29-32 | by name or status, the vehicles form a permutation in ascending key order; vehicles with equal keys keep their order |
| EnhancedVehicleDropdown.SortedVehiclesByTime | src/components/EnhancedVehicleDropdown.tsx:33-35 | by "reciente", once every `lastUpdate` parses, the vehicles form a permutation that runs newest first; vehicles with equal times keep their order |
| EnhancedVehicleDropdown.SortedVehiclesUnparsed | src/components/EnhancedVehicleDropdown.tsx:33-35 | by "reciente", when no `lastUpdate` parses, the list keeps its order |
| EnhancedVehicleDropdown.SortedCommunicationsAlphabetical | src/components/EnhancedVehicleDropdown.tsx:42-47 | sorted alphabetically, the log is a permutation ordered by resolved vehicle name; equal names keep their order; unresolved entries come first |
| EnhancedVehicleDropdown.SortedCommunicationsByTime | src/components/EnhancedVehicleDropdown.tsx:48-50 | for every other key the log sorts exactly as the side panel sorts it by time |
| EnhancedVehicleDropdown.SeedFind | src/pages/VehicleTracker.tsx:26-63 | ids "1", "2" and "3" find the first three seed vehicles |
| EnhancedVehicleDropdown.SeedFindAt | src/pages/VehicleTracker.tsx:26-63 | a seed vehicle is found by its id when no earlier vehicle has that id |
| EnhancedVehicleDropdown.SeedNamesResolve | src/pages/VehicleTracker.tsx:65-96 | in the seed log each entry's vehicle id resolves to the vehicle name it carries |
| EnhancedVehicleDropdown.UnitCell | src/components/EnhancedVehicleDropdown.tsx:147-153 | the unit of the first vehicle with the entry's id, or "N/A" when that unit is empty; "N/A" when no vehicle has the id; any other cell is the unit of a vehicle with that id; never empty |
| EnhancedVehicleDropdown.SeedUnitCells | src/components/EnhancedVehicleDropdown.tsx:147-153 | on the seed data the unit column reads B16, H17, B16, BX19 |
| EnhancedVehicleDropdown.SeedUnitCellOne | src/components/EnhancedVehicleDropdown.tsx:147-153 | the first seed entry shows B16 |
| EnhancedVehicleDropdown.SeedUnitCellTwo | src/components/EnhancedVehicleDropdown.tsx:147-153 | the second seed entry shows H17 |
| EnhancedVehicleDropdown.SeedUnitCellThree | src/components/EnhancedVehicleDropdown.tsx:147-153 | the third seed entry shows B16 |
| EnhancedVehicleDropdown.SeedUnitCellFour | src/components/EnhancedVehicleDropdown.tsx:147-153 | the fourth seed entry shows BX19 |
| EnhancedVehicleDropdown.SeedUnitCellAt | src/components/EnhancedVehicleDropdown.tsx:147-153 | an entry whose vehicle is first found at position k of the seed fleet shows that vehicle's unit |
| EnhancedVehicleDropdown.NoteCell | src/components/EnhancedVehicleDropdown.tsx:156 | "Sample text" exactly when the entry has a note, "-" exactly when it has none |
| EnhancedVehicleDropdown.NoteCellIgnoresText | src/components/EnhancedVehicleDropdown.tsx:156 | the cell depends only on whether a note exists, not on what it says |
| EnhancedVehicleDropdown.StatusDot | src/components/EnhancedVehicleDropdown.tsx:130 | a key outside the table gets the grey default; a key in the table gets its own colour, which is not grey |
| EnhancedVehicleDropdown.EveryVehicleDotIsGray | src/components/EnhancedVehicleDropdown.tsx:13-19 | no vehicle status is a key of the colour table, so every vehicle's dot is grey |
| EnhancedVehicleDropdown.DropdownState.constructor | src/components/EnhancedVehicleDropdown.tsx:22-24 | starts closed, on the vehicles tab, sorted by "reciente" |
| EnhancedVehicleDropdown.DropdownState.ToggleMenu | src/components/EnhancedVehicleDropdown.tsx:69 | the menu button flips whether the menu is open |
| EnhancedVehicleDropdown.DropdownState.SetActiveView | src/components/EnhancedVehicleDropdown.tsx:80-90 | the tab becomes the chosen one |
| EnhancedVehicleDropdown.DropdownState.SetSortBy | src/components/EnhancedVehicleDropdown.tsx:105 | the sort key becomes the chosen one |
| EnhancedVehicleDropdown.DropdownState.HandleVehicleClick | src/components/EnhancedVehicleDropdown.tsx:54-57 | the page's click handler runs once on the vehicle, its open-popup list toggled and still valid, and the menu closes |
| EnhancedVehicleDropdown.DropdownState.SortedVehicles | src/components/EnhancedVehicleDropdown.tsx:26-37 | returns the vehicles sorted by the current key's comparator |
| EnhancedVehicleDropdown.DropdownState.SortedCommunications | src/components/EnhancedVehicleDropdown.tsx:39-52 | returns the log sorted by the current key's comparator |
| MapView.AllPoisAppend | src/components/MapView.tsx:32-35 | the markers of a joined filter list are those of its parts, in order |
| MapView.AllPoisLength | src/components/MapView.tsx:32-35 | one marker per catalogue entry of each active filter |
| MapView.KnownFiltersLength | src/components/MapView.tsx:12-35 | every category holds two entries, so known filters give two markers each |
| MapView.AllPoisMembers | src/components/MapView.tsx:32-35 | each marker is a catalogue entry of an active filter, tagged with that filter; every entry of every active filter is drawn |
| MapView.UnknownFilterIgnored | src/components/MapView.tsx:33 | a filter id that is not a category adds no markers, wherever it stands |
| MapView.HeaderFiltersAreCategories | src/components/Header.tsx:17-22 | the header's filter ids are exactly the catalogue's categories |
| MapView.ToggleOnAddsCategory | src/components/MapView.tsx:32-35 | switching on a header filter appends its category's tagged entries, two markers |
| VehiclePopup.StatusLabelsTotal | src/components/VehiclePopup.tsx:34-40 | the label table has an entry for every status and no other |
| VehiclePopup.PopupStatusLabel | src/components/VehiclePopup.tsx:91 | the card's label is the one the side panel's chain gives |
| VehiclePopup.AnchoredTop | src/components/VehiclePopup.tsx:46 | the top is at least 10 and at least y - 200; it is y - 200 exactly when y >= 210, and 10 otherwise |
| VehiclePopup.PlacementOf | src/components/VehiclePopup.tsx:42-56 | a card with a position is anchored at its x with the clamped top; one without is centred |
| VehiclePopup.PanelOf | src/components/VehiclePopup.tsx:121-124 | hidden exactly when closed; the placeholder exactly when open on an empty log; otherwise the entries, in order |
| VehiclePopup.PanelToggleChanges | src/components/VehiclePopup.tsx:105 | each click on the button changes what the panel shows, hidden to shown or back |
| VehiclePopup.PopupState.constructor | src/components/VehiclePopup.tsx:15-16 | the panel starts closed with no note expanded |
| VehiclePopup.PopupState.ToggleCommunications | src/components/VehiclePopup.tsx:105 | the button flips whether the panel is open |
| VehiclePopup.PopupState.ToggleNote | src/components/VehiclePopup.tsx:18-24 | the expanded list becomes the toggled list, still duplicate-free |

## Left out

- Rendering, layout and CSS classes are left out. This includes the side panel's and the popup's own colour tables, the icons, the counters such as "Registro de Comunicaciones (n)", and `formatDate`.
- Marker projection onto the map (VehicleMarker.tsx, FilterMarker.tsx) and the hydrant card (HydrantPopup.tsx) are not part of this model. They are floating-point screen arithmetic and markup.
- The header is modelled only through its filter ids. Its search input and buttons are the `TrackerState` setters. VehicleDropdown.tsx is not part of this model.
- `new Date(s).getTime()` is a parameter `parse` that returns no value for NaN. How an engine parses the seed's "16:47:22" and "01-31-2025 16:47:22" is implementation-defined. The time lemmas therefore cover the two uniform cases: every date parses, or none does.
- A time comparator under a mix of parsable and unparsable dates is not a total preorder. For that mix only the permutation is proved: the engine's order is implementation-defined.
- Sorting.SortBy stands for the engine's sort as one fixed stable algorithm. It is claimed sorted and stable only under a comparator that is a total preorder on the list.
- Text.Compare: `localeCompare` is modelled as character-code order, not a locale collation. Accents and case are compared by code, so the order differs from the locale's wherever accents or case are involved.
- Text.ToLower maps only ASCII letters. Non-ASCII letters are left as they are.
- In `handleVehicleClick` the index is computed from the rendered list but applied to the updater's `prev`. The model applies both to the same list, as they are whenever React has no state update queued.
- MapView.tsx does not render the selected vehicles' popups: it does not take `selectedVehicles`, `onClosePopup` or `communications`. The popup's placement is modelled over an optional position, not wired to a caller.
- The side panel's `isOpen`, `view` and `onClose` are props owned by an outside caller, not state, and are left out.
- Lookups by string key such as `poisData[filter]` model only own keys. Inherited object keys like "constructor" are not modelled.
- VehiclePopup.AnchoredTop works on reals. `Math.max` with NaN and the pixel string formatting are not modelled.
