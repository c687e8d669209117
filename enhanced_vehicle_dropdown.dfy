/** The header's menu: a panel that lists the vehicles as status dots with
    their units, or the communications log as date, unit, code and note
    columns, each sorted by the chosen key. Picking a vehicle forwards it to
    the page and closes the menu. */
module EnhancedVehicleDropdown {
  import opened Wrappers
  import opened Text
  import opened Lists
  import opened Sorting
  import opened VehicleTracker
  import Sidebar

  /** The two tabs of the menu. */
  datatype View = VehiclesView | CommunicationsView

  /** `vehicles.find(v => v.id === id)?.name || ""`: the name of the first
      vehicle with that id, or the empty string when there is none. */
  function ResolvedName(vehicles: seq<Vehicle>, id: string): (name: string)
    ensures (forall v | v in vehicles :: v.id != id) ==> name == ""
    ensures name != "" ==> exists v | v in vehicles :: v.id == id && v.name == name
    ensures forall k | 0 <= k < |vehicles| && vehicles[k].id == id && (forall i | 0 <= i < k :: vehicles[i].id != id) ::
      name == vehicles[k].name
  {
    match FindVehicle(vehicles, id)
    case Some(v) => v.name
    case None => ""
  }

  /** The alphabetical key of a log entry: the name its vehicle id resolves to. */
  function CommunicationName(vehicles: seq<Vehicle>): Communication -> string
  {
    (c: Communication) => ResolvedName(vehicles, c.vehicleId)
  }

  /** The parsed `lastUpdate` of a vehicle. */
  function VehicleTime(parse: string -> Option<int>): Vehicle -> Option<int>
  {
    (v: Vehicle) => parse(v.lastUpdate)
  }

  /** The comparator of `getSortedVehicles`: name or status ascending, and by
      default the parsed `lastUpdate`, newest first. */
  function VehicleOrder(key: SortKey, parse: string -> Option<int>): (Vehicle, Vehicle) -> int
  {
    match key
    case Alphabetical => ByText(Sidebar.VehicleName)
    case ByStatus => ByText(Sidebar.VehicleStatus)
    case Recent => ByTimeDesc(VehicleTime(parse))
  }

  /** The comparator of `getSortedCommunications`: the resolved vehicle name
      ascending, and for every other key the timestamp, newest first. */
  function CommunicationOrder(key: SortKey, vehicles: seq<Vehicle>, parse: string -> Option<int>)
    : (Communication, Communication) -> int
  {
    match key
    case Alphabetical => ByText(CommunicationName(vehicles))
    case _ => ByTimeDesc(Sidebar.CommunicationTime(parse))
  }

  /** The vehicle list by name or status: a permutation ordered by the text
      key, vehicles with equal keys keeping their order. */
  lemma SortedVehiclesByText(vs: seq<Vehicle>, key: SortKey, parse: string -> Option<int>)
    requires key != Recent
    ensures multiset(SortBy(vs, VehicleOrder(key, parse))) == multiset(vs)
    ensures key == Alphabetical ==>
      && (forall i, j | 0 <= i < j < |SortBy(vs, VehicleOrder(key, parse))| ::
            Compare(SortBy(vs, VehicleOrder(key, parse))[i].name, SortBy(vs, VehicleOrder(key, parse))[j].name) <= 0)
      && (forall n :: Filter(SortBy(vs, VehicleOrder(key, parse)), HasKey(Sidebar.VehicleName, n))
                      == Filter(vs, HasKey(Sidebar.VehicleName, n)))
    ensures key == ByStatus ==>
      && (forall i, j | 0 <= i < j < |SortBy(vs, VehicleOrder(key, parse))| ::
            Compare(SortBy(vs, VehicleOrder(key, parse))[i].status.Name(),
                    SortBy(vs, VehicleOrder(key, parse))[j].status.Name()) <= 0)
      && (forall n :: Filter(SortBy(vs, VehicleOrder(key, parse)), HasKey(Sidebar.VehicleStatus, n))
                      == Filter(vs, HasKey(Sidebar.VehicleStatus, n)))
  {
    if key == Alphabetical {
      ByTextSort(vs, Sidebar.VehicleName);
    } else {
      ByTextSort(vs, Sidebar.VehicleStatus);
    }
  }

  /** The vehicle list by time, every `lastUpdate` parsing: a permutation
      that runs newest first, vehicles of equal time keeping their order. */
  lemma SortedVehiclesByTime(vs: seq<Vehicle>, parse: string -> Option<int>)
    requires forall v | v in vs :: parse(v.lastUpdate).Some?
    ensures multiset(SortBy(vs, VehicleOrder(Recent, parse))) == multiset(vs)
    ensures NewestFirst(SortBy(vs, VehicleOrder(Recent, parse)), VehicleTime(parse))
    ensures forall t :: Filter(SortBy(vs, VehicleOrder(Recent, parse)), HasKey(VehicleTime(parse), t))
                        == Filter(vs, HasKey(VehicleTime(parse), t))
  {
    var time := VehicleTime(parse);
    assert VehicleOrder(Recent, parse) == ByTimeDesc(time);
    SortByPermutes(vs, ByTimeDesc(time));
    forall v | v in vs ensures time(v).Some? {
      assert time(v) == parse(v.lastUpdate);
    }
    ByTimeSortedTimes(vs, time);
    ByTimeSortStable(vs, time);
  }

  /** The vehicle list by time, no `lastUpdate` parsing (as with the seed
      data's bare clock times in most engines): the list keeps its order. */
  lemma SortedVehiclesUnparsed(vs: seq<Vehicle>, parse: string -> Option<int>)
    requires forall v | v in vs :: parse(v.lastUpdate).None?
    ensures SortBy(vs, VehicleOrder(Recent, parse)) == vs
  {
    var time := VehicleTime(parse);
    assert VehicleOrder(Recent, parse) == ByTimeDesc(time);
    forall v | v in vs ensures time(v).None? {
      assert time(v) == parse(v.lastUpdate);
    }
    ByTimeUnparsedKeepsOrder(time, vs);
  }

  /** Sorted alphabetically, the log is a permutation ordered by resolved
      name, entries with equal names keeping their order; entries whose
      vehicle cannot be found resolve to "" and come before all others. */
  lemma SortedCommunicationsAlphabetical(cs: seq<Communication>, vehicles: seq<Vehicle>, parse: string -> Option<int>)
    ensures multiset(SortBy(cs, CommunicationOrder(Alphabetical, vehicles, parse))) == multiset(cs)
    ensures forall i, j | 0 <= i < j < |SortBy(cs, CommunicationOrder(Alphabetical, vehicles, parse))| ::
      Compare(ResolvedName(vehicles, SortBy(cs, CommunicationOrder(Alphabetical, vehicles, parse))[i].vehicleId),
              ResolvedName(vehicles, SortBy(cs, CommunicationOrder(Alphabetical, vehicles, parse))[j].vehicleId)) <= 0
    ensures forall n ::
      Filter(SortBy(cs, CommunicationOrder(Alphabetical, vehicles, parse)), HasKey(CommunicationName(vehicles), n))
      == Filter(cs, HasKey(CommunicationName(vehicles), n))
    ensures forall i, j | 0 <= i < j < |SortBy(cs, CommunicationOrder(Alphabetical, vehicles, parse))| ::
      ResolvedName(vehicles, SortBy(cs, CommunicationOrder(Alphabetical, vehicles, parse))[j].vehicleId) == "" ==>
      ResolvedName(vehicles, SortBy(cs, CommunicationOrder(Alphabetical, vehicles, parse))[i].vehicleId) == ""
  {
    var r := SortBy(cs, CommunicationOrder(Alphabetical, vehicles, parse));
    ByTextSort(cs, CommunicationName(vehicles));
    forall i, j | 0 <= i < j < |r| && ResolvedName(vehicles, r[j].vehicleId) == ""
      ensures ResolvedName(vehicles, r[i].vehicleId) == ""
    {
      CompareEmptyFirst(ResolvedName(vehicles, r[i].vehicleId));
    }
  }

  /** For every key but "alfabético" the log sorts exactly as the side panel
      sorts it, by timestamp. */
  lemma SortedCommunicationsByTime(key: SortKey, vehicles: seq<Vehicle>, parse: string -> Option<int>)
    requires key != Alphabetical
    ensures CommunicationOrder(key, vehicles, parse) == Sidebar.CommunicationOrder(Recent, parse)
  {
  }

  /** The seed log refers to vehicles "1", "2" and "3", the first three seed
      vehicles. */
  lemma SeedFind()
    ensures FindVehicle(MockVehicles, "1") == Some(SuperTango)
    ensures FindVehicle(MockVehicles, "2") == Some(RescueUnit)
    ensures FindVehicle(MockVehicles, "3") == Some(PatrolAlpha)
  {
    SeedFindAt("1", 0);
    SeedFindAt("2", 1);
    SeedFindAt("3", 2);
  }

  /** The seed vehicle at position k is the first with id. */
  lemma SeedFindAt(id: string, k: nat)
    requires k < |MockVehicles| && MockVehicles[k].id == id
    requires forall i | 0 <= i < k :: MockVehicles[i].id != id
    ensures FindVehicle(MockVehicles, id) == Some(MockVehicles[k])
  {
    var r := FindIndex(MockVehicles, id);
    assert r >= 0;
  }

  /** On the seed data every entry's vehicle id resolves to the vehicle name
      the entry carries, so both alphabetical orders agree there. */
  lemma SeedNamesResolve()
    ensures ResolvedName(MockVehicles, Comm1.vehicleId) == Comm1.vehicleName
    ensures ResolvedName(MockVehicles, Comm2.vehicleId) == Comm2.vehicleName
    ensures ResolvedName(MockVehicles, Comm3.vehicleId) == Comm3.vehicleName
    ensures ResolvedName(MockVehicles, Comm4.vehicleId) == Comm4.vehicleName
  {
    SeedFind();
  }

  /** `vehicle?.unit || 'N/A'`: the unit of the entry's vehicle, or "N/A" when
      no vehicle has its id or the unit is empty. */
  function UnitCell(vehicles: seq<Vehicle>, c: Communication): (cell: string)
    ensures (forall v | v in vehicles :: v.id != c.vehicleId) ==> cell == "N/A"
    ensures cell != "N/A" ==> exists v | v in vehicles :: v.id == c.vehicleId && v.unit == cell
    ensures cell != ""
    ensures forall k | 0 <= k < |vehicles| && vehicles[k].id == c.vehicleId && (forall i | 0 <= i < k :: vehicles[i].id != c.vehicleId) ::
      cell == if vehicles[k].unit != "" then vehicles[k].unit else "N/A"
  {
    match FindVehicle(vehicles, c.vehicleId)
    case Some(v) => if v.unit != "" then v.unit else "N/A"
    case None => "N/A"
  }

  /** On the seed data each entry shows its vehicle's unit. */
  lemma SeedUnitCells()
    ensures UnitCell(MockVehicles, Comm1) == "B16"
    ensures UnitCell(MockVehicles, Comm2) == "H17"
    ensures UnitCell(MockVehicles, Comm3) == "B16"
    ensures UnitCell(MockVehicles, Comm4) == "BX19"
  {
    SeedUnitCellOne();
    SeedUnitCellTwo();
    SeedUnitCellThree();
    SeedUnitCellFour();
  }

  lemma SeedUnitCellOne()
    ensures UnitCell(MockVehicles, Comm1) == "B16"
  {
    SeedUnitCellAt(Comm1, "1", 0);
  }

  lemma SeedUnitCellTwo()
    ensures UnitCell(MockVehicles, Comm2) == "H17"
  {
    SeedUnitCellAt(Comm2, "2", 1);
  }

  lemma SeedUnitCellThree()
    ensures UnitCell(MockVehicles, Comm3) == "B16"
  {
    SeedUnitCellAt(Comm3, "1", 0);
  }

  lemma SeedUnitCellFour()
    ensures UnitCell(MockVehicles, Comm4) == "BX19"
  {
    SeedUnitCellAt(Comm4, "3", 2);
  }

  /** An entry whose vehicle is the seed vehicle at position k shows that
      vehicle's unit. */
  lemma SeedUnitCellAt(c: Communication, id: string, k: nat)
    requires c.vehicleId == id
    requires k < |MockVehicles| && MockVehicles[k].id == id
    requires forall i | 0 <= i < k :: MockVehicles[i].id != id
    ensures UnitCell(MockVehicles, c) == MockVehicles[k].unit
  {
    assert MockVehicles[k].unit != "";
  }

  /** `comm.note ? "Sample text" : "-"`: the note column marks that a note
      exists and never shows it. */
  function NoteCell(c: Communication): (cell: string)
    ensures cell == "Sample text" <==> HasNote(c)
    ensures cell == "-" <==> !HasNote(c)
  {
    if HasNote(c) then "Sample text" else "-"
  }

  /** Two entries that both have a note, or both lack one, show the same
      note cell, whatever their notes say. */
  lemma NoteCellIgnoresText(c: Communication, d: Communication)
    requires HasNote(c) == HasNote(d)
    ensures NoteCell(c) == NoteCell(d)
  {
  }

  /** The status-dot colours, keyed by Spanish status names. */
  const StatusColors: map<string, string> := map[
    "activo" := "bg-green-500",
    "en_ruta" := "bg-orange-500",
    "inactivo" := "bg-red-500",
    "mantenimiento" := "bg-blue-500",
    "disponible" := "bg-yellow-500"]

  const DefaultDot: string := "bg-gray-500"

  /** `statusColors[status] || 'bg-gray-500'`. */
  function StatusDot(status: string): (color: string)
    ensures status !in StatusColors ==> color == DefaultDot
    ensures status in StatusColors ==> color == StatusColors[status] && color != DefaultDot
  {
    if status in StatusColors && StatusColors[status] != "" then StatusColors[status] else DefaultDot
  }

  /** No vehicle status is a key of the colour table, so every vehicle gets the
      grey dot. */
  lemma EveryVehicleDotIsGray(v: Vehicle)
    ensures StatusDot(v.status.Name()) == DefaultDot
  {
    assert v.status.Name() !in StatusColors;
  }

  /** The menu's own state. */
  class DropdownState {
    var isOpen: bool
    var activeView: View
    var sortBy: SortKey

    /** Closed, on the vehicles tab, sorted by "reciente". */
    constructor ()
      ensures !isOpen && activeView == VehiclesView && sortBy == Recent
    {
      isOpen := false;
      activeView := VehiclesView;
      sortBy := Recent;
    }

    /** The menu button. */
    method ToggleMenu()
      modifies this`isOpen
      ensures isOpen == !old(isOpen)
    {
      isOpen := !isOpen;
    }

    /** The two tab buttons. */
    method SetActiveView(view: View)
      modifies this`activeView
      ensures activeView == view
    {
      activeView := view;
    }

    /** The "Ordenar por" selector. */
    method SetSortBy(key: SortKey)
      modifies this`sortBy
      ensures sortBy == key
    {
      sortBy := key;
    }

    /** `handleVehicleClick`: hand the vehicle to the page's click handler
      once, then close the menu. */
    method HandleVehicleClick(tracker: TrackerState, v: Vehicle)
      requires tracker.Valid()
      modifies this`isOpen, tracker`selectedVehicles
      ensures tracker.Valid()
      ensures tracker.selectedVehicles == ToggleVehicle(old(tracker.selectedVehicles), v)
      ensures !isOpen
    {
      tracker.HandleVehicleClick(v);
      isOpen := false;
    }

    /** `getSortedVehicles()`: a sorted copy of the vehicles. */
    method SortedVehicles(vs: seq<Vehicle>, parse: string -> Option<int>) returns (r: seq<Vehicle>)
      ensures r == SortBy(vs, VehicleOrder(sortBy, parse))
    {
      r := SortedCopy(vs, VehicleOrder(sortBy, parse));
    }

    /** `getSortedCommunications()`: a sorted copy of the log. */
    method SortedCommunications(cs: seq<Communication>, vehicles: seq<Vehicle>, parse: string -> Option<int>)
      returns (r: seq<Communication>)
      ensures r == SortBy(cs, CommunicationOrder(sortBy, vehicles, parse))
    {
      r := SortedCopy(cs, CommunicationOrder(sortBy, vehicles, parse));
    }
  }
}
