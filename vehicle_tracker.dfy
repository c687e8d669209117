/** The page component that owns the dashboard's state: the vehicle and
    communication records, the seed data, the search filter, and the handlers
    that open and close vehicle popups and toggle point-of-interest filters. */
module VehicleTracker {
  import opened Wrappers
  import opened Text
  import opened Lists

  /** The five vehicle states. */
  datatype Status = Active | Busy | Standby | Offline | Emergency
  {
    /** The string the record holds. */
    function Name(): string
    {
      match this
      case Active => "active"
      case Busy => "busy"
      case Standby => "standby"
      case Offline => "offline"
      case Emergency => "emergency"
    }
  }

  datatype Position = Position(lat: real, lng: real)

  datatype Vehicle = Vehicle(
    id: string,
    name: string,
    vehicleType: string,
    status: Status,
    position: Position,
    lastUpdate: string,
    unit: string)

  /** A log entry; `note` is an optional field. */
  datatype Communication = Communication(
    id: string,
    vehicleId: string,
    vehicleName: string,
    timestamp: string,
    code: string,
    note: Option<string>)

  /** `comm.note` is truthy: present and not the empty string. */
  predicate HasNote(c: Communication)
  {
    c.note.Some? && c.note.value != ""
  }

  /** The seed vehicles. */
  const SuperTango: Vehicle :=
    Vehicle("1", "Super Tango 2", "Ambulancia", Active, Position(-33.4489, -70.6693), "16:47:22", "B16")
  const RescueUnit: Vehicle :=
    Vehicle("2", "Rescue Unit 1", "Bomberos", Busy, Position(-33.4372, -70.6506), "16:45:10", "H17")
  const PatrolAlpha: Vehicle :=
    Vehicle("3", "Patrol Alpha", "Carabineros", Standby, Position(-33.4569, -70.6483), "16:50:15", "BX19")
  const EmergencyResponse: Vehicle :=
    Vehicle("4", "Emergency Response 3", "Ambulancia", Emergency, Position(-33.4424, -70.6394), "16:52:30", "B21")

  const MockVehicles: seq<Vehicle> := [SuperTango, RescueUnit, PatrolAlpha, EmergencyResponse]

  /** The seed log: two entries for vehicle 1, one each for 2 and 3. */
  const Comm1: Communication :=
    Communication("1", "1", "Super Tango 2", "01-31-2025 16:47:22", "En el Lugar",
                  Some("Paciente estabilizado, trasladando a hospital más cercano"))
  const Comm2: Communication :=
    Communication("2", "2", "Rescue Unit 1", "01-31-2025 16:45:10", "En Ruta", None)
  const Comm3: Communication :=
    Communication("3", "1", "Super Tango 2", "01-31-2025 16:44:33", "Recibido", None)
  const Comm4: Communication :=
    Communication("4", "3", "Patrol Alpha", "01-31-2025 16:42:18", "Disponible",
                  Some("Esperando órdenes en el cuartel"))

  const MockCommunications: seq<Communication> := [Comm1, Comm2, Comm3, Comm4]

  /** No two vehicles of the list share an id. */
  ghost predicate DistinctIds(vs: seq<Vehicle>)
  {
    forall i, j | 0 <= i < j < |vs| :: vs[i].id != vs[j].id
  }

  /** `vs.findIndex(v => v.id === id)`: the first position holding id, or -1. */
  function FindIndex(vs: seq<Vehicle>, id: string): (r: int)
    ensures -1 <= r < |vs|
    ensures r == -1 <==> forall i | 0 <= i < |vs| :: vs[i].id != id
    ensures r >= 0 ==> vs[r].id == id && forall i | 0 <= i < r :: vs[i].id != id
  {
    if vs == [] then -1
    else if vs[0].id == id then 0
    else
      var k := FindIndex(vs[1..], id);
      if k < 0 then -1 else k + 1
  }

  /** `vs.find(v => v.id === id)`: the first vehicle with that id, if any. */
  function FindVehicle(vs: seq<Vehicle>, id: string): (r: Option<Vehicle>)
    ensures r.None? <==> forall v | v in vs :: v.id != id
    ensures r.Some? ==> r.value in vs && r.value.id == id
    ensures r.Some? ==> exists k | 0 <= k < |vs| :: vs[k] == r.value && forall i | 0 <= i < k :: vs[i].id != id
  {
    var k := FindIndex(vs, id);
    if k < 0 then None else Some(vs[k])
  }

  /** The search matches the lower-cased name or unit against the
      lower-cased query. */
  predicate Matches(v: Vehicle, query: string)
  {
    Contains(ToLower(v.name), ToLower(query)) || Contains(ToLower(v.unit), ToLower(query))
  }

  /** The filter callback for a query. */
  function MatchesQuery(query: string): Vehicle -> bool
  {
    v => Matches(v, query)
  }

  /** `filteredVehicles`: the vehicles the query matches, in list order. */
  function Search(vs: seq<Vehicle>, query: string): seq<Vehicle>
  {
    Filter(vs, MatchesQuery(query))
  }

  /** The search keeps exactly the matching vehicles, each as often as it
      occurs, in their original relative order. */
  lemma SearchKeepsExactlyMatches(vs: seq<Vehicle>, query: string)
    ensures forall v | v in Search(vs, query) :: v in vs && Matches(v, query)
    ensures forall v | v in vs && Matches(v, query) :: v in Search(vs, query)
    ensures forall v :: multiset(Search(vs, query))[v] == if Matches(v, query) then multiset(vs)[v] else 0
    ensures IsSubsequence(Search(vs, query), vs)
  {
    forall v ensures multiset(Search(vs, query))[v] == if Matches(v, query) then multiset(vs)[v] else 0 {
      FilterCount(vs, MatchesQuery(query), v);
    }
    FilterIsSubsequence(vs, MatchesQuery(query));
  }

  /** The empty query matches everything: the list comes back unchanged. */
  lemma SearchEmptyQuery(vs: seq<Vehicle>)
    ensures Search(vs, "") == vs
  {
    forall v | v in vs ensures MatchesQuery("")(v) {
      ContainsEmpty(ToLower(v.name));
    }
    FilterKeepsAll(vs, MatchesQuery(""));
  }

  /** No 'b' or 'B' in the text is followed by '1'. */
  predicate LacksB1(text: string)
  {
    forall i | 0 <= i < |text| - 1 :: !((text[i] == 'b' || text[i] == 'B') && text[i + 1] == '1')
  }

  /** Such a text, lower-cased, does not contain "b1". */
  lemma LacksB1Misses(text: string)
    requires LacksB1(text)
    ensures !Contains(ToLower(text), "b1")
  {
    var lower := ToLower(text);
    forall i | 0 <= i <= |lower| - 2 ensures !OccursAt(lower, "b1", i) {
      assert lower[i..i + 2] == [lower[i], lower[i + 1]];
    }
    ContainsIsSubstring(lower, "b1");
  }

  /** A vehicle whose name and unit both lack "b1" is not found by it. */
  lemma VehicleMissesB1(v: Vehicle)
    requires LacksB1(v.name) && LacksB1(v.unit)
    ensures !Matches(v, "b1")
  {
    LowerB1();
    LacksB1Misses(v.name);
    LacksB1Misses(v.unit);
  }

  /** Super Tango 2 is found by "b1" through its unit B16. */
  lemma SuperTangoMatchesB1()
    ensures Matches(SuperTango, "b1")
  {
    assert ToLower(SuperTango.unit) == "b16";
  }

  /** The other three seed vehicles are not found by "b1". */
  lemma RescueUnitMissesB1()
    ensures !Matches(RescueUnit, "b1")
  {
    VehicleMissesB1(RescueUnit);
  }

  lemma PatrolAlphaMissesB1()
    ensures !Matches(PatrolAlpha, "b1")
  {
    VehicleMissesB1(PatrolAlpha);
  }

  lemma EmergencyResponseMissesB1()
    ensures !Matches(EmergencyResponse, "b1")
  {
    VehicleMissesB1(EmergencyResponse);
  }

  lemma LowerB1()
    ensures ToLower("b1") == "b1" && ToLower("B1") == "b1"
  {
  }

  /** Two queries with the same lower-case form find the same vehicles. */
  lemma SearchIgnoresCase(vs: seq<Vehicle>, q1: string, q2: string)
    requires ToLower(q1) == ToLower(q2)
    ensures Search(vs, q1) == Search(vs, q2)
  {
    FilterSamePredicate(vs, MatchesQuery(q1), MatchesQuery(q2));
  }

  /** On the seed data, "b1" and "B1" find only the unit B16. */
  lemma SearchSeedB1()
    ensures Search(MockVehicles, "b1") == [SuperTango]
    ensures Search(MockVehicles, "B1") == [SuperTango]
  {
    SuperTangoMatchesB1();
    RescueUnitMissesB1();
    PatrolAlphaMissesB1();
    EmergencyResponseMissesB1();
    LowerB1();
    var p := MatchesQuery("b1");
    var vs := MockVehicles;
    assert Filter(vs[3..], p) == [] by { assert vs[3..][1..] == []; }
    assert Filter(vs[2..], p) == [] by { assert vs[2..][1..] == vs[3..]; }
    assert Filter(vs[1..], p) == [] by { assert vs[1..][1..] == vs[2..]; }
    SearchIgnoresCase(vs, "B1", "b1");
  }

  /** `handleVehicleClick`: close the popup of the first selected vehicle with
      this id, or open one for the vehicle at the end. */
  function ToggleVehicle(selected: seq<Vehicle>, v: Vehicle): seq<Vehicle>
  {
    var existing := FindIndex(selected, v.id);
    if existing >= 0 then RemoveAt(selected, existing) else selected + [v]
  }

  /** A vehicle whose id is not selected is appended; one whose id is selected
      is removed at its first occurrence, the rest keeping their order. */
  lemma ToggleVehicleEffect(selected: seq<Vehicle>, v: Vehicle)
    ensures (forall i | 0 <= i < |selected| :: selected[i].id != v.id) ==>
              ToggleVehicle(selected, v) == selected + [v]
    ensures forall k | 0 <= k < |selected| && selected[k].id == v.id && (forall i | 0 <= i < k :: selected[i].id != v.id) ::
              ToggleVehicle(selected, v) == selected[..k] + selected[k + 1..]
  {
  }

  /** Clicks keep the ids of the open popups distinct. */
  lemma ToggleVehicleDistinct(selected: seq<Vehicle>, v: Vehicle)
    requires DistinctIds(selected)
    ensures DistinctIds(ToggleVehicle(selected, v))
  {
    var k := FindIndex(selected, v.id);
    if k >= 0 {
      RemoveAtDistinct(selected, k);
    }
  }

  /** Removing one position keeps ids distinct. */
  lemma RemoveAtDistinct(vs: seq<Vehicle>, index: int)
    requires DistinctIds(vs)
    ensures DistinctIds(RemoveAt(vs, index))
  {
    if 0 <= index < |vs| {
      var r := RemoveAt(vs, index);
      forall i, j | 0 <= i < j < |r| ensures r[i].id != r[j].id {
        var i' := if i < index then i else i + 1;
        var j' := if j < index then j else j + 1;
        assert r[i] == vs[i'] && r[j] == vs[j'];
      }
    }
  }

  /** Clicking a vehicle that is not open twice gives back the original list. */
  lemma ToggleVehicleTwice(selected: seq<Vehicle>, v: Vehicle)
    requires forall i | 0 <= i < |selected| :: selected[i].id != v.id
    ensures ToggleVehicle(ToggleVehicle(selected, v), v) == selected
  {
    var once := selected + [v];
    assert once[|selected|].id == v.id;
    assert forall i | 0 <= i < |selected| :: once[i] == selected[i];
    assert FindIndex(once, v.id) == |selected|;
    assert once[..|selected|] == selected;
  }

  /** Clicking vehicle 2 twice closes its popup; clicking 2 then 3 opens both
      in click order. */
  lemma ClickScenario()
    ensures ToggleVehicle(ToggleVehicle([], RescueUnit), RescueUnit) == []
    ensures ToggleVehicle(ToggleVehicle([], RescueUnit), PatrolAlpha) == [RescueUnit, PatrolAlpha]
  {
    assert ToggleVehicle([], RescueUnit) == [RescueUnit];
    assert FindIndex([RescueUnit], PatrolAlpha.id) == -1;
  }

  /** The state `VehicleTracker` keeps with `useState`. */
  class TrackerState {
    var selectedVehicles: seq<Vehicle>
    var activeFilters: seq<string>
    var searchQuery: string

    /** At most one popup per vehicle id, each filter active at most once. */
    ghost predicate Valid()
      reads this
    {
      DistinctIds(selectedVehicles) && NoDuplicates(activeFilters)
    }

    constructor ()
      ensures Valid()
      ensures selectedVehicles == [] && activeFilters == [] && searchQuery == ""
    {
      selectedVehicles := [];
      activeFilters := [];
      searchQuery := "";
    }

    /** The vehicles shown on the map. */
    function FilteredVehicles(): seq<Vehicle>
      reads this
    {
      Search(MockVehicles, searchQuery)
    }

    /** `handleVehicleClick`. */
    method HandleVehicleClick(v: Vehicle)
      requires Valid()
      modifies this`selectedVehicles
      ensures Valid()
      ensures selectedVehicles == ToggleVehicle(old(selectedVehicles), v)
    {
      ToggleVehicleDistinct(selectedVehicles, v);
      selectedVehicles := ToggleVehicle(selectedVehicles, v);
    }

    /** `handleFilterToggle`. */
    method HandleFilterToggle(filter: string)
      requires Valid()
      modifies this`activeFilters
      ensures Valid()
      ensures activeFilters == Toggle(old(activeFilters), filter)
    {
      ToggleNoDuplicates(activeFilters, filter);
      activeFilters := Toggle(activeFilters, filter);
    }

    /** `onClosePopup(index)`. */
    method ClosePopup(index: int)
      requires Valid()
      modifies this`selectedVehicles
      ensures Valid()
      ensures selectedVehicles == RemoveAt(old(selectedVehicles), index)
    {
      RemoveAtDistinct(selectedVehicles, index);
      selectedVehicles := RemoveAt(selectedVehicles, index);
    }

    /** `onSearchChange`. */
    method SetSearchQuery(query: string)
      requires Valid()
      modifies this`searchQuery
      ensures Valid()
      ensures searchQuery == query
      ensures FilteredVehicles() == Search(MockVehicles, query)
    {
      searchQuery := query;
    }
  }
}
