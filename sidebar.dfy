/** The side panel: the vehicle list and the communications log, each sorted
    by the key chosen in "Ordenar por", the status label of each vehicle, and
    the notes the user has expanded. */
module Sidebar {
  import opened Wrappers
  import opened Text
  import opened Lists
  import opened Sorting
  import opened VehicleTracker

  /** The label chain of the vehicle cards: four named statuses, and
      "Emergencia" for whatever else the field holds. */
  function StatusLabel(status: string): string
  {
    if status == "active" then "Activo"
    else if status == "busy" then "Ocupado"
    else if status == "standby" then "En Espera"
    else if status == "offline" then "Desconectado"
    else "Emergencia"
  }

  /** The chain gives each of the five statuses its own Spanish label. */
  lemma StatusLabelOfStatus(st: Status)
    ensures StatusLabel(st.Name()) ==
      match st
      case Active => "Activo"
      case Busy => "Ocupado"
      case Standby => "En Espera"
      case Offline => "Desconectado"
      case Emergency => "Emergencia"
  {
  }

  /** Different statuses get different labels. */
  lemma StatusLabelInjective(a: Status, b: Status)
    ensures StatusLabel(a.Name()) == StatusLabel(b.Name()) <==> a == b
  {
  }

  /** Any string outside the four named statuses is labelled "Emergencia". */
  lemma StatusLabelDefault(status: string)
    requires status !in {"active", "busy", "standby", "offline"}
    ensures StatusLabel(status) == "Emergencia"
  {
  }

  /** The sort keys of a vehicle and of a communication. */
  function VehicleName(v: Vehicle): string { v.name }
  function VehicleStatus(v: Vehicle): string { v.status.Name() }
  function VehicleLastUpdate(v: Vehicle): string { v.lastUpdate }
  function CommunicationVehicleName(c: Communication): string { c.vehicleName }

  /** The parsed timestamp of a communication, `parse` standing for
      `new Date(...).getTime()` (None for NaN). */
  function CommunicationTime(parse: string -> Option<int>): Communication -> Option<int>
  {
    (c: Communication) => parse(c.timestamp)
  }

  /** The comparator of `sortedVehicles`: name or status ascending, and by
      default the `lastUpdate` string descending. */
  function VehicleOrder(key: SortKey): (Vehicle, Vehicle) -> int
  {
    match key
    case Alphabetical => ByText(VehicleName)
    case ByStatus => ByText(VehicleStatus)
    case Recent => ByTextDesc(VehicleLastUpdate)
  }

  /** The comparator of `sortedCommunications`: the denormalised vehicle
      name ascending, and for every other key the timestamp, newest first. */
  function CommunicationOrder(key: SortKey, parse: string -> Option<int>): (Communication, Communication) -> int
  {
    match key
    case Alphabetical => ByText(CommunicationVehicleName)
    case _ => ByTimeDesc(CommunicationTime(parse))
  }

  /** What each key does to a vehicle list: the result is a permutation,
      ordered by the key, and vehicles with equal keys keep their order. */
  lemma SortedVehiclesOrder(vs: seq<Vehicle>, key: SortKey)
    ensures multiset(SortBy(vs, VehicleOrder(key))) == multiset(vs)
    ensures key == Alphabetical ==>
      && (forall i, j | 0 <= i < j < |SortBy(vs, VehicleOrder(key))| ::
            Compare(SortBy(vs, VehicleOrder(key))[i].name, SortBy(vs, VehicleOrder(key))[j].name) <= 0)
      && (forall n :: Filter(SortBy(vs, VehicleOrder(key)), HasKey(VehicleName, n)) == Filter(vs, HasKey(VehicleName, n)))
    ensures key == ByStatus ==>
      && (forall i, j | 0 <= i < j < |SortBy(vs, VehicleOrder(key))| ::
            Compare(SortBy(vs, VehicleOrder(key))[i].status.Name(), SortBy(vs, VehicleOrder(key))[j].status.Name()) <= 0)
      && (forall n :: Filter(SortBy(vs, VehicleOrder(key)), HasKey(VehicleStatus, n)) == Filter(vs, HasKey(VehicleStatus, n)))
    ensures key == Recent ==>
      && (forall i, j | 0 <= i < j < |SortBy(vs, VehicleOrder(key))| ::
            Compare(SortBy(vs, VehicleOrder(key))[j].lastUpdate, SortBy(vs, VehicleOrder(key))[i].lastUpdate) <= 0)
      && (forall n :: Filter(SortBy(vs, VehicleOrder(key)), HasKey(VehicleLastUpdate, n)) == Filter(vs, HasKey(VehicleLastUpdate, n)))
  {
    match key
    case Alphabetical => ByTextSort(vs, VehicleName);
    case ByStatus => ByTextSort(vs, VehicleStatus);
    case Recent => ByTextDescSort(vs, VehicleLastUpdate);
  }

  /** "estado" has no branch of its own for communications: it sorts as
      "reciente" does. */
  lemma CommunicationStatusIsRecent(parse: string -> Option<int>)
    ensures CommunicationOrder(ByStatus, parse) == CommunicationOrder(Recent, parse)
  {
  }

  /** Sorted alphabetically, the log is a permutation ordered by the vehicle
      name the entries carry, equal names keeping their order. */
  lemma SortedCommunicationsAlphabetical(cs: seq<Communication>, parse: string -> Option<int>)
    ensures multiset(SortBy(cs, CommunicationOrder(Alphabetical, parse))) == multiset(cs)
    ensures forall i, j | 0 <= i < j < |SortBy(cs, CommunicationOrder(Alphabetical, parse))| ::
      Compare(SortBy(cs, CommunicationOrder(Alphabetical, parse))[i].vehicleName,
              SortBy(cs, CommunicationOrder(Alphabetical, parse))[j].vehicleName) <= 0
    ensures forall n ::
      Filter(SortBy(cs, CommunicationOrder(Alphabetical, parse)), HasKey(CommunicationVehicleName, n))
      == Filter(cs, HasKey(CommunicationVehicleName, n))
  {
    ByTextSort(cs, CommunicationVehicleName);
  }

  /** Four entries where the second must precede the first, the third may
      follow the first, and the fourth must precede each of the other three:
      the fourth comes first, then the second, the first and the third. */
  lemma {:induction false} SortFour<T>(a: T, b: T, c: T, d: T, cmp: (T, T) -> int)
    requires !Le(cmp, a, b) && Le(cmp, a, c)
    requires !Le(cmp, c, d) && !Le(cmp, a, d) && !Le(cmp, b, d)
    ensures SortBy([a, b, c, d], cmp) == [d, b, a, c]
  {
    var s := [a, b, c, d];
    assert s[..3][..2][..1] == [a] && s[..3][..2] == [a, b] && s[..3] == [a, b, c];
    assert SortBy([a], cmp) == [a];
    assert SortBy([a, b], cmp) == Insert([a], b, cmp) == [b, a];
    assert SortBy([a, b, c], cmp) == Insert([b, a], c, cmp) == [b, a, c];
    assert Insert([b], d, cmp) == [d, b];
    assert Insert([b, a], d, cmp) == [d, b, a];
  }

  /** On the seed log the alphabetical order is Patrol Alpha, Rescue Unit 1,
      then the two Super Tango 2 entries side by side in log order. */
  lemma SeedCommunicationsAlphabetical(parse: string -> Option<int>)
    ensures SortBy(MockCommunications, CommunicationOrder(Alphabetical, parse)) == [Comm4, Comm2, Comm1, Comm3]
  {
    var key := CommunicationVehicleName;
    var cmp := ByText(key);
    assert CommunicationOrder(Alphabetical, parse) == cmp;
    var s, r, p := Comm1.vehicleName, Comm2.vehicleName, Comm4.vehicleName;
    assert key(Comm1) == key(Comm3) == s && key(Comm2) == r && key(Comm4) == p;
    CompareZeroIffEqual(s, s);
    assert s != [] && r != [] && p != [] && s[0] == 'S' && r[0] == 'R' && p[0] == 'P';
    assert Compare(s, r) == 1 && Compare(s, p) == 1 && Compare(r, p) == 1;
    SortFour(Comm1, Comm2, Comm3, Comm4, cmp);
  }

  /** Sorted by any other key, the log is a permutation; when every timestamp
      parses it runs newest first, entries of equal time keeping their order;
      when none parses it keeps its input order. */
  lemma SortedCommunicationsByTime(cs: seq<Communication>, key: SortKey, parse: string -> Option<int>)
    requires key != Alphabetical
    ensures multiset(SortBy(cs, CommunicationOrder(key, parse))) == multiset(cs)
    ensures (forall c | c in cs :: parse(c.timestamp).Some?) ==>
      && NewestFirst(SortBy(cs, CommunicationOrder(key, parse)), CommunicationTime(parse))
      && (forall t :: Filter(SortBy(cs, CommunicationOrder(key, parse)), HasKey(CommunicationTime(parse), t))
                      == Filter(cs, HasKey(CommunicationTime(parse), t)))
    ensures (forall c | c in cs :: parse(c.timestamp).None?) ==> SortBy(cs, CommunicationOrder(key, parse)) == cs
  {
    var time := CommunicationTime(parse);
    assert CommunicationOrder(key, parse) == ByTimeDesc(time);
    SortByPermutes(cs, ByTimeDesc(time));
    if forall c | c in cs :: parse(c.timestamp).Some? {
      ByTimeSort(cs, time);
    }
    if forall c | c in cs :: parse(c.timestamp).None? {
      ByTimeUnparsedKeepsOrder(time, cs);
    }
  }

  /** A note is shown when the entry has one and its id is expanded. */
  predicate NoteShown(c: Communication, expanded: seq<string>)
  {
    HasNote(c) && c.id in expanded
  }

  /** Toggling an id flips whether the note of an entry with that id is
      shown, and leaves every other entry as it was. */
  lemma ToggleNoteShows(c: Communication, expanded: seq<string>, id: string)
    ensures NoteShown(c, Toggle(expanded, id)) ==
      if c.id == id then HasNote(c) && !NoteShown(c, expanded) else NoteShown(c, expanded)
  {
  }

  /** The panel's own state: the chosen sort key and the expanded notes. */
  class SidebarState {
    var sortBy: SortKey
    var expandedNotes: seq<string>

    /** The expanded ids stay duplicate-free. */
    ghost predicate Valid()
      reads this
    {
      NoDuplicates(expandedNotes)
    }

    /** The panel opens sorted by "reciente" with every note collapsed. */
    constructor ()
      ensures Valid()
      ensures sortBy == Recent && expandedNotes == []
    {
      sortBy := Recent;
      expandedNotes := [];
    }

    /** The "Ordenar por" selector. */
    method SetSortBy(key: SortKey)
      modifies this`sortBy
      ensures sortBy == key
    {
      sortBy := key;
    }

    /** `toggleNote`: expand the note of commId, or collapse it. */
    method ToggleNote(commId: string)
      requires Valid()
      modifies this`expandedNotes
      ensures Valid()
      ensures expandedNotes == Toggle(old(expandedNotes), commId)
    {
      ToggleNoDuplicates(expandedNotes, commId);
      expandedNotes := Toggle(expandedNotes, commId);
    }

    /** `sortedVehicles`: a sorted copy of the vehicles. */
    method SortedVehicles(vs: seq<Vehicle>) returns (r: seq<Vehicle>)
      ensures r == SortBy(vs, VehicleOrder(sortBy))
    {
      r := SortedCopy(vs, VehicleOrder(sortBy));
    }

    /** `sortedCommunications`: a sorted copy of the log. */
    method SortedCommunications(cs: seq<Communication>, parse: string -> Option<int>) returns (r: seq<Communication>)
      ensures r == SortBy(cs, CommunicationOrder(sortBy, parse))
    {
      r := SortedCopy(cs, CommunicationOrder(sortBy, parse));
    }
  }
}
