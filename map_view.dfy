/** The map: the catalogue of points of interest by category, and the list of
    markers drawn for the active filters, each tagged with the filter that
    produced it. */
module MapView {
  import opened Lists
  import opened VehicleTracker

  /** A catalogue entry. */
  datatype Poi = Poi(id: string, name: string, position: Position)

  /** A drawn marker: the entry with its category as `type`. */
  datatype TaggedPoi = TaggedPoi(id: string, name: string, position: Position, poiType: string)

  const Monuments: seq<Poi> := [
    Poi("m1", "Plaza de Armas", Position(-33.4378, -70.6504)),
    Poi("m2", "Cerro San Cristóbal", Position(-33.4233, -70.6344))]
  const Hospitals: seq<Poi> := [
    Poi("h1", "Hospital Salvador", Position(-33.4441, -70.6344)),
    Poi("h2", "Clínica Las Condes", Position(-33.4059, -70.5689))]
  const Police: seq<Poi> := [
    Poi("p1", "1ª Comisaría", Position(-33.4392, -70.6494)),
    Poi("p2", "Prefectura Central", Position(-33.4489, -70.6589))]
  const Gas: seq<Poi> := [
    Poi("g1", "Copec Plaza Baquedano", Position(-33.4372, -70.6344)),
    Poi("g2", "Shell Las Condes", Position(-33.4159, -70.5889))]

  /** `poisData`: the four categories. */
  const PoisData: map<string, seq<Poi>> :=
    map["monuments" := Monuments, "hospitals" := Hospitals, "police" := Police, "gas" := Gas]

  /** The ids of the header's filter buttons. */
  const HeaderFilterIds: seq<string> := ["monuments", "hospitals", "police", "gas"]

  /** `poisData[filter] || []`: a category's entries, none for an unknown
      filter. */
  function CategoryPois(filter: string): seq<Poi>
  {
    if filter in PoisData then PoisData[filter] else []
  }

  /** `{ ...poi, type: filter }`. */
  function Tag(p: Poi, filter: string): TaggedPoi
  {
    TaggedPoi(p.id, p.name, p.position, filter)
  }

  /** The catalogue entry a marker was made from. */
  function Untag(t: TaggedPoi): Poi
  {
    Poi(t.id, t.name, t.position)
  }

  /** `pois.map(poi => ({ ...poi, type: filter }))`. */
  function TagAll(pois: seq<Poi>, filter: string): seq<TaggedPoi>
  {
    seq(|pois|, i requires 0 <= i < |pois| => Tag(pois[i], filter))
  }

  /** `allPois`: the tagged entries of each active filter, filter by filter. */
  function AllPois(filters: seq<string>): seq<TaggedPoi>
  {
    if filters == [] then []
    else TagAll(CategoryPois(filters[0]), filters[0]) + AllPois(filters[1..])
  }

  /** The total size of the categories of a filter list. */
  function CategorySizes(filters: seq<string>): nat
  {
    if filters == [] then 0 else |CategoryPois(filters[0])| + CategorySizes(filters[1..])
  }

  /** The markers of a joined filter list are those of its parts, in order. */
  lemma {:induction false} AllPoisAppend(a: seq<string>, b: seq<string>)
    ensures AllPois(a + b) == AllPois(a) + AllPois(b)
  {
    if a == [] {
      assert a + b == b;
    } else {
      assert (a + b)[0] == a[0];
      assert (a + b)[1..] == a[1..] + b;
      AllPoisAppend(a[1..], b);
    }
  }

  /** There is one marker per entry of each selected category. */
  lemma {:induction false} AllPoisLength(filters: seq<string>)
    ensures |AllPois(filters)| == CategorySizes(filters)
  {
    if filters != [] {
      AllPoisLength(filters[1..]);
    }
  }

  /** Every category of the catalogue holds two entries, so filters that are
      all known give two markers each. */
  lemma {:induction false} KnownFiltersLength(filters: seq<string>)
    requires forall f | f in filters :: f in PoisData
    ensures |AllPois(filters)| == 2 * |filters|
  {
    AllPoisLength(filters);
    if filters != [] {
      KnownFiltersLength(filters[1..]);
      AllPoisLength(filters[1..]);
    }
  }

  /** Each marker is a catalogue entry of an active filter, tagged with that
      filter; and every entry of every active filter is drawn. */
  lemma {:induction false} AllPoisMembers(filters: seq<string>)
    ensures forall t | t in AllPois(filters) :: t.poiType in filters && Untag(t) in CategoryPois(t.poiType)
    ensures forall f, p | f in filters && p in CategoryPois(f) :: Tag(p, f) in AllPois(filters)
  {
    if filters != [] {
      AllPoisMembers(filters[1..]);
      var f := filters[0];
      var head := TagAll(CategoryPois(f), f);
      forall t | t in head ensures t.poiType == f && Untag(t) in CategoryPois(f) {
        var i :| 0 <= i < |head| && head[i] == t;
        assert Untag(t) == CategoryPois(f)[i];
      }
      forall p | p in CategoryPois(f) ensures Tag(p, f) in head {
        var i :| 0 <= i < |CategoryPois(f)| && CategoryPois(f)[i] == p;
        assert head[i] == Tag(p, f);
      }
    }
  }

  /** A filter id that is not a category adds no markers, wherever it stands. */
  lemma UnknownFilterIgnored(a: seq<string>, f: string, b: seq<string>)
    requires f !in PoisData
    ensures AllPois(a + [f] + b) == AllPois(a + b)
  {
    AllPoisAppend(a + [f], b);
    AllPoisAppend(a, [f]);
    AllPoisAppend(a, b);
  }

  /** The header's filter ids are exactly the catalogue's categories. */
  lemma HeaderFiltersAreCategories()
    ensures (set f | f in HeaderFilterIds) == PoisData.Keys
  {
  }

  /** Turning on a header filter that was off appends its category's markers,
      two of them. */
  lemma ToggleOnAddsCategory(filters: seq<string>, f: string)
    requires f in HeaderFilterIds && f !in filters
    ensures AllPois(Toggle(filters, f)) == AllPois(filters) + TagAll(PoisData[f], f)
    ensures |AllPois(Toggle(filters, f))| == |AllPois(filters)| + 2
  {
    AllPoisAppend(filters, [f]);
    assert AllPois([f]) == TagAll(CategoryPois(f), f) + AllPois([]);
  }
}
