/** The asteroids page: name search, orbit-type filter, perihelion/aphelion scatter. */
module Asteroids {
  import opened Wrappers
  import opened Text
  import opened Dates
  import opened Filtering
  import opened Chart
  import opened Views

  datatype Asteroid = Asteroid(
    id: int,
    name: string,
    diameter: real,
    composition: string,
    orbitType: string,
    perihelion: real,
    aphelion: real,
    discoveryDate: string)

  const Ceres := Asteroid(1, "Ceres", 939.4, "Rock-ice", "Main Belt", 2.557, 2.987, "1801-01-01")
  const Vesta := Asteroid(2, "Vesta", 525.4, "Basaltic-rock", "Main Belt", 2.151, 2.572, "1807-03-29")
  const Eros := Asteroid(3, "Eros", 16.84, "S-type", "Near-Earth", 1.133, 1.783, "1898-08-13")

  const SampleData: seq<Asteroid> := [Ceres, Vesta, Eros]

  /** The search looks at the name only; the orbit type is the categorical filter; no date range. */
  const AsteroidBinding: Binding<Asteroid> :=
    Binding([(a: Asteroid) => a.name], Some((a: Asteroid) => a.orbitType), None)

  /** The page's filter callback, field by field. */
  lemma PassesIff(c: Criteria, a: Asteroid)
    ensures Passes(AsteroidBinding, c, a) <==>
      && Includes(Lower(a.name), Lower(c.searchTerm))
      && (c.categoryFilter == AllCategories || a.orbitType == c.categoryFilter)
  {
    assert AsteroidBinding.searchFields[0](a) == a.name;
  }

  /** The scatter: one point per asteroid, in order, at (perihelion, aphelion); it ignores the view state. */
  function OrbitScatter(data: seq<Asteroid>): (points: seq<Point>)
    ensures |points| == |data|
    ensures forall i :: 0 <= i < |data| ==> points[i].x == data[i].perihelion && points[i].y == data[i].aphelion
  {
    Project(data, (a: Asteroid) => Point(a.perihelion, a.aphelion))
  }

  /** The search box holding "ves", every orbit type. */
  const VesSearch := Criteria("ves", AllCategories, Unset, Unset)

  lemma CeresFailsVes()
    ensures !Passes(AsteroidBinding, VesSearch, Ceres)
  {
    PassesIff(VesSearch, Ceres);
    assert Lower("ves") == "ves" && Lower("Ceres") == "ceres";
    NotIncludesMissingChar("ceres", "ves", 0);
  }

  lemma VestaPassesVes()
    ensures Passes(AsteroidBinding, VesSearch, Vesta)
  {
    PassesIff(VesSearch, Vesta);
    assert Lower("ves") == "ves" && Lower("Vesta") == "vesta";
    assert OccursAt("vesta", "ves", 0);
  }

  lemma ErosFailsVes()
    ensures !Passes(AsteroidBinding, VesSearch, Eros)
  {
    PassesIff(VesSearch, Eros);
    assert Lower("ves") == "ves" && Lower("Eros") == "eros";
    NotIncludesMissingChar("eros", "ves", 0);
  }

  /** Searching "ves" finds Vesta alone. */
  lemma SearchVes()
    ensures FilterRows(AsteroidBinding, VesSearch, SampleData) == [Vesta]
  {
    CeresFailsVes();
    VestaPassesVes();
    ErosFailsVes();
    FilterThree(AsteroidBinding, VesSearch, Ceres, Vesta, Eros);
  }

  /** With an empty search term only the orbit filter decides. */
  lemma EmptyTermOrbitOnly(filter: string, a: Asteroid)
    ensures Passes(AsteroidBinding, Criteria("", filter, Unset, Unset), a) <==>
      filter == AllCategories || a.orbitType == filter
  {
    PassesIff(Criteria("", filter, Unset, Unset), a);
    assert Lower("") == "";
    IncludesEmpty(Lower(a.name));
  }

  /** The orbit filter "Near-Earth" keeps Eros alone. */
  lemma OrbitNearEarth()
    ensures FilterRows(AsteroidBinding, Criteria("", "Near-Earth", Unset, Unset), SampleData) == [Eros]
  {
    var c := Criteria("", "Near-Earth", Unset, Unset);
    EmptyTermOrbitOnly("Near-Earth", Ceres);
    EmptyTermOrbitOnly("Near-Earth", Vesta);
    EmptyTermOrbitOnly("Near-Earth", Eros);
    FilterThree(AsteroidBinding, c, Ceres, Vesta, Eros);
  }

  /** The orbit filter "Trojan", offered in the menu, matches no sample asteroid. */
  lemma OrbitTrojan()
    ensures FilterRows(AsteroidBinding, Criteria("", "Trojan", Unset, Unset), SampleData) == []
  {
    var c := Criteria("", "Trojan", Unset, Unset);
    EmptyTermOrbitOnly("Trojan", Ceres);
    EmptyTermOrbitOnly("Trojan", Vesta);
    EmptyTermOrbitOnly("Trojan", Eros);
    FilterThree(AsteroidBinding, c, Ceres, Vesta, Eros);
  }

  /**
   * A search keeps the page index, so the table can go blank: at one row per
   * page, page 1 shows Vesta; after searching "ves" only one row is left and
   * page 1 shows nothing.
   */
  method SearchKeepsPage() returns (before: seq<Asteroid>, after: seq<Asteroid>)
    ensures before == [Vesta] && after == []
  {
    var view := new ViewState();
    view.ChangeRowsPerPage(1);
    view.ChangePage(1);
    InitialFilterIsIdentity(AsteroidBinding, SampleData);
    before := view.VisibleRows(AsteroidBinding, SampleData);
    view.ChangeSearchTerm("ves");
    assert view.FilterCriteria() == VesSearch;
    SearchVes();
    after := view.VisibleRows(AsteroidBinding, SampleData);
  }
}
