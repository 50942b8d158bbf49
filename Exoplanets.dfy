/** The exoplanets page: search over name or host star, no categorical filter, mass/period scatter. */
module Exoplanets {
  import opened Wrappers
  import opened Text
  import opened Filtering
  import opened Chart
  import opened Views

  datatype Exoplanet = Exoplanet(
    id: int,
    name: string,
    hostStar: string,
    orbitalPeriod: real,
    mass: real,
    radius: real,
    atmosphere: string,
    discoveryDate: string)

  const Kepler186f := Exoplanet(1, "Kepler-186f", "Kepler-186", 129.9, 1.71, 1.17, "Unknown", "2014-04-17")
  const Trappist1e := Exoplanet(2, "TRAPPIST-1e", "TRAPPIST-1", 6.1, 0.77, 0.92, "Potentially rocky", "2017-02-22")
  const ProximaCentauriB := Exoplanet(3, "Proxima Centauri b", "Proxima Centauri", 11.2, 1.27, 1.08, "Unknown", "2016-08-24")

  const SampleData: seq<Exoplanet> := [Kepler186f, Trappist1e, ProximaCentauriB]

  /** The search looks at the name and the host star; there is no category filter or date range. */
  const ExoplanetBinding: Binding<Exoplanet> :=
    Binding([(p: Exoplanet) => p.name, (p: Exoplanet) => p.hostStar], None, None)

  /** The page's filter callback: name OR host star contains the term, whatever the category filter holds. */
  lemma PassesIff(c: Criteria, p: Exoplanet)
    ensures Passes(ExoplanetBinding, c, p) <==>
      Includes(Lower(p.name), Lower(c.searchTerm)) || Includes(Lower(p.hostStar), Lower(c.searchTerm))
  {
    var fields := ExoplanetBinding.searchFields;
    assert fields[0](p) == p.name && fields[1](p) == p.hostStar;
    if Includes(Lower(p.hostStar), Lower(c.searchTerm)) {
      assert Includes(Lower(fields[1](p)), Lower(c.searchTerm));
    }
  }

  /** The scatter: one point per planet, in order, at (orbital period, mass); it ignores the view state. */
  function MassPeriodScatter(data: seq<Exoplanet>): (points: seq<Point>)
    ensures |points| == |data|
    ensures forall i :: 0 <= i < |data| ==> points[i].x == data[i].orbitalPeriod && points[i].y == data[i].mass
  {
    Project(data, (p: Exoplanet) => Point(p.orbitalPeriod, p.mass))
  }

  /** In the initial state, at 10 rows per page, page 0 shows all three planets and page 1 shows none. */
  method InitialPages() returns (page0: seq<Exoplanet>, page1: seq<Exoplanet>)
    ensures page0 == SampleData && page1 == []
  {
    var view := new ViewState();
    InitialFilterIsIdentity(ExoplanetBinding, SampleData);
    page0 := view.VisibleRows(ExoplanetBinding, SampleData);
    view.ChangePage(1);
    page1 := view.VisibleRows(ExoplanetBinding, SampleData);
  }
}
