/** The galaxies page: name search, galaxy-type filter, log-log mass/distance scatter. */
module Galaxies {
  import opened Wrappers
  import opened Text
  import opened Dates
  import opened Filtering
  import opened Chart

  /** A galaxy; the source's field `type` is `galaxyType` here, `type` being a Dafny keyword. */
  datatype Galaxy = Galaxy(
    id: int,
    name: string,
    galaxyType: string,
    redshift: real,
    mass: real,
    distanceLy: real)

  const Andromeda := Galaxy(1, "Andromeda", "Spiral", -0.001001, 1500000000000.0, 2537000.0)
  const LargeMagellanicCloud := Galaxy(2, "Large Magellanic Cloud", "Irregular", 0.000927, 138000000000.0, 158200.0)
  const Messier87 := Galaxy(3, "Messier 87", "Elliptical", 0.004283, 2400000000000.0, 53490000.0)

  const SampleData: seq<Galaxy> := [Andromeda, LargeMagellanicCloud, Messier87]

  /** The search looks at the name only; the galaxy type is the categorical filter; no date range. */
  const GalaxyBinding: Binding<Galaxy> :=
    Binding([(g: Galaxy) => g.name], Some((g: Galaxy) => g.galaxyType), None)

  /** The page's filter callback, field by field. */
  lemma PassesIff(c: Criteria, g: Galaxy)
    ensures Passes(GalaxyBinding, c, g) <==>
      && Includes(Lower(g.name), Lower(c.searchTerm))
      && (c.categoryFilter == AllCategories || g.galaxyType == c.categoryFilter)
  {
    assert GalaxyBinding.searchFields[0](g) == g.name;
  }

  /**
   * The scatter: one point per galaxy, in order, at (log10 distance, log10 mass);
   * it ignores the view state. `log10` stands for `Math.log10`.
   */
  function MassDistanceScatter(data: seq<Galaxy>, log10: real -> real): (points: seq<Point>)
    ensures |points| == |data|
    ensures forall i :: 0 <= i < |data| ==>
      points[i].x == log10(data[i].distanceLy) && points[i].y == log10(data[i].mass)
  {
    Project(data, (g: Galaxy) => Point(log10(g.distanceLy), log10(g.mass)))
  }

  /** With an empty search term only the type filter decides. */
  lemma EmptyTermTypeOnly(filter: string, g: Galaxy)
    ensures Passes(GalaxyBinding, Criteria("", filter, Unset, Unset), g) <==>
      filter == AllCategories || g.galaxyType == filter
  {
    PassesIff(Criteria("", filter, Unset, Unset), g);
    assert Lower("") == "";
    IncludesEmpty(Lower(g.name));
  }

  /** The type filter "Spiral" keeps Andromeda alone. */
  lemma TypeSpiral()
    ensures FilterRows(GalaxyBinding, Criteria("", "Spiral", Unset, Unset), SampleData) == [Andromeda]
  {
    EmptyTermTypeOnly("Spiral", Andromeda);
    EmptyTermTypeOnly("Spiral", LargeMagellanicCloud);
    EmptyTermTypeOnly("Spiral", Messier87);
    FilterThree(GalaxyBinding, Criteria("", "Spiral", Unset, Unset), Andromeda, LargeMagellanicCloud, Messier87);
  }
}
