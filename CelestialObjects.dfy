/** The celestial-objects page: name search and an object-type filter with a fixed menu. */
module CelestialObjects {
  import opened Wrappers
  import opened Text
  import opened Dates
  import opened Filtering

  /** A catalogued object; the source's field `type` is `objectType` here, `type` being a Dafny keyword. */
  datatype CelestialObject = CelestialObject(
    id: int,
    name: string,
    objectType: string,
    discoveryDate: string,
    distanceLy: real)

  const ProximaCentauri := CelestialObject(1, "Proxima Centauri", "Star", "2016-08-24", 4.2)
  const AndromedaGalaxy := CelestialObject(2, "Andromeda Galaxy", "Galaxy", "964-01-01", 2537000.0)
  const Kepler186f := CelestialObject(3, "Kepler-186f", "Exoplanet", "2014-04-17", 582.0)

  const SampleData: seq<CelestialObject> := [ProximaCentauri, AndromedaGalaxy, Kepler186f]

  /** The values of the type menu: "all" first, then the three object types. */
  const TypeMenu: seq<string> := [AllCategories, "Star", "Galaxy", "Exoplanet"]

  /** The search looks at the name only; the object type is the categorical filter; no date range. */
  const ObjectBinding: Binding<CelestialObject> :=
    Binding([(o: CelestialObject) => o.name], Some((o: CelestialObject) => o.objectType), None)

  /** The page's filter callback, field by field. */
  lemma PassesIff(c: Criteria, o: CelestialObject)
    ensures Passes(ObjectBinding, c, o) <==>
      && Includes(Lower(o.name), Lower(c.searchTerm))
      && (c.categoryFilter == AllCategories || o.objectType == c.categoryFilter)
  {
    assert ObjectBinding.searchFields[0](o) == o.name;
  }

  /** With an empty search term only the type filter decides. */
  lemma EmptyTermTypeOnly(filter: string, o: CelestialObject)
    ensures Passes(ObjectBinding, Criteria("", filter, Unset, Unset), o) <==>
      filter == AllCategories || o.objectType == filter
  {
    PassesIff(Criteria("", filter, Unset, Unset), o);
    assert Lower("") == "";
    IncludesEmpty(Lower(o.name));
  }

  /**
   * Every menu entry after "all" selects exactly the sample object of that type,
   * the i-th entry the (i-1)-th object.
   */
  lemma MenuSelectsOne(i: nat)
    requires 1 <= i < |TypeMenu|
    ensures FilterRows(ObjectBinding, Criteria("", TypeMenu[i], Unset, Unset), SampleData) == [SampleData[i - 1]]
  {
    var filter := TypeMenu[i];
    EmptyTermTypeOnly(filter, ProximaCentauri);
    EmptyTermTypeOnly(filter, AndromedaGalaxy);
    EmptyTermTypeOnly(filter, Kepler186f);
    FilterThree(ObjectBinding, Criteria("", filter, Unset, Unset), ProximaCentauri, AndromedaGalaxy, Kepler186f);
  }

  /** A type that no menu entry offers hides every object, e.g. a lower-case "star". */
  lemma TypeFilterIsCaseSensitive()
    ensures FilterRows(ObjectBinding, Criteria("", "star", Unset, Unset), SampleData) == []
  {
    EmptyTermTypeOnly("star", ProximaCentauri);
    EmptyTermTypeOnly("star", AndromedaGalaxy);
    EmptyTermTypeOnly("star", Kepler186f);
    FilterThree(ObjectBinding, Criteria("", "star", Unset, Unset), ProximaCentauri, AndromedaGalaxy, Kepler186f);
  }
}
