/** The stars page: search over name or spectral type, no categorical filter, HR-diagram scatter. */
module Stars {
  import opened Wrappers
  import opened Text
  import opened Dates
  import opened Filtering
  import opened Chart

  datatype Star = Star(
    id: int,
    name: string,
    spectralType: string,
    temperature: real,
    luminosity: real,
    mass: real,
    radius: real)

  const Sun := Star(1, "Sun", "G2V", 5778.0, 1.0, 1.0, 1.0)
  const SiriusA := Star(2, "Sirius A", "A1V", 9940.0, 25.4, 2.02, 1.71)
  const Betelgeuse := Star(3, "Betelgeuse", "M1-2", 3600.0, 126000.0, 16.5, 370.0)

  const SampleData: seq<Star> := [Sun, SiriusA, Betelgeuse]

  /** The search looks at the name and the spectral type; there is no category filter or date range. */
  const StarBinding: Binding<Star> :=
    Binding([(s: Star) => s.name, (s: Star) => s.spectralType], None, None)

  /** The page's filter callback: name OR spectral type contains the term. */
  lemma PassesIff(c: Criteria, s: Star)
    ensures Passes(StarBinding, c, s) <==>
      Includes(Lower(s.name), Lower(c.searchTerm)) || Includes(Lower(s.spectralType), Lower(c.searchTerm))
  {
    var fields := StarBinding.searchFields;
    assert fields[0](s) == s.name && fields[1](s) == s.spectralType;
    if Includes(Lower(s.spectralType), Lower(c.searchTerm)) {
      assert Includes(Lower(fields[1](s)), Lower(c.searchTerm));
    }
  }

  /**
   * The Hertzsprung-Russell scatter: one point per star, in order, at
   * (log10 temperature, log10 luminosity); it ignores the view state.
   * `log10` stands for `Math.log10`.
   */
  function HertzsprungRussell(data: seq<Star>, log10: real -> real): (points: seq<Point>)
    ensures |points| == |data|
    ensures forall i :: 0 <= i < |data| ==>
      points[i].x == log10(data[i].temperature) && points[i].y == log10(data[i].luminosity)
  {
    Project(data, (s: Star) => Point(log10(s.temperature), log10(s.luminosity)))
  }

  const G2Search := Criteria("g2", AllCategories, Unset, Unset)

  /** "g2v" starts with "g2". */
  lemma SunHasG2()
    ensures Includes(Lower(Sun.spectralType), Lower("g2"))
  {
    assert Lower("g2") == "g2";
    assert Lower("G2V") == "g2v";
    assert OccursAt("g2v", "g2", 0);
  }

  lemma SunPassesG2()
    ensures Passes(StarBinding, G2Search, Sun)
  {
    PassesIff(G2Search, Sun);
    SunHasG2();
  }

  /** Neither "sirius a" nor "a1v" contains "g2". */
  lemma SiriusLacksG2()
    ensures !Includes(Lower(SiriusA.name), Lower("g2"))
    ensures !Includes(Lower(SiriusA.spectralType), Lower("g2"))
  {
    assert Lower("g2") == "g2";
    assert Lower("Sirius A") == "sirius a";
    NotIncludesMissingChar("sirius a", "g2", 0);
    assert Lower("A1V") == "a1v";
    NotIncludesMissingChar("a1v", "g2", 0);
  }

  lemma SiriusFailsG2()
    ensures !Passes(StarBinding, G2Search, SiriusA)
  {
    PassesIff(G2Search, SiriusA);
    SiriusLacksG2();
  }

  /** Neither "betelgeuse" nor "m1-2" contains "g2". */
  lemma BetelgeuseLacksG2()
    ensures !Includes(Lower(Betelgeuse.name), Lower("g2"))
    ensures !Includes(Lower(Betelgeuse.spectralType), Lower("g2"))
  {
    assert Lower("g2") == "g2";
    assert Lower("Betelgeuse") == "betelgeuse";
    NotIncludesMissingChar("betelgeuse", "g2", 1);
    assert Lower("M1-2") == "m1-2";
    NotIncludesMissingChar("m1-2", "g2", 0);
  }

  lemma BetelgeuseFailsG2()
    ensures !Passes(StarBinding, G2Search, Betelgeuse)
  {
    PassesIff(G2Search, Betelgeuse);
    BetelgeuseLacksG2();
  }

  /** Searching "g2" finds the Sun alone, through its spectral type G2V. */
  lemma SearchG2()
    ensures FilterRows(StarBinding, G2Search, SampleData) == [Sun]
  {
    SunPassesG2();
    SiriusFailsG2();
    BetelgeuseFailsG2();
    FilterThree(StarBinding, G2Search, Sun, SiriusA, Betelgeuse);
  }
}
