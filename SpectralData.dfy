/**
 * The spectral-data page: name search, an intensity-over-wavelength line chart
 * and three summary cards, all but the table computed from the full data set.
 */
module SpectralData {
  import opened Wrappers
  import opened Text
  import opened Dates
  import opened Filtering
  import opened Summary
  import opened Chart

  datatype SpectralSample = SpectralSample(
    id: int,
    objectId: int,
    objectName: string,
    wavelength: real,
    intensity: real,
    dateRecorded: string)

  const Sun400 := SpectralSample(1, 1, "Sun", 400.0, 0.8, "2024-03-15")
  const Sun500 := SpectralSample(2, 1, "Sun", 500.0, 1.0, "2024-03-15")
  const Sun600 := SpectralSample(3, 1, "Sun", 600.0, 0.9, "2024-03-15")

  const SampleData: seq<SpectralSample> := [Sun400, Sun500, Sun600]

  /** The search looks at the object name only; there is no category filter or date range. */
  const SpectralBinding: Binding<SpectralSample> :=
    Binding([(d: SpectralSample) => d.objectName], None, None)

  /** The page's filter callback. */
  lemma PassesIff(c: Criteria, d: SpectralSample)
    ensures Passes(SpectralBinding, c, d) <==> Includes(Lower(d.objectName), Lower(c.searchTerm))
  {
    assert SpectralBinding.searchFields[0](d) == d.objectName;
  }

  /** The line chart's data: wavelength labels and the intensity series. */
  datatype LineChart = LineChart(labels: seq<real>, series: seq<real>)

  /**
   * The chart: one label and one value per measurement, in data order, so the
   * i-th intensity is drawn at the i-th measurement's wavelength. It ignores the
   * search term.
   */
  function SpectrumChart(data: seq<SpectralSample>): (chart: LineChart)
    ensures |chart.labels| == |data| && |chart.series| == |data|
    ensures forall i :: 0 <= i < |data| ==>
      chart.labels[i] == data[i].wavelength && chart.series[i] == data[i].intensity
  {
    LineChart(Project(data, (d: SpectralSample) => d.wavelength), Project(data, (d: SpectralSample) => d.intensity))
  }

  function ObjectIdOf(d: SpectralSample): int { d.objectId }
  function DateRecordedOf(d: SpectralSample): string { d.dateRecorded }

  /** The "Unique Objects" card: the number of distinct object ids. */
  function UniqueObjects(data: seq<SpectralSample>): (n: nat)
    ensures n == |set d | d in data :: d.objectId|
    ensures n <= |data|
  {
    assert KeySet(data, ObjectIdOf) == set d | d in data :: d.objectId;
    DistinctKeyCount(data, ObjectIdOf)
  }

  /**
   * The "Date Range" card: the number of distinct recording dates (shown with
   * the unit "days"), not the span between the first and the last date.
   */
  function RecordingDays(data: seq<SpectralSample>): (n: nat)
    ensures n == |set d | d in data :: d.dateRecorded|
    ensures n <= |data|
  {
    assert KeySet(data, DateRecordedOf) == set d | d in data :: d.dateRecorded;
    DistinctKeyCount(data, DateRecordedOf)
  }

  /** The sample data: three measurements of one object, all on one day. */
  lemma SampleCards()
    ensures |SampleData| == 3
    ensures UniqueObjects(SampleData) == 1
    ensures RecordingDays(SampleData) == 1
  {
    assert (set d | d in SampleData :: d.objectId) == {1} by {
      assert Sun400 in SampleData;
    }
    assert (set d | d in SampleData :: d.dateRecorded) == {"2024-03-15"} by {
      assert Sun400 in SampleData;
    }
  }

  /** The search ignores case: "SUN" matches "Sun". */
  lemma SunMatchesUpperCase()
    ensures Includes(Lower("Sun"), Lower("SUN"))
  {
    assert Lower("SUN") == "sun" && Lower("Sun") == "sun";
    assert OccursAt("sun", "sun", 0);
  }

  /** So searching "SUN" keeps every measurement. */
  lemma SearchUpperCaseSun()
    ensures FilterRows(SpectralBinding, Criteria("SUN", AllCategories, Unset, Unset), SampleData) == SampleData
  {
    var c := Criteria("SUN", AllCategories, Unset, Unset);
    SunMatchesUpperCase();
    forall i | 0 <= i < |SampleData|
      ensures PassesFn(SpectralBinding, c)(SampleData[i])
    {
      PassesIff(c, SampleData[i]);
    }
    KeepAllPass(SampleData, PassesFn(SpectralBinding, c));
  }

  /** "sun" has no 'm', so it does not contain "moon". */
  lemma SunLacksMoon()
    ensures !Includes(Lower("Sun"), Lower("moon"))
  {
    assert Lower("moon") == "moon" && Lower("Sun") == "sun";
    NotIncludesMissingChar("sun", "moon", 0);
  }

  /** Searching "moon" empties the table. */
  lemma SearchMoon()
    ensures FilterRows(SpectralBinding, Criteria("moon", AllCategories, Unset, Unset), SampleData) == []
  {
    var c := Criteria("moon", AllCategories, Unset, Unset);
    SunLacksMoon();
    forall i | 0 <= i < |SampleData|
      ensures !PassesFn(SpectralBinding, c)(SampleData[i])
    {
      PassesIff(c, SampleData[i]);
    }
    KeepNonePass(SampleData, PassesFn(SpectralBinding, c));
  }
}
