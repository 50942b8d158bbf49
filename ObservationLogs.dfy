/**
 * The observation-log page: search over object or observer name, a telescope
 * filter whose menu lists the telescopes of the data set, and an inclusive
 * date range on the observation date.
 */
module ObservationLogs {
  import opened Wrappers
  import opened Text
  import opened Dates
  import opened Filtering
  import opened Summary
  import opened Chart
  import opened Views

  /** An observation; `notes` is optional. */
  datatype ObservationLog = ObservationLog(
    id: int,
    userId: int,
    userName: string,
    objectId: int,
    objectName: string,
    telescope: string,
    dateObserved: string,
    notes: Option<string>)

  const AndromedaLog := ObservationLog(1, 1, "John Doe", 1, "M31 - Andromeda Galaxy", "Celestron EdgeHD 14",
    "2024-03-15", Some("Clear skies, excellent seeing conditions"))
  const PleiadesLog := ObservationLog(2, 2, "Jane Smith", 2, "M45 - Pleiades", "Meade LX200 12\"",
    "2024-03-14", Some("Some cloud cover"))
  const JupiterLog := ObservationLog(3, 1, "John Doe", 3, "Jupiter", "Celestron EdgeHD 14",
    "2024-03-13", Some("Great view of the Great Red Spot"))

  const SampleData: seq<ObservationLog> := [AndromedaLog, PleiadesLog, JupiterLog]

  /** The observation date as `new Date(log.dateObserved)` reads it. */
  function ObservedOn(l: ObservationLog): Option<int>
  {
    ParseIsoDate(l.dateObserved)
  }

  /**
   * The search looks at the object name and the observer name; the telescope is
   * the categorical filter; the observation date is checked against the range.
   */
  const LogBinding: Binding<ObservationLog> :=
    Binding([(l: ObservationLog) => l.objectName, (l: ObservationLog) => l.userName],
      Some((l: ObservationLog) => l.telescope),
      Some(ObservedOn))

  /** The page's filter callback: search AND telescope AND date range. */
  lemma PassesIff(c: Criteria, l: ObservationLog)
    ensures Passes(LogBinding, c, l) <==>
      && (Includes(Lower(l.objectName), Lower(c.searchTerm)) || Includes(Lower(l.userName), Lower(c.searchTerm)))
      && (c.categoryFilter == AllCategories || l.telescope == c.categoryFilter)
      && InRange(ParseIsoDate(l.dateObserved), c.startDate, c.endDate)
  {
    var fields := LogBinding.searchFields;
    assert fields[0](l) == l.objectName && fields[1](l) == l.userName;
    if Includes(Lower(l.userName), Lower(c.searchTerm)) {
      assert Includes(Lower(fields[1](l)), Lower(c.searchTerm));
    }
  }

  /**
   * A date picker holding an invalid date hides every log: no comparison with
   * an invalid date holds, whatever the other criteria say.
   */
  lemma InvalidStartHidesAll(c: Criteria, data: seq<ObservationLog>)
    requires c.startDate == Set(None)
    ensures FilterRows(LogBinding, c, data) == []
  {
    forall i | 0 <= i < |data|
      ensures !PassesFn(LogBinding, c)(data[i])
    {
      assert !AtOrAfter(ObservedOn(data[i]), c.startDate);
    }
    KeepNonePass(data, PassesFn(LogBinding, c));
  }

  function TelescopeOf(l: ObservationLog): string { l.telescope }
  function ObjectIdOf(l: ObservationLog): int { l.objectId }
  function UserIdOf(l: ObservationLog): int { l.userId }

  /**
   * The telescope menu, `Array.from(new Set(sampleData.map(log => log.telescope)))`:
   * every telescope of the data set once, in the order of first use.
   */
  function UniqueTelescopes(data: seq<ObservationLog>): (menu: seq<string>)
    ensures NoDuplicates(menu)
    ensures forall t :: t in menu <==> exists l :: l in data && l.telescope == t
    ensures forall t :: t in menu ==> t in Project(data, TelescopeOf)
    ensures forall i, j :: 0 <= i < j < |menu| ==>
      FirstIndex(Project(data, TelescopeOf), menu[i]) < FirstIndex(Project(data, TelescopeOf), menu[j])
  {
    var keys := Project(data, TelescopeOf);
    DedupFirstOccurrenceOrder(keys);
    forall t | t in keys
      ensures exists l :: l in data && l.telescope == t
    {
      var i :| 0 <= i < |keys| && keys[i] == t;
      assert data[i] in data;
    }
    forall l | l in data
      ensures l.telescope in keys
    {
      var i :| 0 <= i < |data| && data[i] == l;
      assert keys[i] == l.telescope;
    }
    Dedup(keys)
  }

  /** The sample telescope menu lists the Celestron, then the Meade, each once. */
  lemma SampleTelescopes()
    ensures UniqueTelescopes(SampleData) == ["Celestron EdgeHD 14", "Meade LX200 12\""]
  {
    var c, m := "Celestron EdgeHD 14", "Meade LX200 12\"";
    var keys := Project(SampleData, TelescopeOf);
    assert keys == [c, m, c];
    assert keys[..2] == [c, m] && [c, m][..1] == [c] && [c][..0] == [];
    assert Dedup([c]) == [c];
    assert c != m;
    assert Dedup([c, m]) == [c, m];
    assert Dedup(keys) == [c, m];
  }

  /** The "Unique Objects" card: the number of distinct object ids. */
  function UniqueObjects(data: seq<ObservationLog>): (n: nat)
    ensures n == |set l | l in data :: l.objectId|
    ensures n <= |data|
  {
    assert KeySet(data, ObjectIdOf) == set l | l in data :: l.objectId;
    DistinctKeyCount(data, ObjectIdOf)
  }

  /** The "Active Observers" card: the number of distinct observer ids. */
  function ActiveObservers(data: seq<ObservationLog>): (n: nat)
    ensures n == |set l | l in data :: l.userId|
    ensures n <= |data|
  {
    assert KeySet(data, UserIdOf) == set l | l in data :: l.userId;
    DistinctKeyCount(data, UserIdOf)
  }

  /** The sample data: three observations of three objects by two observers. */
  lemma SampleCards()
    ensures |SampleData| == 3
    ensures UniqueObjects(SampleData) == 3
    ensures ActiveObservers(SampleData) == 2
  {
    assert (set l | l in SampleData :: l.objectId) == {1, 2, 3} by {
      assert AndromedaLog in SampleData && PleiadesLog in SampleData && JupiterLog in SampleData;
    }
    assert (set l | l in SampleData :: l.userId) == {1, 2} by {
      assert AndromedaLog in SampleData && PleiadesLog in SampleData;
    }
  }

  lemma ParsesMarch15()
    ensures ParseIsoDate("2024-03-15") == Some(DayNumber(2024, 3, 15))
  {
    ParseIsoDateDigits("2024-03-15");
  }

  lemma ParsesMarch14()
    ensures ParseIsoDate("2024-03-14") == Some(DayNumber(2024, 3, 14))
  {
    ParseIsoDateDigits("2024-03-14");
  }

  lemma ParsesMarch13()
    ensures ParseIsoDate("2024-03-13") == Some(DayNumber(2024, 3, 13))
  {
    ParseIsoDateDigits("2024-03-13");
  }

  /** The three sample observation dates, read as dates. */
  lemma SampleDates()
    ensures ObservedOn(AndromedaLog) == Some(DayNumber(2024, 3, 15))
    ensures ObservedOn(PleiadesLog) == Some(DayNumber(2024, 3, 14))
    ensures ObservedOn(JupiterLog) == Some(DayNumber(2024, 3, 13))
  {
    ParsesMarch15();
    ParsesMarch14();
    ParsesMarch13();
  }

  /** From 14 March 2024 to 15 March 2024, both inclusive, with no other criterion. */
  const MidMarch := Criteria("", AllCategories, Set(Some(DayNumber(2024, 3, 14))), Set(Some(DayNumber(2024, 3, 15))))

  /** With an empty term and "all" telescopes, only the date range decides. */
  lemma EmptyTermDateOnly(start: DateBound, end: DateBound, l: ObservationLog)
    ensures Passes(LogBinding, Criteria("", AllCategories, start, end), l) <==>
      InRange(ObservedOn(l), start, end)
  {
    PassesIff(Criteria("", AllCategories, start, end), l);
    assert Lower("") == "";
    IncludesEmpty(Lower(l.objectName));
  }

  /** The mid-March range keeps the observations of the 15th and the 14th, not the 13th. */
  lemma DateRangeMidMarch()
    ensures FilterRows(LogBinding, MidMarch, SampleData) == [AndromedaLog, PleiadesLog]
  {
    SampleDates();
    EmptyTermDateOnly(MidMarch.startDate, MidMarch.endDate, AndromedaLog);
    EmptyTermDateOnly(MidMarch.startDate, MidMarch.endDate, PleiadesLog);
    EmptyTermDateOnly(MidMarch.startDate, MidMarch.endDate, JupiterLog);
    FilterThree(LogBinding, MidMarch, AndromedaLog, PleiadesLog, JupiterLog);
  }

  /**
   * Picking the two dates in a fresh view shows the two mid-March observations
   * on page 0, and the pager counts two rows.
   */
  method PickMidMarch() returns (rows: seq<ObservationLog>, count: nat)
    ensures rows == [AndromedaLog, PleiadesLog] && count == 2
  {
    var view := new ViewState();
    view.ChangeStartDate(MidMarch.startDate);
    view.ChangeEndDate(MidMarch.endDate);
    assert view.FilterCriteria() == MidMarch;
    DateRangeMidMarch();
    rows := view.VisibleRows(LogBinding, SampleData);
    KeepAtPositions(SampleData, PassesFn(LogBinding, MidMarch));
    count := view.PagerCount(LogBinding, SampleData);
  }

  const JohnSearch := Criteria("john", AllCategories, Unset, Unset)

  /** "John Doe" contains "john": both of John Doe's observations pass. */
  lemma JohnDoeHasJohn()
    ensures Includes(Lower("John Doe"), Lower("john"))
  {
    assert Lower("john") == "john";
    assert Lower("John Doe") == "john doe";
    assert OccursAt("john doe", "john", 0);
  }

  lemma JohnDoePassesJohn(l: ObservationLog)
    requires l.userName == "John Doe"
    ensures Passes(LogBinding, JohnSearch, l)
  {
    PassesIff(JohnSearch, l);
    JohnDoeHasJohn();
  }

  /** Neither "m45 - pleiades" nor "jane smith" has an 'o', so neither contains "john". */
  lemma PleiadesLacksJohn()
    ensures !Includes(Lower(PleiadesLog.objectName), Lower("john"))
    ensures !Includes(Lower(PleiadesLog.userName), Lower("john"))
  {
    assert Lower("john") == "john";
    assert Lower("M45 - Pleiades") == "m45 - pleiades";
    NotIncludesMissingChar("m45 - pleiades", "john", 1);
    assert Lower("Jane Smith") == "jane smith";
    NotIncludesMissingChar("jane smith", "john", 1);
  }

  lemma PleiadesFailsJohn()
    ensures !Passes(LogBinding, JohnSearch, PleiadesLog)
  {
    PassesIff(JohnSearch, PleiadesLog);
    PleiadesLacksJohn();
  }

  /** Searching "john" finds John Doe's two observations through the observer name. */
  lemma SearchJohn()
    ensures FilterRows(LogBinding, JohnSearch, SampleData) == [AndromedaLog, JupiterLog]
  {
    JohnDoePassesJohn(AndromedaLog);
    PleiadesFailsJohn();
    JohnDoePassesJohn(JupiterLog);
    FilterThree(LogBinding, JohnSearch, AndromedaLog, PleiadesLog, JupiterLog);
  }
}
