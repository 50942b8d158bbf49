# Astronomy dashboard: the tabular view pattern

The astronomy dashboard is a React application with seven data pages. They are:

- observation logs
- asteroids
- galaxies
- exoplanets
- stars
- spectral data
- celestial objects

Every page shows its in-memory sample data through the same pattern:

- **Filter.** A filter keeps the records that pass a case-insensitive substring search over one or two string fields of the record.
  - Some pages also have a categorical select whose value `'all'` switches it off.
  - The observation-log page also has an inclusive date range.
  - All criteria are joined with AND, and the records keep their source order.
- **Paginate.** The table shows `filteredData.slice(page * rowsPerPage, page * rowsPerPage + rowsPerPage)`. The pager is given `filteredData.length` as its count.
- **View state.** Each page keeps `page`, `rowsPerPage`, `searchTerm` and its category filter in React state, starting at `0`, `10`, `''` and `'all'`. Its handlers update that state.
  - A page change sets only `page`.
  - A rows-per-page change also resets `page` to 0.
  - A search or filter change leaves `page` alone.
- **Summaries and charts.** These are computed from the full data set:
  - distinct-value counts, `new Set(keys).size`;
  - the telescope menu, `Array.from(new Set(keys))`;
  - chart projections, one point per record.

The model has one generic module per stage and one module per page. Each page module binds the generic stages to the page's record type and sample data. It also proves the page's filter callback field by field, along with concrete scenarios on the sample data.

| module | what it holds |
|---|---|
| `Text` | ASCII `toLowerCase` (`Lower`) and `includes` (`Includes`) |
| `Dates` | date bounds with JavaScript `Invalid Date` semantics; `new Date("YYYY-MM-DD")` as an order-preserving day number |
| `Filtering` | `Binding` (which fields a page searches, its category field, its date field); `Criteria`; `Passes`; `Keep` (`Array.prototype.filter`); `FilterRows` |
| `Pagination` | `Slice` (`Array.prototype.slice`), `Paginate`, and the partition of a list into pages |
| `Summary` | `Dedup` (`Array.from(new Set(...))`), `DistinctCount` and `DistinctKeyCount` (`new Set(...).size`) |
| `Chart` | `Project` (`Array.prototype.map`) and scatter points |
| `Views` | the `ViewState` class: the page's state hooks and handlers, the visible rows, and the pager count |
| `ObservationLogs`, `Asteroids`, `Galaxies`, `Exoplanets`, `Stars`, `SpectralData`, `CelestialObjects` | one page each |

Some source field names are renamed:

- The source's field `type` (galaxies, celestial objects) is `galaxyType` and `objectType`, because `type` is a Dafny keyword.
- The observation log's optional `notes` is an `Option<string>`.
- The telescope, orbit and type selects all become the one `categoryFilter` field of `ViewState`.

## Model

| member | source | states |
|---|---|---|
| Text.LowerChar | astronomy-dashboard/src/pages/Asteroids.tsx:103 | an upper-case ASCII letter maps to its lower-case letter (code + 32); every other character is unchanged; the result is never an upper-case letter |
| Text.Lower | astronomy-dashboard/src/pages/Asteroids.tsx:103 | `toLowerCase` keeps the length, maps each character through `LowerChar` at the same position, and leaves no upper-case letter |
| Text.LowerCharSame | astronomy-dashboard/src/pages/Asteroids.tsx:103 | two characters lower-case to the same character iff they are equal or are the upper- and lower-case forms of one ASCII letter |
| Text.LowerEqualIffEqualIgnoringCase | astronomy-dashboard/src/pages/Asteroids.tsx:103 | two strings lower-case to the same string iff they have the same length and differ at most in ASCII letter case |
| Text.SearchIgnoresCase | astronomy-dashboard/src/pages/Asteroids.tsx:103 | changing the letter case of the field or of the term never changes whether the search matches |
| Text.Includes | astronomy-dashboard/src/pages/Asteroids.tsx:103 | when `includes` holds the needle is no longer than the haystack; for a needle as long as the haystack it holds iff the two are equal |
| Text.LowerIdempotent | astronomy-dashboard/src/pages/Asteroids.tsx:103 | lower-casing twice is lower-casing once |
| Text.IncludesEmpty | astronomy-dashboard/src/pages/Galaxies.tsx:95 | the empty term is contained in every string, so the empty search matches every record |
| Text.NotIncludesMissingChar | astronomy-dashboard/src/pages/Asteroids.tsx:103 | a term with a character that the field lacks is not contained in it |
| Dates.AtOrAfter | astronomy-dashboard/src/pages/ObservationLogs.tsx:103 | `!startDate \|\| date >= startDate`: an empty picker passes every log; a set picker fails a log whose date or whose bound is invalid; with both valid, a log passes iff its date is at or after the bound |
| Dates.AtOrBefore | astronomy-dashboard/src/pages/ObservationLogs.tsx:104 | `!endDate \|\| date <= endDate`: an empty picker passes every log; a set picker fails a log whose date or whose bound is invalid; with both valid, a log passes iff its date is at or before the bound |
| Dates.InRange | astronomy-dashboard/src/pages/ObservationLogs.tsx:103-104 | with no picker set every log passes; with a picker set an invalid log date fails; passing with both set means both bounds and the date are valid and start <= date <= end |
| Dates.InRangeBothSet | astronomy-dashboard/src/pages/ObservationLogs.tsx:103-104 | with both bounds set to valid dates, a log passes iff its date is valid and start <= date <= end |
| Dates.InRangeStartOnly | astronomy-dashboard/src/pages/ObservationLogs.tsx:103-104 | with only the start picker set to a valid date, a log passes iff its date is valid and at or after it: the missing end bound imposes no constraint |
| Dates.InRangeEndOnly | astronomy-dashboard/src/pages/ObservationLogs.tsx:103-104 | with only the end picker set to a valid date, a log passes iff its date is valid and at or before it: the missing start bound imposes no constraint |
| Dates.InRangeUnset | astronomy-dashboard/src/pages/ObservationLogs.tsx:103-104 | with neither bound set, every log passes the date criterion, even one whose date does not parse |
| Dates.Digits | astronomy-dashboard/src/pages/ObservationLogs.tsx:103 | a digit string reads as a number only if every character is a digit; the empty string reads as 0 |
| Dates.ParseIsoDate | astronomy-dashboard/src/pages/ObservationLogs.tsx:103 | `new Date(log.dateObserved)` is a valid date only for the shape `YYYY-MM-DD`: ten characters, dashes at positions 4 and 7, and a decimal digit everywhere else |
| Dates.DayNumberOrder | astronomy-dashboard/src/pages/ObservationLogs.tsx:103-104 | for valid calendar dates, comparing day numbers is comparing year, then month, then day |
| Dates.ParseIsoDateDigits | astronomy-dashboard/src/pages/ObservationLogs.tsx:103 | a `YYYY-MM-DD` string of digits parses to the day number of its year, month and day when that is a calendar date, otherwise to an invalid date |
| Filtering.MatchesSearch | astronomy-dashboard/src/pages/ObservationLogs.tsx:99-101 | the OR over the searched fields: a match needs at least one field, and some field at least as long as the term |
| Filtering.MatchesCategory | astronomy-dashboard/src/pages/ObservationLogs.tsx:102 | a page without a select, or the value `'all'`, passes every record; otherwise passing means the record's field equals the selected value |
| Filtering.MatchesDate | astronomy-dashboard/src/pages/ObservationLogs.tsx:103-104 | a page without a date field, or with neither picker set, passes every record |
| Filtering.Passes | astronomy-dashboard/src/pages/ObservationLogs.tsx:98-106 | a passing record matches on some searched field; with `'all'` and no date bound set, passing is exactly the search match |
| Filtering.Keep | astronomy-dashboard/src/pages/ObservationLogs.tsx:98-106 | `filter` returns no more records than it is given; a record is in the result iff it is in the input and passes |
| Filtering.Positions | astronomy-dashboard/src/pages/ObservationLogs.tsx:98-106 | the passing indices, strictly increasing, each valid and passing, and every passing index included |
| Filtering.KeepAtPositions | astronomy-dashboard/src/pages/ObservationLogs.tsx:98-106 | the filter result is the records at the passing indices, in increasing order: an order-preserving subsequence |
| Filtering.KeepSnoc | astronomy-dashboard/src/pages/Stars.tsx:94-97 | a record appended at the end is kept, at the end, iff it passes |
| Filtering.KeepConcat | astronomy-dashboard/src/pages/Stars.tsx:94-97 | filtering a concatenation is concatenating the filtered parts |
| Filtering.KeepThree | astronomy-dashboard/src/pages/Asteroids.tsx:102-106 | filtering three records keeps each that passes, in order |
| Filtering.KeepAllPass | astronomy-dashboard/src/pages/CelestialObjects.tsx:67-71 | when every record passes, `filter` returns its input unchanged |
| Filtering.KeepNonePass | astronomy-dashboard/src/pages/ObservationLogs.tsx:98-106 | when no record passes, `filter` returns the empty list |
| Filtering.KeepIdempotent | astronomy-dashboard/src/pages/Galaxies.tsx:94-98 | filtering the filtered list again with the same predicate changes nothing |
| Filtering.FilterRows | astronomy-dashboard/src/pages/ObservationLogs.tsx:98-106 | `filteredData` is no longer than the data, and a record is in it iff it is a data record passing search AND category AND date |
| Filtering.FilterThree | astronomy-dashboard/src/pages/Asteroids.tsx:102-106 | `filteredData` of a three-record data set is the passing records among the three, in order |
| Filtering.FilterRowsIsOrderedSubsequence | astronomy-dashboard/src/pages/Galaxies.tsx:94-98 | `filteredData` is the data records at strictly increasing indices, and an index is among them iff its record passes |
| Filtering.FilterRowsIdempotent | astronomy-dashboard/src/pages/Galaxies.tsx:94-98 | filtering twice with the same criteria gives the same list as filtering once |
| Filtering.InitialCriteriaPassesAll | astronomy-dashboard/src/pages/Asteroids.tsx:90-91 | the initial criteria (empty term, `'all'`, no dates) pass every record |
| Filtering.InitialFilterIsIdentity | astronomy-dashboard/src/pages/CelestialObjects.tsx:55-56 | so in the initial state `filteredData` equals the data |
| Pagination.Slice | astronomy-dashboard/src/pages/Asteroids.tsx:229-230 | `slice(start, end)` clips both ends to the length: its length is `min(end, n) - start` when `start < end` and `start < n`, else 0; it holds the rows from `start` on |
| Pagination.Paginate | astronomy-dashboard/src/pages/Stars.tsx:211-212 | a page holds at most `rowsPerPage` rows; it is empty when `page * rowsPerPage >= n`, otherwise it holds `min(rowsPerPage, n - page * rowsPerPage)` rows starting at `page * rowsPerPage` |
| Pagination.PagesFrom | astronomy-dashboard/src/pages/Galaxies.tsx:220-221 | the pages from `page` on, concatenated until one is empty, hold exactly as many rows as remain after `page * rowsPerPage` |
| Pagination.PageIsSlice | astronomy-dashboard/src/pages/Galaxies.tsx:220-221 | a page that starts inside the rows is exactly the rows from `page * rowsPerPage` up to the next page's start `(page + 1) * rowsPerPage`, clipped to the length, and is not empty |
| Pagination.PagesFromIsSuffix | astronomy-dashboard/src/pages/Galaxies.tsx:220-221 | the pages from `page` on, concatenated until one is empty, are exactly the rows from `page * rowsPerPage` on |
| Pagination.PagesPartition | astronomy-dashboard/src/pages/Galaxies.tsx:220-221 | the pages 0, 1, ... concatenated until one is empty reconstruct the filtered list exactly |
| Pagination.PageOfRow | astronomy-dashboard/src/pages/Galaxies.tsx:220-221 | row `i` is on page `i / rowsPerPage` at position `i % rowsPerPage` |
| Summary.Dedup | astronomy-dashboard/src/pages/ObservationLogs.tsx:108 | `Array.from(new Set(keys))` has no duplicates, holds exactly the keys that occur, and is no longer than the keys |
| Summary.DedupFirstOccurrenceOrder | astronomy-dashboard/src/pages/ObservationLogs.tsx:108 | the de-duplicated keys are in the order of their first occurrence |
| Summary.DistinctCount | astronomy-dashboard/src/pages/ObservationLogs.tsx:138 | `new Set(keys).size` is the number of distinct keys and at most the number of keys |
| Summary.DistinctCountAllSame | astronomy-dashboard/src/pages/SpectralData.tsx:157 | all keys equal: the count is 1 |
| Summary.DistinctCountAllDistinct | astronomy-dashboard/src/pages/ObservationLogs.tsx:138 | all keys different: the count is the number of keys |
| Summary.DistinctKeyCount | astronomy-dashboard/src/pages/ObservationLogs.tsx:148 | `new Set(rows.map(key)).size` is the number of distinct keys of the records and at most the number of records |
| Chart.Project | astronomy-dashboard/src/pages/Asteroids.tsx:112-115 | `map` gives one value per record, in order, the i-th from the i-th record |
| Views.ViewState.constructor | astronomy-dashboard/src/pages/ObservationLogs.tsx:77-82 | the initial state is page 0, 10 rows per page, empty term, `'all'`, no dates |
| Views.ViewState.ChangePage | astronomy-dashboard/src/pages/Asteroids.tsx:93-95 | a page change sets `page` and nothing else |
| Views.ViewState.ChangeRowsPerPage | astronomy-dashboard/src/pages/Exoplanets.tsx:93-96 | a rows-per-page change sets `rowsPerPage`, resets `page` to 0, and leaves the criteria alone |
| Views.ViewState.ChangeSearchTerm | astronomy-dashboard/src/pages/ObservationLogs.tsx:159 | a search change sets the term only; `page` and `rowsPerPage` are kept |
| Views.ViewState.ChangeCategoryFilter | astronomy-dashboard/src/pages/ObservationLogs.tsx:94-96 | a telescope/orbit/type change sets the filter only; `page` and `rowsPerPage` are kept |
| Views.ViewState.ChangeStartDate | astronomy-dashboard/src/pages/ObservationLogs.tsx:181 | the start picker sets the start bound only |
| Views.ViewState.ChangeEndDate | astronomy-dashboard/src/pages/ObservationLogs.tsx:186 | the end picker sets the end bound only |
| Views.ViewState.VisibleRows | astronomy-dashboard/src/pages/ObservationLogs.tsx:203-204 | the table body holds exactly `min(rowsPerPage, n - page * rowsPerPage)` rows while `page * rowsPerPage` is below the filtered length `n`; each is a data record that passes; it is empty once `page * rowsPerPage` reaches the filtered length; row i is filtered row `page * rowsPerPage + i` |
| Views.ViewState.PagerCount | astronomy-dashboard/src/pages/ObservationLogs.tsx:219 | the pager count is the number of passing records, at most the data length |
| ObservationLogs.PassesIff | astronomy-dashboard/src/pages/ObservationLogs.tsx:98-106 | a log passes iff (object name OR observer name contains the term) AND (`'all'` or its telescope equals the filter) AND its parsed date is in range |
| ObservationLogs.InvalidStartHidesAll | astronomy-dashboard/src/pages/ObservationLogs.tsx:103 | a start picker holding an invalid date hides every log |
| ObservationLogs.UniqueTelescopes | astronomy-dashboard/src/pages/ObservationLogs.tsx:108 | the telescope menu has no duplicates, holds a telescope iff some log uses it, and lists them in first-use order |
| ObservationLogs.SampleTelescopes | astronomy-dashboard/src/pages/ObservationLogs.tsx:108 | the sample menu is the Celestron, then the Meade |
| ObservationLogs.UniqueObjects | astronomy-dashboard/src/pages/ObservationLogs.tsx:138 | "Unique Objects" is the number of distinct object ids, at most the number of logs |
| ObservationLogs.ActiveObservers | astronomy-dashboard/src/pages/ObservationLogs.tsx:148 | "Active Observers" is the number of distinct user ids, at most the number of logs |
| ObservationLogs.SampleCards | astronomy-dashboard/src/pages/ObservationLogs.tsx:129-148 | on the sample: 3 observations, 3 objects, 2 observers |
| ObservationLogs.SampleDates | astronomy-dashboard/src/pages/ObservationLogs.tsx:103 | the sample dates parse to 15, 14 and 13 March 2024 |
| ObservationLogs.EmptyTermDateOnly | astronomy-dashboard/src/pages/ObservationLogs.tsx:98-106 | with an empty term and `'all'`, a log passes iff its date is in range |
| ObservationLogs.DateRangeMidMarch | astronomy-dashboard/src/pages/ObservationLogs.tsx:103-104 | the range 14 to 15 March 2024 keeps the logs of the 15th and the 14th, not the 13th |
| ObservationLogs.PickMidMarch | astronomy-dashboard/src/pages/ObservationLogs.tsx:177-188 | picking those two dates in a fresh view shows those two logs, and the pager counts 2 |
| ObservationLogs.JohnDoePassesJohn | astronomy-dashboard/src/pages/ObservationLogs.tsx:99-101 | a log by "John Doe" passes the search "john" through the observer name |
| ObservationLogs.PleiadesFailsJohn | astronomy-dashboard/src/pages/ObservationLogs.tsx:99-101 | the Pleiades log by "Jane Smith" fails the search "john" on both fields |
| ObservationLogs.SearchJohn | astronomy-dashboard/src/pages/ObservationLogs.tsx:98-106 | searching "john" gives John Doe's two logs, in order |
| Asteroids.PassesIff | astronomy-dashboard/src/pages/Asteroids.tsx:102-106 | an asteroid passes iff its name contains the term AND (`'all'` or its orbit type equals the filter) |
| Asteroids.OrbitScatter | astronomy-dashboard/src/pages/Asteroids.tsx:112-115 | one point per asteroid, in order, at (perihelion, aphelion), independent of the filter |
| Asteroids.CeresFailsVes | astronomy-dashboard/src/pages/Asteroids.tsx:103 | Ceres fails the search "ves" |
| Asteroids.VestaPassesVes | astronomy-dashboard/src/pages/Asteroids.tsx:103 | Vesta passes the search "ves" |
| Asteroids.ErosFailsVes | astronomy-dashboard/src/pages/Asteroids.tsx:103 | Eros fails the search "ves" |
| Asteroids.SearchVes | astronomy-dashboard/src/pages/Asteroids.tsx:102-106 | searching "ves" gives exactly Vesta |
| Asteroids.EmptyTermOrbitOnly | astronomy-dashboard/src/pages/Asteroids.tsx:104 | with an empty term, an asteroid passes iff the filter is `'all'` or its orbit type |
| Asteroids.OrbitNearEarth | astronomy-dashboard/src/pages/Asteroids.tsx:210 | the orbit filter "Near-Earth" gives exactly Eros |
| Asteroids.OrbitTrojan | astronomy-dashboard/src/pages/Asteroids.tsx:211 | the orbit filter "Trojan", offered in the menu, gives no asteroid |
| Asteroids.SearchKeepsPage | astronomy-dashboard/src/pages/Asteroids.tsx:198 | at one row per page, page 1 shows Vesta; after searching "ves" the page index is kept and the table is blank. One row per page is not among the pager's menu values (5, 10, 25); the scenario shows the handler's behaviour at a size where three asteroids span several pages |
| Galaxies.PassesIff | astronomy-dashboard/src/pages/Galaxies.tsx:94-98 | a galaxy passes iff its name contains the term AND (`'all'` or its type equals the filter) |
| Galaxies.MassDistanceScatter | astronomy-dashboard/src/pages/Galaxies.tsx:104-107 | one point per galaxy, in order, at (log10 distance, log10 mass), independent of the filter |
| Galaxies.EmptyTermTypeOnly | astronomy-dashboard/src/pages/Galaxies.tsx:96 | with an empty term, a galaxy passes iff the filter is `'all'` or its type |
| Galaxies.TypeSpiral | astronomy-dashboard/src/pages/Galaxies.tsx:201 | the type filter "Spiral" gives exactly Andromeda |
| Exoplanets.PassesIff | astronomy-dashboard/src/pages/Exoplanets.tsx:98-101 | a planet passes iff its name OR its host star contains the term |
| Exoplanets.MassPeriodScatter | astronomy-dashboard/src/pages/Exoplanets.tsx:107-110 | one point per planet, in order, at (orbital period, mass), independent of the filter |
| Exoplanets.InitialPages | astronomy-dashboard/src/pages/Exoplanets.tsx:216-217 | in the initial state at 10 rows per page, page 0 shows all three planets and page 1 none |
| Stars.PassesIff | astronomy-dashboard/src/pages/Stars.tsx:94-97 | a star passes iff its name OR its spectral type contains the term |
| Stars.HertzsprungRussell | astronomy-dashboard/src/pages/Stars.tsx:103-106 | one point per star, in order, at (log10 temperature, log10 luminosity), independent of the filter |
| Stars.SunPassesG2 | astronomy-dashboard/src/pages/Stars.tsx:96 | the Sun passes "g2" through its spectral type G2V |
| Stars.SiriusFailsG2 | astronomy-dashboard/src/pages/Stars.tsx:94-97 | Sirius A fails "g2" on both fields |
| Stars.BetelgeuseFailsG2 | astronomy-dashboard/src/pages/Stars.tsx:94-97 | Betelgeuse fails "g2" on both fields |
| Stars.SearchG2 | astronomy-dashboard/src/pages/Stars.tsx:94-97 | searching "g2" gives exactly the Sun |
| SpectralData.PassesIff | astronomy-dashboard/src/pages/SpectralData.tsx:90-92 | a measurement passes iff its object name contains the term |
| SpectralData.SpectrumChart | astronomy-dashboard/src/pages/SpectralData.tsx:94-99 | labels and series have one entry per measurement, equal lengths, and the i-th intensity pairs with the i-th wavelength |
| SpectralData.UniqueObjects | astronomy-dashboard/src/pages/SpectralData.tsx:157 | "Unique Objects" is the number of distinct object ids, at most the number of measurements |
| SpectralData.RecordingDays | astronomy-dashboard/src/pages/SpectralData.tsx:169 | "Date Range" is the number of distinct recording dates, at most the number of measurements |
| SpectralData.SampleCards | astronomy-dashboard/src/pages/SpectralData.tsx:146-169 | on the sample: 3 measurements, 1 object, 1 day |
| SpectralData.SunMatchesUpperCase | astronomy-dashboard/src/pages/SpectralData.tsx:91 | the search ignores case: "SUN" is found in "Sun" |
| SpectralData.SearchUpperCaseSun | astronomy-dashboard/src/pages/SpectralData.tsx:90-92 | searching "SUN" keeps every measurement |
| SpectralData.SunLacksMoon | astronomy-dashboard/src/pages/SpectralData.tsx:91 | "moon" is not found in "Sun" |
| SpectralData.SearchMoon | astronomy-dashboard/src/pages/SpectralData.tsx:90-92 | searching "moon" empties the table |
| CelestialObjects.PassesIff | astronomy-dashboard/src/pages/CelestialObjects.tsx:67-71 | an object passes iff its name contains the term AND (`'all'` or its type equals the filter) |
| CelestialObjects.EmptyTermTypeOnly | astronomy-dashboard/src/pages/CelestialObjects.tsx:69 | with an empty term, an object passes iff the filter is `'all'` or its type |
| CelestialObjects.MenuSelectsOne | astronomy-dashboard/src/pages/CelestialObjects.tsx:95-98 | each type in the menu after "All Types" selects exactly the one sample object of that type |
| CelestialObjects.TypeFilterIsCaseSensitive | astronomy-dashboard/src/pages/CelestialObjects.tsx:69 | the type comparison is exact: "star" selects no object |

## Left out

- Floating-point statistics and formatting are not modelled: averages via `reduce`/`length`, `Math.round`, `toFixed`, `toExponential` and `toLocaleString`. This includes the stars' rounded average temperature and the galaxies' average mass and distance. Record fields are `real`s and play no part in a proof beyond chart coordinates.
- Galaxies.MassDistanceScatter, Stars.HertzsprungRussell: `Math.log10` is a parameter function. The model proves only the number, order and source of the points, not their values.
- Text.Lower: `toLowerCase` is modelled on ASCII letters only. Unicode case mapping, including letters whose lower-case form has another length, is not modelled.
- Dates.ParseIsoDate: `new Date(s)` is modelled for the date-only shape `YYYY-MM-DD` with a four-digit year; every other string reads as an invalid date. JavaScript also accepts other shapes, for example the expanded six-digit year form `+YYYYYY-MM-DD` or `-YYYYYY-MM-DD`.
- Dates.ParseIsoDate: a correctly shaped day past the end of its month, such as "2024-02-30", reads as an invalid date in the model, whereas the V8 engine rolls it over into the next month (1 March 2024). The model's answer is the stricter one; the sample data holds no such date.
- Dates.DayNumber is an order-preserving day number, not a count of milliseconds since the epoch. Only comparisons between dates matter to the filter.
- Time zones are not modelled; the model compares whole days, which is what the page does only when the browser's time zone is UTC. In JavaScript a date-only string such as a log's `dateObserved` is read as UTC midnight, while a date picker produces local midnight, so the two differ in every other zone.
  - West of UTC a picked start bound lies after the UTC midnight of its own day, so the start bound misses the logs of that day. At UTC-5 the range 14 to 15 March 2024 keeps only the log of 15 March.
  - East of UTC a picked end bound lies before the UTC midnight of its own day, so the end bound misses the logs of that day. At UTC+1 the same range keeps only the log of 14 March.
  - Dates.InRangeBothSet, ObservationLogs.DateRangeMidMarch and ObservationLogs.PickMidMarch therefore describe the page as it behaves in UTC.
- Views.ViewState.ChangeRowsPerPage takes the parsed number. `parseInt(event.target.value, 10)` on the menu's option values (5, 10, 25) is not modelled.
- `TablePagination`'s own behaviour is part of the MUI library and not of this model. This covers clamping an out-of-range page and the rows-per-page menu, along with all other rendering: tables, cards, selects, and the Chart.js registration and options.
- The "New Observation" dialog (astronomy-dashboard/src/pages/ObservationLogs.tsx:228-253) is a stub with no save path and is left out, as is the `openDialog` flag.
- astronomy-dashboard/src/components/Layout.tsx, astronomy-dashboard/src/App.tsx and astronomy-dashboard/src/pages/Dashboard.tsx hold only navigation, routing, theming and fixed display numbers; they are not part of this model.
- A distinct count of galaxy types is not modelled, because no galaxy page computes one.
- The mean-temperature value 6439 for the sample stars is not modelled, because the code computes it in floating point (see the first line).
- The "Total" cards are `sampleData.length`, which is the `|SampleData|` conjunct of the `SampleCards` lemmas. Asteroids, galaxies, exoplanets and stars have no distinct-count cards.
