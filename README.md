# MaxMind GeoIP lookup step: field selection and row projection

This Dafny project models the engine of the Kettle (Pentaho Data Integration) MaxMind GeoIP lookup step, `MaxMindDatabase` and its five variants. It covers:

- the field catalogs of the Country, City, ISP, Organization and Domain databases (the enums `CountryFields`, `CityFields`, `IspFields`, `OrgFields` and `DomainFields`), with their names, metadata and extractors (`getVal`);
- selecting fields by name (`setSelectedFields`, one and three arguments), with `valueOf` semantics, including `null` names and unknown names;
- `getSelectedFields`, `getAllFields`, `getFieldNames`;
- the display-name rule of `getFields`: an override name wins unless it is `null` or empty;
- `getRowData`, which writes one value per selected field into the caller's `Object[]` row from `firstNewFieldIndex`. It uses the field's default when the extractor yields `null`. On "address not found" it behaves differently per kind. The exceptions it raises are modelled: null selection entries, null and short default arrays, a row that is too small, `getVal(null)`, and the unboxing of a missing latitude or longitude. A `null` output row is not (see "Left out").

Structure:

- `wrappers.dfy`: `Option`, `Result`, `Outcome`.
- `objects.dfy`: Java values and exceptions. `JString` is a string that may be `null`. `Value` is what a row slot can hold. `Run` gives the meaning of a Java loop whose steps may throw: the values produced before the first exception, then that exception.
- `responses.dfy`: the GeoIP2 responses the extractors read, and the outcome of one lookup (`Found`, `NotFound`, `Failed`).
- `fields.dfy`: the catalogs, `getVal`, `values()` and `valueOf`.
- `selection.dfy`: what `setSelectedFields` stores, and the columns `getFields` registers.
- `projection.dfy`: what `getRowData` writes and how it ends, as functions, plus the properties of those functions.
- `database.dfy`: the class `MaxMindDatabase`. Its fields are `selectedFields` (an array), `defaultValues` and `overrideFieldNames`. Its methods are the Java methods, written as loops over the arrays and proved against the functions above. The five Java subclasses become one class whose immutable `kind` fixes the catalog. `Valid()` records what Java's static typing guarantees: every selected constant belongs to that catalog.
- `scenarios.dfy`: the repository's unit tests, replayed on the model, plus a few concrete edge cases.

Java `null` is explicit throughout:

- `Option` strings and arrays.
- `selectedFields` entries may be `null`. Java assigns the new array before filling it, so a name that throws leaves the rest of the array `null`.

Java's evaluation order is kept. In `outputRow[firstNewFieldIndex++] = (o == null) ? defaultValues[i] : o`, the right-hand side is evaluated before the row index is checked. So a failing default beats an out-of-bounds row.

The Javadoc of the three-argument `setSelectedFields` promises more than the code does; the model follows the code:

- **Defaults** (line 72: the default is the "value to return if the IP addr is not found or the data is empty").
  - Address not found, City and Country: every element of the default array is written, however many fields are selected. With `null` defaults the call throws `NullPointerException`.
  - Address not found, ISP, Organization and Domain: `getVal(null)` throws `NullPointerException` as soon as one field is selected, whatever the defaults.
  - Empty data, latitude and longitude: the `(double)` cast at lines 225 and 230-231 unboxes the coordinate, so a result without a location or without that coordinate throws `NullPointerException` instead of using the default. Only the text fields fall back to their default.
- **Override names** (lines 70-71: "Null or empty values will return the name of the enum"). The code agrees: it uses `Const.isEmpty`, which rejects only `null` and `""`, so an override of spaces is used as the name.
- **`getFieldNames`.** It returns the catalog's own names (`toString()`), not display names.

## Model

| member | source | states |
|---|---|---|
| Objects.RunSpec | src/main/java/com/maxmind/geoip/MaxMindDatabase.java:262-264 | a loop of steps that may throw produces the values of the longest prefix of steps that succeeded, in order, then stops with the exception of the first failing step or finishes without one |
| Objects.RunStopsAt | src/main/java/com/maxmind/geoip/MaxMindDatabase.java:288-291 | a loop whose first i steps succeeded and whose step i throws (or which has only i steps) produced exactly those i values and ends with that exception (or none) |
| Objects.RunPasses | src/main/java/com/maxmind/geoip/MaxMindDatabase.java:288-291 | a loop whose first i+1 steps succeeded produced at least i+1 values, those first |
| Fields.AllFields | src/main/java/com/maxmind/geoip/MaxMindDatabase.java:273-275 | `values()` lists every constant of the kind's enum, no constant of another enum, and none twice |
| Fields.Name | src/main/java/com/maxmind/geoip/MaxMindDatabase.java:197-238 | defines each constant's `name()`: the identifier of the enum constant |
| Fields.Meta | src/main/java/com/maxmind/geoip/MaxMindDatabase.java:197-238 | defines each constant's declared value type, length and precision |
| Fields.Unboxed | src/main/java/com/maxmind/geoip/MaxMindDatabase.java:225 | defines the `(double)` cast of a boxed coordinate: a missing one throws NullPointerException, a present one is returned as a number |
| Fields.GetVal | src/main/java/com/maxmind/geoip/MaxMindDatabase.java:197-238 | an extractor yields nothing (Java `null`), a non-null value, or NullPointerException; the value is a number exactly for the fields declared `TYPE_NUMBER` (latitude, longitude); those two never yield `null`, and they are the only extractors that throw, by unboxing a missing coordinate |
| Fields.FindByName | src/main/java/com/maxmind/geoip/MaxMindDatabase.java:263 | the search behind `valueOf` returns a constant of the list with exactly that name, or nothing when no constant of the list has that name |
| Fields.ValueOf | src/main/java/com/maxmind/geoip/MaxMindDatabase.java:263 | `valueOf(name)` returns a constant of the kind's enum with exactly that name; a `null` name throws NullPointerException and any other failure is IllegalArgumentException for that name |
| Fields.UnknownNameIsNoFieldName | src/main/java/com/maxmind/geoip/MaxMindDatabase.java:339 | `valueOf` rejects a name if and only if no constant of the enum has that name, so an unknown name is never mapped to another field |
| Fields.NameIdentifies | src/main/java/com/maxmind/geoip/MaxMindDatabase.java:197-238 | within one enum, two constants with the same name are the same constant |
| Fields.ValueOfName | src/main/java/com/maxmind/geoip/MaxMindDatabase.java:409 | `valueOf(c.name())` is `c` for every constant of every enum |
| Fields.CatalogSizes | src/test/java/com/maxmind/geoip/MaxMindDatabaseTest.java:50-98 | the catalogs have 2 (Country), 8 (City) and 1 (ISP, Organization, Domain) fields |
| Selection.SelectedArray | src/main/java/com/maxmind/geoip/MaxMindDatabase.java:260-265 | defines the array the setter stores: as long as the name list (empty for `null`), the resolved constants up to the first name that does not resolve, `null` from there on |
| Selection.SelectOutcome | src/main/java/com/maxmind/geoip/MaxMindDatabase.java:260-265 | defines how the setter ends: normally, or with the exception of the first name that does not resolve |
| Selection.SelectionStopsAt | src/main/java/com/maxmind/geoip/MaxMindDatabase.java:260-265 | an array holding the first i resolved constants and `null` after them is the stored selection once name i failed to resolve (or all resolved), and the setter ends with that name's exception (or normally) |
| Selection.SelectNamesOf | src/test/java/com/maxmind/geoip/MaxMindDatabaseTest.java:159-172 | selecting the names of constants of the kind's enum, in any order and with repeats, selects exactly those constants in that order and does not throw |
| Selection.SelectionResolvesInOrder | src/main/java/com/maxmind/geoip/MaxMindDatabase.java:260-265 | a `null` name list gives the empty selection; otherwise the selection is as long as the list; the setter completes if and only if every name resolves, and then entry i is the constant named `names[i]`; otherwise it throws the exception of the first name that does not resolve |
| Selection.SelectedArrayOfKind | src/main/java/com/maxmind/geoip/MaxMindDatabase.java:407-410 | every non-null entry of a stored selection is a constant of the descriptor's own enum |
| Selection.DisplayName | src/main/java/com/maxmind/geoip/MaxMindDatabase.java:118 | defines the column name: the override name unless `Const.isEmpty` holds of it (`null` or `""`), the constant's own name otherwise |
| Selection.ColumnAt | src/main/java/com/maxmind/geoip/MaxMindDatabase.java:117-120 | defines the column of one selected field: a `null` entry, `null` overrides or too few overrides throw; otherwise the field's metadata, its display name and the origin |
| Selection.DisplayNameRule | src/main/java/com/maxmind/geoip/MaxMindDatabase.java:114-122 | with no null entry and enough override names, `getFields` adds one column per selected field, in order, with the field's metadata and the origin, named by the override unless it is `null` or empty and by the field's own name otherwise |
| Projection.SlotValue | src/main/java/com/maxmind/geoip/MaxMindDatabase.java:289-290 | defines the value of slot i: a `null` entry or response and an unboxed missing coordinate throw NullPointerException; otherwise the extracted value, or `defaultValues[i]` when the extractor yields `null` (NullPointerException for null defaults, ArrayIndexOutOfBoundsException for short ones) |
| Projection.DefaultsRow | src/main/java/com/maxmind/geoip/MaxMindDatabase.java:292-295 | defines the values of the City and Country not-found loop: every default in order, or NullPointerException for null defaults |
| Projection.RowValues | src/main/java/com/maxmind/geoip/MaxMindDatabase.java:277-296 | defines the values `getRowData` computes and the exception it reaches before any bounds check: the reader's exception, the defaults (City, Country not found), or the per-field loop on the result (or on `null` for the other kinds) |
| Projection.Fit | src/main/java/com/maxmind/geoip/MaxMindDatabase.java:290 | the number of writes from `offset` that land in a row of the given length is at most the number attempted, the writes that land stay inside the row, and the first one that does not land is out of bounds |
| Projection.Emit | src/main/java/com/maxmind/geoip/MaxMindDatabase.java:288-291 | writing the computed values from `offset` changes only the slots that fit, each to its value; the call completes if and only if every value was computed and fits; an index outside the row throws ArrayIndexOutOfBoundsException; otherwise the loop's own exception is thrown |
| Projection.EmitRowFrom | src/main/java/com/maxmind/geoip/MaxMindDatabase.java:288-291 | a row that holds the prefix of the values that fits inside the window, and the old contents outside it, is the row `Emit` describes |
| Projection.FoundExtractsOrDefaults | src/main/java/com/maxmind/geoip/MaxMindDatabase.java:286-291 | for a found result, when no extractor throws and every slot whose extractor yields `null` has a default, every slot i gets the extracted value if there is one and `defaultValues[i]` otherwise, with no exception; defaults may be `null` when never needed |
| Projection.FoundMissingDefaultFails | src/main/java/com/maxmind/geoip/MaxMindDatabase.java:361-366 | for a found result, the first slot whose extractor yields `null` and that has no default stops the row after the values of the slots before it, with NullPointerException (null defaults) or ArrayIndexOutOfBoundsException (defaults too short) |
| Projection.FoundCoordinateMissingFails | src/main/java/com/maxmind/geoip/MaxMindDatabase.java:223-231 | for a found result, a selected latitude or longitude that the result lacks stops the row with NullPointerException after the values of the slots before it, whatever the defaults |
| Projection.NotFoundWritesDefaults | src/main/java/com/maxmind/geoip/MaxMindDatabase.java:367-371 | City and Country, address not found: the values are the defaults in order, however many fields are selected, or NullPointerException when there are no defaults |
| Projection.NotFoundWindow | src/main/java/com/maxmind/geoip/MaxMindDatabase.java:292-295 | City and Country, address not found, with room in the row: exactly the `|defaults|` slots from `offset` receive the defaults, every other slot is unchanged, and the call completes |
| Projection.NotFoundGetValNullFails | src/main/java/com/maxmind/geoip/MaxMindDatabase.java:426-435 | ISP, Organization and Domain, address not found: NullPointerException with nothing written when a field is selected, and nothing written and no exception when none is |
| Projection.WrittenWindow | src/main/java/com/maxmind/geoip/MaxMindDatabase.java:56-58 | with every value computed and a row that has room from `offset`, the new row is the old one with exactly the window `[offset, offset + n)` replaced by the values |
| Projection.EmitIdempotent | src/main/java/com/maxmind/geoip/MaxMindDatabase.java:288-291 | writing the same values again over the row a call left changes nothing and ends the same way |
| Database.MaxMindDatabase.constructor | src/main/java/com/maxmind/geoip/MaxMindDatabase.java:257 | a new descriptor has an empty selection and no defaults or overrides |
| Database.MaxMindDatabase.SelectFields | src/main/java/com/maxmind/geoip/MaxMindDatabase.java:260-265 | the selection is replaced by a new array that holds the names' resolutions in order (null after a failing name), the setter throws that name's exception, and defaults and overrides are untouched |
| Database.MaxMindDatabase.SetSelectedFields | src/main/java/com/maxmind/geoip/MaxMindDatabase.java:74-78 | the stored defaults and overrides become the given ones, and the selection is replaced as by the one-argument setter |
| Database.MaxMindDatabase.GetSelectedFields | src/main/java/com/maxmind/geoip/MaxMindDatabase.java:268-270 | returns the stored selection array itself, not a copy |
| Database.MaxMindDatabase.GetFieldNames | src/main/java/com/maxmind/geoip/MaxMindDatabase.java:98-107 | returns a new array with the names of all catalog fields in declaration order, whatever is selected |
| Database.MaxMindDatabase.GetFields | src/main/java/com/maxmind/geoip/MaxMindDatabase.java:114-122 | appends to the row metadata the columns of the selected fields, in order, until the first exception (a null entry, null overrides, or too few overrides), which it then throws |
| Database.MaxMindDatabase.GetRowData | src/main/java/com/maxmind/geoip/MaxMindDatabase.java:277-297 | the row and the outcome are exactly as `Emit` describes for the values the descriptor's kind computes from its selection, its defaults and the lookup outcome |
| Database.MaxMindDatabase.WriteSlots | src/main/java/com/maxmind/geoip/MaxMindDatabase.java:562-565 | the per-field loop writes, from `offset`, the extracted value or the default of each selected field in turn, stopping at the first exception or the first index outside the row |
| Database.MaxMindDatabase.WriteDefaults | src/main/java/com/maxmind/geoip/MaxMindDatabase.java:367-371 | the not-found loop writes every default in turn from `offset`, stopping at the first index outside the row; null defaults throw at once |
| Database.FillSelection | src/main/java/com/maxmind/geoip/MaxMindDatabase.java:536-539 | filling the new all-null array by `valueOf` in order leaves exactly the stored selection the setter promises, and the setter's outcome |
| Scenarios.CountryFound | src/test/java/com/maxmind/geoip/MaxMindDatabaseTest.java:124-127 | the Country test's result with both fields selected and no defaults gives "TC" and "TestCountry" and no exception |
| Scenarios.SelectConstants | src/test/java/com/maxmind/geoip/MaxMindDatabaseTest.java:119-122 | selecting constants through their `name()` stores exactly those constants and does not throw |
| Scenarios.ProjectCountry | src/test/java/com/maxmind/geoip/MaxMindDatabaseTest.java:124-133 | projecting the Country test's result writes "TC" and "TestCountry" at `offset` and `offset + 1` and nothing else |
| Scenarios.CountryScenario | src/test/java/com/maxmind/geoip/MaxMindDatabaseTest.java:105-134 | the Country test: a `null` selection is empty, both fields are selected in order, a 2-slot row becomes ["TC", "TestCountry"], and a 10-slot row gets them at slots 5 and 6 with every other slot untouched |
| Scenarios.ReselectionReplaces | src/main/java/com/maxmind/geoip/MaxMindDatabase.java:74-78 | a second selection replaces the first rather than adding to it, and the three-argument setter replaces the defaults |
| Scenarios.CityFound | src/test/java/com/maxmind/geoip/MaxMindDatabaseTest.java:175-184 | the City test's complete result gives the eight expected values in selection order, whatever the defaults |
| Scenarios.ProjectCity | src/test/java/com/maxmind/geoip/MaxMindDatabaseTest.java:186-195 | projecting the City test's result writes the eight values from `offset` and nothing else |
| Scenarios.CityScenario | src/test/java/com/maxmind/geoip/MaxMindDatabaseTest.java:137-196 | the City test: eight names selected in the test's order give the eight constants; an 8-slot row becomes the expected values; a 13-slot row gets them from slot 5 |
| Scenarios.CityWithoutSubdivision | src/main/java/com/maxmind/geoip/MaxMindDatabase.java:208-238 | a located City result without subdivision and time zone defaults exactly the region and time-zone slots and keeps the extracted country, city and coordinate values |
| Scenarios.CityWithoutLocation | src/main/java/com/maxmind/geoip/MaxMindDatabase.java:223-236 | a City result without location fills the five text slots and the time-zone default, then throws NullPointerException at the latitude slot |
| Scenarios.CountryNotFound | src/main/java/com/maxmind/geoip/MaxMindDatabase.java:358-371 | a Country address that is not found, with defaults ["??", "Unknown"], writes those two defaults at `offset` and completes |
| Scenarios.OrganizationReadsIspResult | src/main/java/com/maxmind/geoip/MaxMindDatabase.java:381-383 | an ISP-shaped result with only an organization gives the Organization catalog its value, while the ISP catalog's `isp_name` finds nothing and, without defaults, throws NullPointerException |
| Scenarios.IspAndDomainFound | src/test/java/com/maxmind/geoip/MaxMindDatabaseTest.java:211-239 | the ISP and Domain tests' results give "FooBar Communications" and "TestDomain.com" |
| Scenarios.IspNotFoundRaises | src/main/java/com/maxmind/geoip/MaxMindDatabase.java:429-435 | an ISP address that is not found throws NullPointerException even with defaults set |
| Scenarios.UnknownNameRaises | src/main/java/com/maxmind/geoip/MaxMindDatabase.java:336-341 | a City field name given to the Country setter throws IllegalArgumentException for that name after storing the names before it; a `null` first name throws NullPointerException and stores nothing |

## Left out

- Loading the database and the reader: `setDbLocation`, `KettleVFS`, `DatabaseReader`, `CHMCache` and `getLookupService` (lines 131-135 and 170-172 of `MaxMindDatabase.java`). These are file I/O and a foreign library. Each lookup is a parameter `Lookup`: a response, "address not found", or an exception the reader throws.
- IP parsing: `getAddressFromIpV4` delegates to Guava's `InetAddresses.forString` (lines 166-168). An address it rejects is the lookup outcome `Failed(InvalidAddress)`. The commented-out IPv4 parser at lines 146-165 is dead code.
- Kettle metadata: `ValueMetaFactory.createValueMeta`, and the `null` metadata left when it fails (lines 242-248). Kettle normalises string precision 0 to -1, as the tests show. The model keeps type, length and precision as declared (0).
- `getFields` renames and re-registers the enum constant's shared `ValueMetaInterface` object. Two descriptors that select the same constant share it. The model appends a fresh `Column` value instead.
- Floating point: coordinates are Dafny `real` values that are only copied, never rounded. A present coordinate is unboxed and boxed again unchanged; a missing one throws, as stated above.
- GeoIP2 response internals: every record and sub-field is an `Option`, and an absent record yields no value, except that a missing location makes the coordinate extractors throw.
- Aliasing of the caller's arrays: the three-argument setter stores references to the caller's `defaultValues` and `overrideFieldNames` arrays (lines 75-76). The model stores their contents, so a later change by the caller to those arrays is not reflected.
- A `null` output row: Java throws NullPointerException at the first write, after that slot's value has been computed, and nothing when no slot is written. The model's row is a non-null `array`, so this case is not modelled.
- Database.MaxMindDatabase.GetRowData: requires that a found response has the shape of the descriptor's kind. In Java the reader method each subclass calls (`city`, `country`, `isp`, `domain`) guarantees this by its return type.
- The type of `Object[]` slots: the model's `Value` is `null`, a string or a number. That is everything `getRowData` writes.
- Java `int` wrap-around of `firstNewFieldIndex++`: the index is unbounded in the model. In Java it can wrap only after a write attempted at `Integer.MAX_VALUE`, which always throws ArrayIndexOutOfBoundsException first because no array is that long, so the unbounded index gives the same row and the same outcome.
- Concurrency and thread safety of the shared reader.
