/**
 * Concrete scenarios for the descriptor, following the unit tests of the
 * repository: select fields by name, then project a found lookup result
 * into a fresh row and into a wider row at an offset.
 */
module Scenarios {
  import opened Wrappers
  import opened Objects
  import opened Responses
  import opened Fields
  import opened Selection
  import opened Projection
  import opened Database

  /** The Country test's lookup result: ISO code "TC", name "TestCountry". */
  function TestCountry(): Response
  {
    CountryAnswer(CountryResponse(Some(CountryRecord(Some("TC"), Some("TestCountry")))))
  }

  /** With the test's result and no defaults, both Country slots are extracted. */
  lemma CountryFound()
    ensures RowValues(CountryDb, [Some(CountryCountryCode), Some(CountryCountryName)], None, Found(TestCountry())) ==
      Partial([Text("TC"), Text("TestCountry")], None)
  {
  }

  /** `setSelectedFields` with the names of the given constants of the descriptor's kind, as the tests pass them. */
  method SelectConstants(db: MaxMindDatabase, fs: seq<Field>) returns (outcome: Outcome<Error>)
    requires forall i :: 0 <= i < |fs| ==> KindOf(fs[i]) == db.kind
    modifies db
    ensures outcome == Pass && db.Valid()
    ensures db.selectedFields[..] == seq(|fs|, i requires 0 <= i < |fs| => Some(fs[i]))
    ensures db.defaultValues == old(db.defaultValues)
  {
    SelectNamesOf(db.kind, fs);
    outcome := db.SelectFields(Some(NamesOf(fs)));
  }

  /** `getRowData` of a Country descriptor selecting both fields, without defaults, on the test's result. */
  method ProjectCountry(db: MaxMindDatabase, row: array<Value>, offset: nat) returns (outcome: Outcome<Error>)
    requires db.kind == CountryDb && db.defaultValues.None?
    requires db.selectedFields[..] == [Some(CountryCountryCode), Some(CountryCountryName)]
    requires offset + 2 <= row.Length
    modifies row
    ensures outcome == Pass
    ensures row[..] == old(row[..])[..offset] + [Text("TC"), Text("TestCountry")] + old(row[..])[offset + 2..]
  {
    CountryFound();
    WrittenWindow(row[..], offset, Partial([Text("TC"), Text("TestCountry")], None));
    outcome := db.GetRowData(row, offset, Found(TestCountry()));
  }

  /**
   * The Country test: selecting `null` empties the selection; selecting both
   * names gives both constants in order; without defaults, a found result
   * fills a two-slot row, and the slots 5 and 6 of a ten-slot row.
   */
  method CountryScenario() returns (emptied: nat, selected: seq<FieldRef>, first: seq<Value>, second: seq<Value>)
    ensures emptied == 0
    ensures selected == [Some(CountryCountryCode), Some(CountryCountryName)]
    ensures first == [Text("TC"), Text("TestCountry")]
    ensures second == [Null, Null, Null, Null, Null] + [Text("TC"), Text("TestCountry")] + [Null, Null, Null]
  {
    var db := new MaxMindDatabase(CountryDb);
    var outcome := db.SelectFields(None);
    var fields := db.GetSelectedFields();
    emptied := fields.Length;

    outcome := SelectConstants(db, [CountryCountryCode, CountryCountryName]);
    fields := db.GetSelectedFields();
    selected := fields[..];

    var row := new Value[2](_ => Null);
    outcome := ProjectCountry(db, row, 0);
    first := row[..];

    var wide := new Value[10](_ => Null);
    ghost var blank := wide[..];
    assert blank[..5] == [Null, Null, Null, Null, Null] && blank[7..] == [Null, Null, Null];
    outcome := ProjectCountry(db, wide, 5);
    second := wide[..];
  }

  /**
   * A second `setSelectedFields` replaces the first selection instead of
   * adding to it, and the three-argument form replaces the stored defaults
   * and overrides as well.
   */
  method ReselectionReplaces() returns (selected: seq<FieldRef>, defaults: Option<seq<JString>>)
    ensures selected == [Some(CountryCountryName)]
    ensures defaults == Some([Some("n/a")])
  {
    var db := new MaxMindDatabase(CountryDb);
    var outcome := db.SetSelectedFields(Some(NamesOf([CountryCountryCode, CountryCountryName])), None, Some([Some("??"), Some("Unknown")]));
    SelectNamesOf(CountryDb, [CountryCountryName]);
    outcome := db.SetSelectedFields(Some(NamesOf([CountryCountryName])), None, Some([Some("n/a")]));
    selected := db.selectedFields[..];
    defaults := db.defaultValues;
  }

  /** The City test's lookup result: US / New York / TestCity, coordinates and time zone. */
  function TestCity(): Response
  {
    CityAnswer(CityResponse(
      Some(CountryRecord(Some("US"), Some("United States"))),
      Some(SubdivisionRecord(Some("NY"), Some("New York"))),
      Some(CityRecord(Some("TestCity"))),
      Some(LocationRecord(Some(128.001), Some(45.123), Some("America/New_York")))))
  }

  /** The values the City test expects, in selection order. */
  function CityValues(): seq<Value>
  {
    [Text("US"), Text("United States"), Text("NY"), Text("New York"),
     Text("TestCity"), Text("America/New_York"), Decimal(128.001), Decimal(45.123)]
  }

  /** The City test's constants, in its selection order (time zone before the coordinates). */
  function CityConstants(): seq<Field>
  {
    [CityCountryCode, CityCountryName, CityRegionCode, CityRegionName,
     CityCityName, CityTimezone, CityLatitude, CityLongitude]
  }

  /** The City test's selection: its constants, each stored as a non-null entry. */
  function CitySelection(): seq<FieldRef>
  {
    var fs := CityConstants();
    seq(|fs|, i requires 0 <= i < |fs| => Some(fs[i]))
  }

  /** Every City extractor finds its value in the test's result. */
  lemma CityExtracts()
    ensures forall i :: 0 <= i < 8 ==> GetVal(CitySelection()[i].value, TestCity()) == Ok(Some(CityValues()[i]))
  {
  }

  /** With the test's complete result, every City slot is extracted, whatever the defaults. */
  lemma CityFound(defaults: Option<seq<JString>>)
    ensures RowValues(CityDb, CitySelection(), defaults, Found(TestCity())) == Partial(CityValues(), None)
  {
    CityExtracts();
    FoundExtractsOrDefaults(CityDb, CitySelection(), defaults, TestCity());
  }

  /** `getRowData` of a City descriptor with the test's selection, on the test's result. */
  method ProjectCity(db: MaxMindDatabase, row: array<Value>, offset: nat) returns (outcome: Outcome<Error>)
    requires db.kind == CityDb && db.selectedFields[..] == CitySelection()
    requires offset + 8 <= row.Length
    modifies row
    ensures outcome == Pass
    ensures row[..] == old(row[..])[..offset] + CityValues() + old(row[..])[offset + 8..]
  {
    CityFound(db.defaultValues);
    WrittenWindow(row[..], offset, Partial(CityValues(), None));
    outcome := db.GetRowData(row, offset, Found(TestCity()));
  }

  /**
   * The City test: eight names selected in the test's order, then the
   * found result projected into an eight-slot row and into slots 5 to 12
   * of a thirteen-slot row.
   */
  method CityScenario() returns (selected: seq<FieldRef>, first: seq<Value>, second: seq<Value>)
    ensures selected == CitySelection()
    ensures first == CityValues()
    ensures second == [Null, Null, Null, Null, Null] + CityValues()
  {
    var db := new MaxMindDatabase(CityDb);
    var outcome := db.SelectFields(None);
    outcome := SelectConstants(db, CityConstants());
    assert db.selectedFields[..] == CitySelection();
    var fields := db.GetSelectedFields();
    selected := fields[..];

    var row := new Value[8](_ => Null);
    outcome := ProjectCity(db, row, 0);
    first := row[..];

    var wide := new Value[13](_ => Null);
    ghost var blank := wide[..];
    assert blank[..5] == [Null, Null, Null, Null, Null];
    outcome := ProjectCity(db, wide, 5);
    second := wide[..];
  }

  /** A City result for an address outside any subdivision, located but without a time zone. */
  function CityOutsideSubdivision(): Response
  {
    CityAnswer(CityResponse(
      Some(CountryRecord(Some("US"), Some("United States"))), None,
      Some(CityRecord(Some("TestCity"))),
      Some(LocationRecord(Some(40.5), Some(-74.25), None))))
  }

  /** On that result, the region and time-zone extractors find nothing; the others find their value. */
  lemma CityOutsideSubdivisionExtracts()
    ensures forall i :: 0 <= i < 8 ==>
      GetVal(CitySelection()[i].value, CityOutsideSubdivision()) ==
        Ok(if i == 0 then Some(Text("US")) else if i == 1 then Some(Text("United States"))
           else if i == 4 then Some(Text("TestCity")) else if i == 6 then Some(Decimal(40.5))
           else if i == 7 then Some(Decimal(-74.25)) else None)
  {
  }

  /**
   * On that result, the region and time-zone slots take their defaults and
   * the other slots keep the extracted values; the defaults need only reach
   * the time-zone slot.
   */
  lemma CityWithoutSubdivision(defaults: seq<JString>)
    requires 6 <= |defaults|
    ensures var p := RowValues(CityDb, CitySelection(), Some(defaults), Found(CityOutsideSubdivision()));
      p.failure.None? &&
      p.done == [Text("US"), Text("United States"), FromJString(defaults[2]), FromJString(defaults[3]),
                 Text("TestCity"), FromJString(defaults[5]), Decimal(40.5), Decimal(-74.25)]
  {
    CityOutsideSubdivisionExtracts();
    FoundExtractsOrDefaults(CityDb, CitySelection(), Some(defaults), CityOutsideSubdivision());
  }

  /** The City test's result without its location record. */
  function CityUnlocated(): Response
  {
    CityAnswer(CityResponse(
      Some(CountryRecord(Some("US"), Some("United States"))),
      Some(SubdivisionRecord(Some("NY"), Some("New York"))),
      Some(CityRecord(Some("TestCity"))), None))
  }

  /** On that result, the text extractors before the coordinates find their value except the time zone. */
  lemma CityUnlocatedExtracts()
    ensures forall i :: 0 <= i < 6 ==>
      GetVal(CitySelection()[i].value, CityUnlocated()) == Ok(if i == 5 then None else Some(CityValues()[i]))
  {
  }

  /**
   * On a City result without location, the first six slots are filled (the
   * time zone from its default) and the latitude slot then raises
   * NullPointerException, whatever the defaults hold for it.
   */
  lemma CityWithoutLocation(defaults: seq<JString>)
    requires 6 <= |defaults|
    ensures var p := RowValues(CityDb, CitySelection(), Some(defaults), Found(CityUnlocated()));
      p.failure == Some(NullPointer) &&
      p.done == CityValues()[..5] + [FromJString(defaults[5])]
  {
    CityUnlocatedExtracts();
    FoundCoordinateMissingFails(CityDb, CitySelection(), Some(defaults), CityUnlocated(), 6);
  }

  /**
   * The Country test's descriptor with defaults `["??", "Unknown"]` and an
   * address that is not found: the defaults fill the window.
   */
  lemma CountryNotFound(row: seq<Value>, offset: nat)
    requires offset + 2 <= |row|
    ensures Emit(row, offset, RowValues(CountryDb, [Some(CountryCountryCode), Some(CountryCountryName)],
        Some([Some("??"), Some("Unknown")]), NotFound)) ==
      Emitted(row[..offset] + [Text("??"), Text("Unknown")] + row[offset + 2..], Pass)
  {
  }

  /**
   * The Organization test: the ISP-shaped result carries only an
   * organization, which is what `organization_name` reads; the ISP
   * catalog's `isp_name` on the same result finds nothing and needs a default.
   */
  lemma OrganizationReadsIspResult()
    ensures var r := IspAnswer(IspResponse(None, Some("ACME Corporation")));
      RowValues(OrgDb, [Some(OrganizationName)], None, Found(r)) == Partial([Text("ACME Corporation")], None) &&
      RowValues(IspDb, [Some(IspName)], None, Found(r)) == Partial([], Some(NullPointer))
  {
  }

  /** The ISP and Domain tests: the single selected field reads its result into the row. */
  lemma IspAndDomainFound()
    ensures RowValues(IspDb, [Some(IspName)], None, Found(IspAnswer(IspResponse(Some("FooBar Communications"), None)))) ==
      Partial([Text("FooBar Communications")], None)
    ensures RowValues(DomainDb, [Some(DomainName)], None, Found(DomainAnswer(DomainResponse(Some("TestDomain.com"))))) ==
      Partial([Text("TestDomain.com")], None)
  {
  }

  /** An ISP address that is not found, with a field selected, raises even when defaults are set. */
  lemma IspNotFoundRaises()
    ensures RowValues(IspDb, [Some(IspName)], Some([Some("unknown")]), NotFound) == Partial([], Some(NullPointer))
  {
  }

  /** A name outside the catalog makes the Country selection raise; a null name raises NullPointerException. */
  lemma UnknownNameRaises()
    ensures SelectOutcome(CountryDb, Some([Some("country_code"), Some("city_name")])) == Fail(UnknownField("city_name"))
    ensures SelectedArray(CountryDb, Some([Some("country_code"), Some("city_name")])) == [Some(CountryCountryCode), None]
    ensures SelectOutcome(CountryDb, Some([None, Some("country_code")])) == Fail(NullPointer)
    ensures SelectedArray(CountryDb, Some([None, Some("country_code")])) == [None, None]
  {
  }
}
