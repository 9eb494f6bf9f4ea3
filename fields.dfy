/**
 * The five field catalogs (the Java enums `CountryFields`, `CityFields`,
 * `IspFields`, `OrgFields` and `DomainFields`): each constant's name, its
 * Kettle value metadata and its extractor from the kind's lookup response.
 */
module Fields {
  import opened Wrappers
  import opened Objects
  import opened Responses

  /** The database kinds; one Java subclass of `MaxMindDatabase` each. */
  datatype Kind = CountryDb | CityDb | IspDb | OrgDb | DomainDb

  /**
   * Every enum constant of every catalog. The constants of different enums
   * are different even when their names agree (`CountryFields.country_code`
   * and `CityFields.country_code`).
   */
  datatype Field =
    // CountryFields
    | CountryCountryCode | CountryCountryName
    // CityFields
    | CityCountryCode | CityCountryName | CityRegionCode | CityRegionName
    | CityCityName | CityLatitude | CityLongitude | CityTimezone
    // IspFields, OrgFields, DomainFields
    | IspName | OrganizationName | DomainName

  /** A reference to an enum constant: `None` is a `null` array entry. */
  type FieldRef = Option<Field>

  /** Kettle value types used by the catalogs. */
  datatype ValueType = TypeString | TypeNumber

  /** The `(type, length, precision)` each constant passes to its constructor. */
  datatype FieldMeta = FieldMeta(valueType: ValueType, length: nat, precision: nat)

  /** The enum a constant belongs to. */
  function KindOf(f: Field): Kind
  {
    match f
    case CountryCountryCode | CountryCountryName => CountryDb
    case CityCountryCode | CityCountryName | CityRegionCode | CityRegionName
      | CityCityName | CityLatitude | CityLongitude | CityTimezone => CityDb
    case IspName => IspDb
    case OrganizationName => OrgDb
    case DomainName => DomainDb
  }

  /** Every non-null selected constant belongs to the given kind's enum. */
  predicate OfKind(selected: seq<FieldRef>, kind: Kind)
  {
    forall i :: 0 <= i < |selected| && selected[i].Some? ==> KindOf(selected[i].value) == kind
  }

  /** The constant's `name()`, which is also its `toString()`. */
  function Name(f: Field): string
  {
    match f
    case CountryCountryCode => "country_code"
    case CountryCountryName => "country_name"
    case CityCountryCode => "country_code"
    case CityCountryName => "country_name"
    case CityRegionCode => "region_code"
    case CityRegionName => "region_name"
    case CityCityName => "city_name"
    case CityLatitude => "latitude"
    case CityLongitude => "longitude"
    case CityTimezone => "timezone"
    case IspName => "isp_name"
    case OrganizationName => "organization_name"
    case DomainName => "domain_name"
  }

  /** The metadata the constant is declared with. */
  function Meta(f: Field): FieldMeta
  {
    match f
    case CountryCountryCode | CityCountryCode | CityRegionCode => FieldMeta(TypeString, 2, 0)
    case CountryCountryName | CityCountryName | CityRegionName => FieldMeta(TypeString, 50, 0)
    case CityLatitude | CityLongitude => FieldMeta(TypeNumber, 10, 4)
    case CityCityName | CityTimezone | IspName | OrganizationName | DomainName =>
      FieldMeta(TypeString, 255, 0)
  }

  /** The enum's `values()`: its constants in declaration order, each once. */
  function AllFields(kind: Kind): (fs: seq<Field>)
    ensures forall f :: f in fs <==> KindOf(f) == kind
    ensures forall i, j :: 0 <= i < j < |fs| ==> fs[i] != fs[j]
  {
    match kind
    case CountryDb => [CountryCountryCode, CountryCountryName]
    case CityDb =>
      [CityCountryCode, CityCountryName, CityRegionCode, CityRegionName,
       CityCityName, CityLatitude, CityLongitude, CityTimezone]
    case IspDb => [IspName]
    case OrgDb => [OrganizationName]
    case DomainDb => [DomainName]
  }

  /** The lookup response shape each kind's `getVal` reads; ISP and Organization share one. */
  predicate Answers(kind: Kind, r: Response)
  {
    match kind
    case CountryDb => r.CountryAnswer?
    case CityDb => r.CityAnswer?
    case IspDb | OrgDb => r.IspAnswer?
    case DomainDb => r.DomainAnswer?
  }

  function TextOf(s: Option<string>): Option<Value>
  {
    if s.Some? then Some(Text(s.value)) else None
  }

  /**
   * `(double) d` on a `Double` coordinate: unboxing a `null` raises
   * NullPointerException, any other value comes back boxed as a number.
   */
  function Unboxed(d: Option<real>): Result<Option<Value>, Error>
  {
    if d.Some? then Ok(Some(Decimal(d.value))) else Err(NullPointer)
  }

  /**
   * The constant's `getVal` applied to a non-null response: `Ok(None)` is a
   * `null` result. An absent sub-record (no subdivision, no location) gives
   * an absent value, except for the coordinates, whose `(double)` cast
   * raises NullPointerException when there is no coordinate to unbox.
   */
  function GetVal(f: Field, r: Response): (v: Result<Option<Value>, Error>)
    requires Answers(KindOf(f), r)
    ensures v.Ok? && v.value.Some? ==> !v.value.value.Null?
    ensures v.Ok? && v.value.Some? ==> (v.value.value.Decimal? <==> Meta(f).valueType == TypeNumber)
    ensures Meta(f).valueType == TypeNumber ==> v != Ok(None)
    ensures v.Err? ==> Meta(f).valueType == TypeNumber && v.error == NullPointer
  {
    match f
    case CountryCountryCode =>
      var c := r.countryResponse.country;
      Ok(if c.Some? then TextOf(c.value.isoCode) else None)
    case CountryCountryName =>
      var c := r.countryResponse.country;
      Ok(if c.Some? then TextOf(c.value.name) else None)
    case CityCountryCode =>
      var c := r.cityResponse.country;
      Ok(if c.Some? then TextOf(c.value.isoCode) else None)
    case CityCountryName =>
      var c := r.cityResponse.country;
      Ok(if c.Some? then TextOf(c.value.name) else None)
    case CityRegionCode =>
      var s := r.cityResponse.mostSpecificSubdivision;
      Ok(if s.Some? then TextOf(s.value.isoCode) else None)
    case CityRegionName =>
      var s := r.cityResponse.mostSpecificSubdivision;
      Ok(if s.Some? then TextOf(s.value.name) else None)
    case CityCityName =>
      var c := r.cityResponse.city;
      Ok(if c.Some? then TextOf(c.value.name) else None)
    case CityLatitude =>
      var l := r.cityResponse.location;
      Unboxed(if l.Some? then l.value.latitude else None)
    case CityLongitude =>
      var l := r.cityResponse.location;
      Unboxed(if l.Some? then l.value.longitude else None)
    case CityTimezone =>
      var l := r.cityResponse.location;
      Ok(if l.Some? then TextOf(l.value.timeZone) else None)
    case IspName => Ok(TextOf(r.ispResponse.isp))
    case OrganizationName => Ok(TextOf(r.ispResponse.organization))
    case DomainName => Ok(TextOf(r.domainResponse.domain))
  }

  /** The first constant of `fs` whose name is `s`. */
  function FindByName(fs: seq<Field>, s: string): (r: Option<Field>)
    ensures r.Some? ==> r.value in fs && Name(r.value) == s
    ensures r.None? ==> forall f :: f in fs ==> Name(f) != s
  {
    if fs == [] then None
    else if Name(fs[0]) == s then Some(fs[0])
    else FindByName(fs[1..], s)
  }

  /**
   * The enum's `valueOf(name)`: the constant of that kind with exactly that
   * name; a `null` name raises NullPointerException and any other name
   * raises IllegalArgumentException.
   */
  function ValueOf(kind: Kind, name: JString): (r: Result<Field, Error>)
    ensures r.Ok? ==> name.Some? && KindOf(r.value) == kind && Name(r.value) == name.value
    ensures name.None? ==> r == Err(NullPointer)
    ensures name.Some? && r.Err? ==> r.error == UnknownField(name.value)
  {
    if name.None? then Err(NullPointer)
    else
      var found := FindByName(AllFields(kind), name.value);
      if found.Some? then Ok(found.value) else Err(UnknownField(name.value))
  }

  /** A name `valueOf` rejects is the name of no constant of the enum: it is never mapped to some other field. */
  lemma UnknownNameIsNoFieldName(kind: Kind, name: string)
    ensures ValueOf(kind, Some(name)).Err? <==> forall f :: KindOf(f) == kind ==> Name(f) != name
  {
  }

  /** Within one enum, no two constants share a name. */
  lemma NameIdentifies(f: Field, g: Field)
    requires KindOf(f) == KindOf(g) && Name(f) == Name(g)
    ensures f == g
  {
  }

  /** Within one enum, a constant's name identifies it: `valueOf(c.name()) == c`. */
  lemma ValueOfName(f: Field)
    ensures ValueOf(KindOf(f), Some(Name(f))) == Ok(f)
  {
    var r := ValueOf(KindOf(f), Some(Name(f)));
    assert f in AllFields(KindOf(f));
    assert r.Ok?;
    NameIdentifies(f, r.value);
  }

  /** The catalog sizes: 2 Country fields, 8 City fields, one each for ISP, Organization and Domain. */
  lemma CatalogSizes()
    ensures |AllFields(CountryDb)| == 2 && |AllFields(CityDb)| == 8
    ensures |AllFields(IspDb)| == 1 && |AllFields(OrgDb)| == 1 && |AllFields(DomainDb)| == 1
  {
  }
}
