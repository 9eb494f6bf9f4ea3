/**
 * The lookup responses of the GeoIP2 reader, reduced to the sub-fields the
 * field catalogs read. Every sub-record and every sub-field may be absent.
 */
module Responses {
  import opened Wrappers
  import opened Objects

  datatype CountryRecord = CountryRecord(isoCode: Option<string>, name: Option<string>)
  datatype SubdivisionRecord = SubdivisionRecord(isoCode: Option<string>, name: Option<string>)
  datatype CityRecord = CityRecord(name: Option<string>)
  datatype LocationRecord =
    LocationRecord(latitude: Option<real>, longitude: Option<real>, timeZone: Option<string>)

  datatype CountryResponse = CountryResponse(country: Option<CountryRecord>)
  datatype CityResponse = CityResponse(
    country: Option<CountryRecord>,
    mostSpecificSubdivision: Option<SubdivisionRecord>,
    city: Option<CityRecord>,
    location: Option<LocationRecord>)
  /** The ISP database's response; it serves both the ISP and the Organization kind. */
  datatype IspResponse = IspResponse(isp: Option<string>, organization: Option<string>)
  datatype DomainResponse = DomainResponse(domain: Option<string>)

  /** One response of any of the reader's four lookups (`country`, `city`, `isp`, `domain`). */
  datatype Response =
    | CountryAnswer(countryResponse: CountryResponse)
    | CityAnswer(cityResponse: CityResponse)
    | IspAnswer(ispResponse: IspResponse)
    | DomainAnswer(domainResponse: DomainResponse)

  /**
   * The outcome of parsing the IP text and asking the reader: a response,
   * the caught `AddressNotFoundException`, or any other exception, which
   * propagates to the caller.
   */
  datatype Lookup = Found(response: Response) | NotFound | Failed(error: Error)
}
