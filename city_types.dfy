/** The place record returned by the places catalog. */
module CityTypes {
  import opened Wrappers

  datatype Coordinates = Coordinates(lon: real, lat: real)

  /**
   * A city: `geoname_id`, `name`, `ascii_name`, `cou_name_en` (the English
   * country name), `timezone`, `coordinates` and the optional `population`.
   */
  datatype City = City(
    geonameId: int,
    name: string,
    asciiName: string,
    countryName: string,
    timezone: string,
    coordinates: Coordinates,
    population: Option<int>)

  /** The string-valued keys of a city that the directory sorts or filters on. */
  datatype Field = Name | AsciiName | CountryName | Timezone

  /** `city[key]` for a string-valued key. */
  function FieldValue(c: City, f: Field): string
  {
    match f
    case Name => c.name
    case AsciiName => c.asciiName
    case CountryName => c.countryName
    case Timezone => c.timezone
  }
}
