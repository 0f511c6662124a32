/** The records the store and the form exchange. */
module Records {
  import opened Base

  /** Identifiers are assigned by the backend and compared with `!==`. */
  type CityId = string

  /** A visit date; the model never inspects it, so it is an opaque instant. */
  datatype Date = Date(epochMillis: int)

  /** The map position read from the URL: each coordinate is a search parameter,
      absent (`null`) when the URL does not carry it. */
  datatype Position = Position(lat: Option<string>, lng: Option<string>)

  /** The object the form sends to the backend: `newCity` in `handleSubmit`.
      `country` is whatever the geocoder's `countryName` was, possibly missing;
      `emoji` is the flag as a sequence of Unicode code points. */
  datatype Draft = Draft(
    cityName: string,
    country: Option<string>,
    emoji: seq<int>,
    date: Date,
    notes: string,
    position: Position)

  /** A stored city as the backend returns it: the draft's fields plus an identifier.
      The store itself only ever looks at `id`. */
  datatype City = City(
    id: CityId,
    cityName: string,
    country: Option<string>,
    emoji: seq<int>,
    date: Date,
    notes: string,
    position: Position)
}
