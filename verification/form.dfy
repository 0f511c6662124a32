/** The trip form's pure logic: reading a reverse-geocode reply, the geocoding effect on
    the form's state, the submit guard that builds the draft, and the choice of what the
    form renders. */
module Form {
  import opened Base
  import opened Records
  import Emoji
  import Cities

  // ---------------------------------------------------------------------------
  // Reverse-geocode replies

  /** The fields the form reads from the geocoder's JSON reply; each may be missing. */
  datatype GeocodeReply = GeocodeReply(
    countryCode: Option<string>,
    countryName: Option<string>,
    city: Option<string>,
    locality: Option<string>)

  /** A country code the model can convert: ASCII when present. */
  predicate WellFormed(reply: GeocodeReply)
  {
    reply.countryCode.Some? ==> Emoji.IsAscii(reply.countryCode.value)
  }

  /** The place a usable reply describes. */
  datatype Place = Place(cityName: string, country: Option<string>, emoji: seq<int>)

  /** The message thrown when the reply carries no country code. */
  const NotACity := "That doesn't seem to be a city. Click somewhere on the map "

  /** `data.city || data.locality || ""`. */
  function CityNameOf(reply: GeocodeReply): (name: string)
    ensures Truthy(reply.city) ==> name == reply.city.value
    ensures !Truthy(reply.city) && Truthy(reply.locality) ==> name == reply.locality.value
    ensures !Truthy(reply.city) && !Truthy(reply.locality) ==> name == ""
  {
    var v := Or(Or(reply.city, reply.locality), Some(""));
    v.value
  }

  /** The decision inside `fetchCityData` once the reply is parsed: no usable country
      code is an error; otherwise the city name, the country name and the flag. */
  function InterpretReply(reply: GeocodeReply): (r: Result<Place, string>)
    requires WellFormed(reply)
    ensures r.Failure? <==> !Truthy(reply.countryCode)
    ensures r.Failure? ==> r.error == NotACity
    ensures r.Success? ==>
      && r.value.cityName == CityNameOf(reply)
      && r.value.country == reply.countryName
      && |r.value.emoji| == |reply.countryCode.value|
      && Emoji.InFlagRange(r.value.emoji)
      && Emoji.FlagToCode(r.value.emoji) == Emoji.ToUpper(reply.countryCode.value)
  {
    if !Truthy(reply.countryCode) then Failure(NotACity)
    else
      Emoji.FlagRoundTrip(reply.countryCode.value);
      Success(Place(CityNameOf(reply), reply.countryName, Emoji.ConvertToEmoji(reply.countryCode.value)))
  }

  /** Scenario: a reply for Austin, US fills in "Austin" and the US flag. */
  lemma AustinExample()
    ensures InterpretReply(GeocodeReply(Some("US"), Some("United States of America (the)"), Some("Austin"), None))
         == Success(Place("Austin", Some("United States of America (the)"), [0x1F1FA, 0x1F1F8]))
  {
    Emoji.Examples();
  }

  // ---------------------------------------------------------------------------
  // The form's state and the geocoding effect

  /** The form's React state. `country` may become missing when the geocoder omits
      `countryName`; `date` is missing once the date picker is cleared. */
  datatype FormState = FormState(
    isLoadingGeocoding: bool,
    cityName: string,
    country: Option<string>,
    date: Option<Date>,
    notes: string,
    emoji: seq<int>,
    geoCodingError: string)

  /** The state on mount; `today` is the `new Date()` of the first render. */
  function InitialForm(today: Date): (f: FormState)
    ensures !f.isLoadingGeocoding && f.geoCodingError == "" && f.cityName == "" && f.date == Some(today)
  {
    FormState(false, "", Some(""), Some(today), "", [], "")
  }

  /** The URL carries a position unless both coordinates are falsy (`!lat && !lng`). */
  predicate HasPosition(pos: Position)
  {
    Truthy(pos.lat) || Truthy(pos.lng)
  }

  /** What `fetchCityData` does before it awaits: spinner on, error cleared. */
  function BeginGeocoding(f: FormState): (g: FormState)
    ensures g.isLoadingGeocoding && g.geoCodingError == ""
    ensures g.(isLoadingGeocoding := f.isLoadingGeocoding, geoCodingError := f.geoCodingError) == f
  {
    f.(isLoadingGeocoding := true, geoCodingError := "")
  }

  /** What `fetchCityData` does once the reply is in (or its fetch threw with `message`):
      set the place, or the error, and turn the spinner off in `finally`. */
  function FinishGeocoding(f: FormState, reply: Result<GeocodeReply, string>): (g: FormState)
    requires reply.Success? ==> WellFormed(reply.value)
    ensures !g.isLoadingGeocoding
    ensures g.date == f.date && g.notes == f.notes
  {
    match reply
    case Failure(message) => f.(geoCodingError := message, isLoadingGeocoding := false)
    case Success(data) =>
      match InterpretReply(data)
      case Failure(message) => f.(geoCodingError := message, isLoadingGeocoding := false)
      case Success(place) =>
        f.(cityName := place.cityName, country := place.country, emoji := place.emoji,
           isLoadingGeocoding := false)
  }

  /** The error a geocoding run leaves behind: the thrown message, if any, else none. */
  function GeocodeError(reply: Result<GeocodeReply, string>): string
  {
    match reply
    case Failure(message) => message
    case Success(data) => if Truthy(data.countryCode) then "" else NotACity
  }

  /** The effect run when the position changes: nothing without a position; otherwise a
      complete geocoding run. A failed run sets its message and leaves name, country and
      flag as they were; a successful one sets all three and no error. */
  function Geocode(f: FormState, pos: Position, reply: Result<GeocodeReply, string>): (g: FormState)
    requires reply.Success? ==> WellFormed(reply.value)
    ensures !HasPosition(pos) ==> g == f
    ensures HasPosition(pos) ==> !g.isLoadingGeocoding && g.geoCodingError == GeocodeError(reply)
    ensures g.date == f.date && g.notes == f.notes
    ensures HasPosition(pos) && !(reply.Success? && Truthy(reply.value.countryCode)) ==>
              g.cityName == f.cityName && g.country == f.country && g.emoji == f.emoji
    ensures HasPosition(pos) && reply.Success? && Truthy(reply.value.countryCode) ==>
              && g.cityName == CityNameOf(reply.value)
              && g.country == reply.value.countryName
              && Emoji.InFlagRange(g.emoji)
              && Emoji.FlagToCode(g.emoji) == Emoji.ToUpper(reply.value.countryCode.value)
  {
    if !HasPosition(pos) then f else FinishGeocoding(BeginGeocoding(f), reply)
  }

  // ---------------------------------------------------------------------------
  // What the form renders

  /** The form's render outcomes, in the order the component tests them. `StartPrompt`
      is the message "Click on the map to get started". */
  datatype View = Spinner | StartPrompt | ErrorMessage(text: string) | FormView

  /** Spinner first, then the start prompt, then the error, then the form itself. */
  function Render(f: FormState, pos: Position): (v: View)
    ensures v.Spinner? <==> f.isLoadingGeocoding
    ensures v.StartPrompt? <==> !f.isLoadingGeocoding && !HasPosition(pos)
    ensures v.ErrorMessage? <==> !f.isLoadingGeocoding && HasPosition(pos) && f.geoCodingError != ""
    ensures v.ErrorMessage? ==> v.text == f.geoCodingError
    ensures v.FormView? <==> !f.isLoadingGeocoding && HasPosition(pos) && f.geoCodingError == ""
  {
    if f.isLoadingGeocoding then Spinner
    else if !HasPosition(pos) then StartPrompt
    else if f.geoCodingError != "" then ErrorMessage(f.geoCodingError)
    else FormView
  }

  /** The form's phases: the spinner while a reply is awaited; afterwards the error of a
      failed run, or the form once a country code came back. */
  lemma GeocodingPhases(f: FormState, pos: Position, reply: Result<GeocodeReply, string>)
    requires reply.Success? ==> WellFormed(reply.value)
    requires HasPosition(pos)
    ensures Render(BeginGeocoding(f), pos) == Spinner
    ensures GeocodeError(reply) != "" ==> Render(Geocode(f, pos, reply), pos) == ErrorMessage(GeocodeError(reply))
    ensures reply.Success? && Truthy(reply.value.countryCode) ==> Render(Geocode(f, pos, reply), pos) == FormView
  {
  }

  /** Without a position the effect does nothing and, once idle, the prompt shows. */
  lemma NoPositionPrompts(f: FormState, pos: Position, reply: Result<GeocodeReply, string>)
    requires reply.Success? ==> WellFormed(reply.value)
    requires !HasPosition(pos) && !f.isLoadingGeocoding
    ensures Render(Geocode(f, pos, reply), pos) == StartPrompt
  {
  }

  // ---------------------------------------------------------------------------
  // Submission

  /** The submit guard and `newCity`: nothing without a city name or a date; otherwise a
      draft carrying the form's fields and the URL position. */
  function NewCity(f: FormState, pos: Position): (d: Option<Draft>)
    ensures d.None? <==> f.cityName == "" || f.date.None?
    ensures d.Some? ==>
      && d.value.cityName == f.cityName && d.value.country == f.country
      && d.value.emoji == f.emoji && Some(d.value.date) == f.date
      && d.value.notes == f.notes && d.value.position == pos
  {
    if f.cityName == "" || f.date.None? then None
    else Some(Draft(f.cityName, f.country, f.emoji, f.date.value, f.notes, pos))
  }

  /** The route `handleSubmit` navigates to after creating. */
  const CitiesRoute := "/app/cities"

  /** The store after submitting and where the app went next. */
  datatype Submission = Submission(store: Cities.State, navigateTo: Option<string>)

  /** `handleSubmit`: without a draft nothing happens; with one, `createCity` runs to
      completion (it never throws: its failures become `rejected`) and the app then
      navigates to the city list, whatever the outcome. */
  function HandleSubmit(f: FormState, pos: Position, store: Cities.State, created: Outcome<City>): (r: Submission)
    ensures NewCity(f, pos).None? ==> r.store == store && r.navigateTo.None?
    ensures NewCity(f, pos).Some? ==> r.navigateTo == Some(CitiesRoute) && !r.store.isLoading
    ensures NewCity(f, pos).Some? && created.Ok? ==>
              r.store.cities == store.cities + [created.payload] && r.store.error == store.error
    ensures NewCity(f, pos).Some? && created.Err? ==>
              r.store.cities == store.cities && r.store.error == Cities.CreateCityError
  {
    match NewCity(f, pos)
    case None => Submission(store, None)
    case Some(draft) =>
      var req := Cities.CreateCity(draft, created);
      Cities.RequestEffect(store, req);
      Submission(Cities.ReduceAll(store, Cities.Dispatches(req)), Some(CitiesRoute))
  }

  /** A successful geocoding run followed by a submit with a date creates a city that
      carries the geocoded name, country and flag. */
  lemma GeocodeThenSubmit(f: FormState, pos: Position, data: GeocodeReply)
    requires WellFormed(data) && Truthy(data.countryCode)
    requires HasPosition(pos) && f.date.Some? && CityNameOf(data) != ""
    ensures var g := Geocode(f, pos, Success(data));
      && NewCity(g, pos).Some?
      && NewCity(g, pos).value.cityName == CityNameOf(data)
      && NewCity(g, pos).value.country == data.countryName
      && NewCity(g, pos).value.emoji == Emoji.ConvertToEmoji(data.countryCode.value)
      && NewCity(g, pos).value.position == pos
  {
  }
}
