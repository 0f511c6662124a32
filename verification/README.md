# World-Wise: the cities store and the trip form, in Dafny

World-Wise is a travel log: the user clicks a map, the trip form reverse-geocodes the
position into a city, a country and a flag emoji, and the cities store keeps the list of
visited cities in sync with a small REST backend. This project models the two pure cores
of that client and proves properties about them:

- the cities store (`src/Contexts/CitiesContext.jsx`): its state `{cities, isLoading,
  currentCity, error}`, the reducer over its six action tags, the failure on an unknown
  tag, and the `loading`-then-outcome dispatch pair each asynchronous operation performs
  (`fetchCities`, `getCity`, `createCity`, `deleteCity`), with the remote call reduced to
  an abstract outcome;
- the trip form (`src/components/Form.jsx`): `convertToEmoji`, the reading of a
  reverse-geocode reply, the geocoding effect on the form's state, the submit guard and
  the `newCity` draft, and the priority order of what the form renders.

Files: `base.dfy` (optional values, results, outcomes of a remote call, JavaScript string
truthiness), `records.dfy` (cities, drafts, positions, dates), `cities.dfy` (module
`Cities`), `emoji.dfy` (module `Emoji`), `form.dfy` (module `Form`).

Modelling choices:

- The JavaScript `switch` over `action.type` becomes a `datatype Action` and one total
  `Reduce`; the untyped `{type, payload}` object is kept as `TaggedAction`, and
  `Dispatch` reproduces the `default` branch's "Unknown action type" failure.
- An operation's `fetch` and `res.json()` become an `Outcome`: `Ok(payload)` when both
  returned, `Err` when either threw. `fetch` does not throw on an HTTP error status, so a
  `DELETE` answered with 404 is an `Ok` outcome and still removes the city locally.
- `city/deleted` follows the code: it keeps every record whose `id` differs, so it
  removes all records with that identifier. Only when identifiers are unique does it
  remove exactly one (`RemoveIdUniqueRemovesOne`).
- `currentCity` starts as the empty object `{}`; the model writes that as `None`.
- Missing JavaScript values (`undefined`, `null`) are `None`; a string is truthy when it
  is present and non-empty. The URL position is a pair of such optional strings.
- A flag is a sequence of Unicode code points; the country code is ASCII text.
- `handleSubmit` navigates to `/app/cities` after `createCity` whether or not the
  creation succeeded; the model keeps that behaviour (`HandleSubmit`).

## Model

| member | source | states |
|---|---|---|
| Cities.InitialState | src/Contexts/CitiesContext.jsx:7-12 | the store starts with no cities, not loading, nothing selected and an empty error (and trivially unique identifiers) |
| Cities.Reduce | src/Contexts/CitiesContext.jsx:14-54 | the loading flag is up exactly after `loading`; only `rejected` changes the error, to its payload; only the three list actions change the list; only `city/loaded` changes the selection, to its payload |
| Cities.LoadedReplacesList | src/Contexts/CitiesContext.jsx:21-26 | `cities/loaded` replaces the list wholesale and leaves the selection alone |
| Cities.CreatedAppends | src/Contexts/CitiesContext.jsx:35-40 | `city/created` grows the list by one, keeps the old list as prefix and puts the payload last |
| Cities.DeletedFilters | src/Contexts/CitiesContext.jsx:42-47 | `city/deleted` leaves no record with the identifier, and with an absent identifier changes nothing but the loading flag |
| Cities.RemoveId | src/Contexts/CitiesContext.jsx:46 | the filter never grows the list, removes every record with the identifier, keeps every other record, invents none, and is the identity when the identifier is absent |
| Cities.RemoveIdEmbedding | src/Contexts/CitiesContext.jsx:46 | builds the strictly increasing positions at which the survivors sit in the original list |
| Cities.RemoveIdKeepsOrder | src/Contexts/CitiesContext.jsx:46 | the survivors of a delete are a subsequence of the list: their relative order is kept |
| Cities.RemoveIdCounts | src/Contexts/CitiesContext.jsx:46 | each record with the identifier occurs zero times afterwards, however often it occurred before; every other record keeps its multiplicity |
| Cities.RemoveIdUniqueRemovesOne | src/Contexts/CitiesContext.jsx:42-47 | on a list with unique identifiers, deleting a present identifier shortens it by exactly one |
| Cities.RemoveIdPreservesUnique | src/Contexts/CitiesContext.jsx:46 | a delete never introduces a duplicate identifier |
| Cities.ReducePreservesUniqueIds | src/Contexts/CitiesContext.jsx:14-54 | every action keeps identifiers unique, given a unique loaded list and a fresh identifier from the backend on creation |
| Cities.Decode | src/Contexts/CitiesContext.jsx:15-57 | an action object fails with "Unknown action type" exactly when its tag is none of the six; it decodes only under a known tag |
| Cities.Encode | src/Contexts/CitiesContext.jsx:72-141 | every action object the operations write carries a known tag |
| Cities.DecodeEncode | src/Contexts/CitiesContext.jsx:14-57 | decoding the object written for an action gives back that action |
| Cities.EncodeDecode | src/Contexts/CitiesContext.jsx:14-57 | every action object the reducer accepts (with no stray payload on `loading`) is the one written for its action |
| Cities.Dispatch | src/Contexts/CitiesContext.jsx:14-58 | the untyped reducer throws on an unknown tag and otherwise equals the typed reducer on the decoded action |
| Cities.ReduceAll | src/Contexts/CitiesContext.jsx:14-54 | after a sequence of actions the loading flag reflects the last action; without `rejected` the error is unchanged; without `city/loaded` the selection is unchanged |
| Cities.Dispatches | src/Contexts/CitiesContext.jsx:71-144 | each operation dispatches exactly two actions: `loading`, then one non-loading action that is `rejected` exactly when the remote call failed |
| Cities.RequestEffect | src/Contexts/CitiesContext.jsx:71-144 | a completed operation ends not loading; a failure sets its fixed message and keeps list and selection; a success keeps the old error, and loads, selects, appends or filters as its action promises |
| Cities.EmptyBackend | src/Contexts/CitiesContext.jsx:70-87 | loading an empty list from the initial state gives the initial state back: no cities and no error |
| Cities.Session | src/Contexts/CitiesContext.jsx:71-144 | operations run one after another produce twice as many actions, with `loading` at exactly the even positions |
| Cities.SessionStepwise | src/Contexts/CitiesContext.jsx:71-144 | a session's final store is each operation applied, in turn, to the store the earlier ones left |
| Cities.LoadingOnlyWhilePending | src/Contexts/CitiesContext.jsx:16-54 | starting idle, after any prefix of a session the flag is up exactly when an operation has started and not yet resolved |
| Emoji.ConvertToEmoji | src/components/Form.jsx:14-20 | one code point per input character in order; each letter, of either case, lands on the regional indicator U+1F1E6..U+1F1FF of its alphabet position; other characters are shifted by 127397 |
| Emoji.FlagToCode | src/components/Form.jsx:14-20 | reading a flag back gives an ASCII code of the same length |
| Emoji.FlagRoundTrip | src/components/Form.jsx:15-19 | reading back the flag of a code gives the upper-cased code |
| Emoji.CodeRoundTrip | src/components/Form.jsx:15-19 | a flag whose reading is upper-case is the flag of that reading |
| Emoji.SameFlagIffSameUpper | src/components/Form.jsx:16 | two codes give the same flag if and only if they agree after upper-casing |
| Emoji.CaseInsensitive | src/components/Form.jsx:16 | the lower-cased spelling of a code gives the same flag as the code |
| Emoji.InjectiveOnUpperCodes | src/components/Form.jsx:15-19 | on upper-case codes the conversion is injective: equal flags exactly for equal codes |
| Emoji.Examples | src/components/Form.jsx:14-20 | "FR" and "fr" both give U+1F1EB U+1F1F7, "US" gives U+1F1FA U+1F1F8, a single "u" gives a single regional indicator |
| Form.CityNameOf | src/components/Form.jsx:64 | the city name is `city` when non-empty, else `locality` when non-empty, else the empty string |
| Form.InterpretReply | src/components/Form.jsx:58-68 | a reply without a usable country code is the fixed "doesn't seem to be a city" error; otherwise the city name by that priority, the country name unchanged, and a flag that reads back as the upper-cased country code |
| Form.AustinExample | src/components/Form.jsx:58-68 | a reply with code "US" and city "Austin" yields "Austin" and the US flag |
| Form.InitialForm | src/components/Form.jsx:28-34 | the form starts idle, without error or city name, dated today |
| Form.BeginGeocoding | src/components/Form.jsx:47-50 | starting a run raises the spinner, clears the error and changes nothing else |
| Form.FinishGeocoding | src/components/Form.jsx:58-75 | a finished run always lowers the spinner and never touches date or notes |
| Form.Geocode | src/components/Form.jsx:36-80 | no position means no change; otherwise the run ends idle with the thrown message (or none) as error; a failed run keeps name, country and flag; a successful one sets them from the reply |
| Form.Render | src/components/Form.jsx:112-117 | the spinner exactly while geocoding; else the start prompt exactly when both coordinates are falsy; else the error exactly when there is one, showing it; else the form |
| Form.GeocodingPhases | src/components/Form.jsx:38-117 | with a position the spinner shows while a reply is awaited; afterwards the failure's message, or the form once a country code came back |
| Form.NoPositionPrompts | src/components/Form.jsx:38-115 | without a position the effect does nothing and the idle form shows the start prompt |
| Form.NewCity | src/components/Form.jsx:90-103 | no draft exactly when the city name is empty or the date missing; otherwise a draft with exactly the form's name, country, flag, date, notes and the URL position |
| Form.HandleSubmit | src/components/Form.jsx:86-110 | without a draft nothing happens; with one the store ends idle, gains the created city or keeps its list with the create error, and the app navigates to `/app/cities` either way |
| Form.GeocodeThenSubmit | src/components/Form.jsx:58-103 | after a successful run with a non-empty city name and a date, submitting builds a draft carrying the geocoded name, country, flag and the position |

## Left out

- HTTP, `fetch`, `res.json()`, URLs and request bodies: each remote call is an abstract outcome; what the backend stores or returns is not modelled.
- React plumbing: `useReducer`, `useEffect` dependencies, `createContext`/`useContext` and the `useCities` check that it is used inside the provider.
- Concurrency: overlapping operations and state updates after unmount; `LoadingOnlyWhilePending` speaks of operations that run one after another.
- JSX, CSS classes (the form's `loading` class), `DatePicker`, `navigate` itself and `console.log`; navigation is recorded as the route in `Submission`.
- `useUrlPosition` is not part of this model; the position is taken as two optional strings.
- The provider does not hand `error` to its consumers; the model keeps it in the state all the same.
- `Date` objects: a date is an opaque instant; `!date` is modelled as the date being missing.
- Emoji.ConvertToEmoji: requires ASCII input, because `toUpperCase` on other text can change its length and `charCodeAt` works on UTF-16 units; code points are integers, and `String.fromCodePoint`'s encoding is not modelled.
- Form.InterpretReply: requires an ASCII country code when one is present, for the same reason.
- Form.Geocode: requires an ASCII country code in a successful reply, for the same reason.
- Form.FinishGeocoding: requires an ASCII country code in a successful reply, for the same reason.
- Form.GeocodingPhases: requires an ASCII country code in a successful reply, for the same reason.
- Form.NoPositionPrompts: requires an ASCII country code in a successful reply, for the same reason.
- Cities.Decode: a known tag with a payload of the wrong shape fails with `IllTypedPayload`; the JavaScript reducer would store such a payload unchecked, which the typed state cannot hold.
- The `payload` of a `loading` action is ignored, as in the reducer; `EncodeDecode` therefore assumes none is attached.
