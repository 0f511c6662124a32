/** The cities store: its state, the six reducer actions, the untyped `{type, payload}`
    dispatch that rejects unknown tags, and the two-step dispatch sequences of the
    asynchronous operations, each abstracted over the outcome of its remote call. */
module Cities {
  import opened Base
  import opened Records

  /** The reducer's state: the ordered city list, the loading flag, the selected city
      (`None` is the initial empty object `{}`) and the last error message. */
  datatype State = State(
    cities: seq<City>,
    isLoading: bool,
    currentCity: Option<City>,
    error: string)

  /** One variant per action tag the reducer accepts. */
  datatype Action =
    | Loading                         // "loading"
    | CitiesLoaded(list: seq<City>)   // "cities/loaded"
    | CityLoaded(city: City)          // "city/loaded"
    | CityCreated(city: City)         // "city/created"
    | CityDeleted(id: CityId)         // "city/deleted"
    | Rejected(message: string)       // "rejected"

  /** `initialState`: no cities, not loading, nothing selected, no error. */
  function InitialState(): (s: State)
    ensures |s.cities| == 0 && !s.isLoading && s.currentCity.None? && |s.error| == 0
    ensures UniqueIds(s.cities)
  {
    State([], false, None, "")
  }

  // ---------------------------------------------------------------------------
  // Identifiers in a city list

  predicate HasId(cities: seq<City>, id: CityId)
  {
    exists i :: 0 <= i < |cities| && cities[i].id == id
  }

  /** No two records of the list share an identifier. */
  predicate UniqueIds(cities: seq<City>)
  {
    forall i, j :: 0 <= i < j < |cities| ==> cities[i].id != cities[j].id
  }

  /** `cities.filter((city) => city.id !== id)`, scanning from the front. */
  function RemoveId(cities: seq<City>, id: CityId): (r: seq<City>)
    ensures |r| <= |cities|
    ensures !HasId(r, id)
    ensures forall c :: c in r ==> c in cities
    ensures forall c :: c in cities && c.id != id ==> c in r
    ensures !HasId(cities, id) ==> r == cities
    decreases |cities|
  {
    if |cities| == 0 then []
    else if cities[0].id == id then RemoveId(cities[1..], id)
    else
      var rest := RemoveId(cities[1..], id);
      assert forall c :: c in cities[1..] ==> c in cities;
      [cities[0]] + rest
  }

  // ---------------------------------------------------------------------------
  // The reducer

  /** `reducer(state, action)` for a well-formed action. Every action but `loading`
      clears the loading flag; only `rejected` touches the error; only the list
      actions touch the list; only `city/loaded` touches the selection. */
  function Reduce(s: State, a: Action): (r: State)
    ensures r.isLoading <==> a.Loading?
    ensures a.Rejected? ==> r.error == a.message
    ensures !a.Rejected? ==> r.error == s.error
    ensures !(a.CitiesLoaded? || a.CityCreated? || a.CityDeleted?) ==> r.cities == s.cities
    ensures !a.CityLoaded? ==> r.currentCity == s.currentCity
    ensures a.CityLoaded? ==> r.currentCity == Some(a.city)
  {
    match a
    case Loading => s.(isLoading := true)
    case CitiesLoaded(list) => s.(isLoading := false, cities := list)
    case CityLoaded(c) => s.(isLoading := false, currentCity := Some(c))
    case CityCreated(c) => s.(isLoading := false, cities := s.cities + [c])
    case CityDeleted(id) => s.(isLoading := false, cities := RemoveId(s.cities, id))
    case Rejected(msg) => s.(isLoading := false, error := msg)
  }

  /** `cities/loaded` replaces the list wholesale. */
  lemma LoadedReplacesList(s: State, list: seq<City>)
    ensures Reduce(s, CitiesLoaded(list)).cities == list
    ensures Reduce(s, CitiesLoaded(list)).currentCity == s.currentCity
  {
  }

  /** `city/created` appends: one more record, the old list as prefix, the payload last. */
  lemma CreatedAppends(s: State, c: City)
    ensures var r := Reduce(s, CityCreated(c)).cities;
      && |r| == |s.cities| + 1
      && r[..|s.cities|] == s.cities
      && r[|s.cities|] == c
  {
  }

  /** `city/deleted` is a filter on the identifier. */
  lemma DeletedFilters(s: State, id: CityId)
    ensures Reduce(s, CityDeleted(id)).cities == RemoveId(s.cities, id)
    ensures !HasId(Reduce(s, CityDeleted(id)).cities, id)
    ensures !HasId(s.cities, id) ==> Reduce(s, CityDeleted(id)) == s.(isLoading := false)
  {
  }

  // ---------------------------------------------------------------------------
  // Filter laws for RemoveId

  /** `xs` occurs in `ys` in the same relative order: `idx` picks, in strictly
      increasing positions of `ys`, the elements of `xs`. */
  ghost predicate EmbedsBy<T>(xs: seq<T>, ys: seq<T>, idx: seq<nat>)
  {
    && |idx| == |xs|
    && (forall i :: 0 <= i < |idx| ==> idx[i] < |ys| && xs[i] == ys[idx[i]])
    && (forall i, j :: 0 <= i < j < |idx| ==> idx[i] < idx[j])
  }

  ghost predicate SubsequenceOf<T>(xs: seq<T>, ys: seq<T>)
  {
    exists idx :: EmbedsBy(xs, ys, idx)
  }

  /** Survivors of a delete keep their relative order: the result is a subsequence. */
  lemma {:induction false} RemoveIdEmbedding(cities: seq<City>, id: CityId) returns (idx: seq<nat>)
    ensures EmbedsBy(RemoveId(cities, id), cities, idx)
    decreases |cities|
  {
    if |cities| == 0 {
      idx := [];
    } else {
      var tail := RemoveIdEmbedding(cities[1..], id);
      var shifted := seq(|tail|, k requires 0 <= k < |tail| => tail[k] + 1);
      if cities[0].id == id {
        idx := shifted;
      } else {
        idx := [0] + shifted;
        var r := RemoveId(cities, id);
        assert r == [cities[0]] + RemoveId(cities[1..], id);
        forall i | 0 <= i < |idx|
          ensures idx[i] < |cities| && r[i] == cities[idx[i]]
        {
          if i > 0 {
            assert idx[i] == tail[i - 1] + 1;
          }
        }
      }
    }
  }

  lemma RemoveIdKeepsOrder(cities: seq<City>, id: CityId)
    ensures SubsequenceOf(RemoveId(cities, id), cities)
  {
    var idx := RemoveIdEmbedding(cities, id);
  }

  /** Counting form of the filter: every record with the identifier disappears (all of
      its copies, not just one) and every other record keeps its multiplicity. */
  lemma {:induction false} RemoveIdCounts(cities: seq<City>, id: CityId, c: City)
    ensures multiset(RemoveId(cities, id))[c] == if c.id == id then 0 else multiset(cities)[c]
    decreases |cities|
  {
    if |cities| > 0 {
      RemoveIdCounts(cities[1..], id, c);
      assert cities == [cities[0]] + cities[1..];
      if cities[0].id != id {
        assert RemoveId(cities, id) == [cities[0]] + RemoveId(cities[1..], id);
      }
    }
  }

  /** With unique identifiers, deleting a present identifier removes exactly one record. */
  lemma {:induction false} RemoveIdUniqueRemovesOne(cities: seq<City>, id: CityId)
    requires UniqueIds(cities)
    requires HasId(cities, id)
    ensures |RemoveId(cities, id)| == |cities| - 1
    decreases |cities|
  {
    var tail := cities[1..];
    if cities[0].id != id {
      var j :| 0 <= j < |cities| && cities[j].id == id;
      assert tail[j - 1].id == id;
      RemoveIdUniqueRemovesOne(tail, id);
    }
  }

  /** Deleting never introduces a duplicate identifier. */
  lemma {:induction false} RemoveIdPreservesUnique(cities: seq<City>, id: CityId)
    requires UniqueIds(cities)
    ensures UniqueIds(RemoveId(cities, id))
    decreases |cities|
  {
    if |cities| > 0 {
      var tail := cities[1..];
      assert UniqueIds(tail) by {
        forall i, j | 0 <= i < j < |tail| ensures tail[i].id != tail[j].id {
          assert tail[i] == cities[i + 1] && tail[j] == cities[j + 1];
        }
      }
      RemoveIdPreservesUnique(tail, id);
      if cities[0].id != id {
        var rest := RemoveId(tail, id);
        assert forall c :: c in rest ==> c.id != cities[0].id by {
          forall c | c in rest ensures c.id != cities[0].id {
            assert c in tail;
            var k :| 0 <= k < |tail| && tail[k] == c;
            assert cities[k + 1] == c;
          }
        }
        PrependUnique(cities[0], rest);
      }
    }
  }

  /** Prepending a record whose identifier the list lacks keeps identifiers unique. */
  lemma PrependUnique(c: City, rest: seq<City>)
    requires UniqueIds(rest)
    requires forall d :: d in rest ==> d.id != c.id
    ensures UniqueIds([c] + rest)
  {
  }

  /** The reducer keeps identifiers unique, provided a loaded list is itself unique and a
      created record carries a fresh identifier (the backend's job). */
  lemma ReducePreservesUniqueIds(s: State, a: Action)
    requires UniqueIds(s.cities)
    requires a.CitiesLoaded? ==> UniqueIds(a.list)
    requires a.CityCreated? ==> !HasId(s.cities, a.city.id)
    ensures UniqueIds(Reduce(s, a).cities)
  {
    match a
    case CityDeleted(id) => RemoveIdPreservesUnique(s.cities, id);
    case CityCreated(c) =>
      var r := s.cities + [c];
      forall i, j | 0 <= i < j < |r|
        ensures r[i].id != r[j].id
      {
        if j == |s.cities| {
          assert r[i] == s.cities[i];
        }
      }
    case _ =>
  }

  // ---------------------------------------------------------------------------
  // Untyped dispatch: `{type, payload}` objects

  /** The payload shapes the source's dispatches carry. */
  datatype Payload =
    | NoPayload
    | CityList(cities: seq<City>)
    | OneCity(record: City)
    | IdValue(key: CityId)
    | Text(text: string)

  datatype TaggedAction = TaggedAction(tag: string, payload: Payload)

  datatype DispatchError =
    | UnknownActionType   // `throw new Error("Unknown action type")`
    | IllTypedPayload     // a known tag whose payload the typed state cannot hold

  predicate KnownTag(tag: string)
  {
    tag in {"loading", "cities/loaded", "city/loaded", "city/created", "city/deleted", "rejected"}
  }

  /** Reads an action object; the `default` branch's throw becomes `UnknownActionType`.
      `loading` ignores its payload, as the reducer does. */
  function Decode(t: TaggedAction): (r: Result<Action, DispatchError>)
    ensures r == Failure(UnknownActionType) <==> !KnownTag(t.tag)
    ensures r.Success? ==> KnownTag(t.tag)
  {
    match t.tag
    case "loading" => Success(Loading)
    case "cities/loaded" =>
      if t.payload.CityList? then Success(CitiesLoaded(t.payload.cities)) else Failure(IllTypedPayload)
    case "city/loaded" =>
      if t.payload.OneCity? then Success(CityLoaded(t.payload.record)) else Failure(IllTypedPayload)
    case "city/created" =>
      if t.payload.OneCity? then Success(CityCreated(t.payload.record)) else Failure(IllTypedPayload)
    case "city/deleted" =>
      if t.payload.IdValue? then Success(CityDeleted(t.payload.key)) else Failure(IllTypedPayload)
    case "rejected" =>
      if t.payload.Text? then Success(Rejected(t.payload.text)) else Failure(IllTypedPayload)
    case _ => Failure(UnknownActionType)
  }

  /** The action object the source writes for each action. */
  function Encode(a: Action): (t: TaggedAction)
    ensures KnownTag(t.tag)
  {
    match a
    case Loading => TaggedAction("loading", NoPayload)
    case CitiesLoaded(list) => TaggedAction("cities/loaded", CityList(list))
    case CityLoaded(c) => TaggedAction("city/loaded", OneCity(c))
    case CityCreated(c) => TaggedAction("city/created", OneCity(c))
    case CityDeleted(id) => TaggedAction("city/deleted", IdValue(id))
    case Rejected(msg) => TaggedAction("rejected", Text(msg))
  }

  lemma DecodeEncode(a: Action)
    ensures Decode(Encode(a)) == Success(a)
  {
  }

  /** Every action object the reducer accepts is one the source could have written. */
  lemma EncodeDecode(t: TaggedAction)
    requires Decode(t).Success?
    requires t.tag == "loading" ==> t.payload.NoPayload?
    ensures Encode(Decode(t).value) == t
  {
  }

  /** `reducer(state, action)` on an untyped action object. */
  function Dispatch(s: State, t: TaggedAction): (r: Result<State, DispatchError>)
    ensures !KnownTag(t.tag) ==> r == Failure(UnknownActionType)
    ensures r.Success? <==> Decode(t).Success?
    ensures r.Success? ==> r.value == Reduce(s, Decode(t).value)
  {
    match Decode(t)
    case Success(a) => Success(Reduce(s, a))
    case Failure(e) => Failure(e)
  }

  // ---------------------------------------------------------------------------
  // Sequences of actions

  /** The state after dispatching `acts` in order. */
  function ReduceAll(s: State, acts: seq<Action>): (r: State)
    ensures |acts| > 0 ==> (r.isLoading <==> acts[|acts| - 1].Loading?)
    ensures |acts| == 0 ==> r == s
    ensures (forall i :: 0 <= i < |acts| ==> !acts[i].Rejected?) ==> r.error == s.error
    ensures (forall i :: 0 <= i < |acts| ==> !acts[i].CityLoaded?) ==> r.currentCity == s.currentCity
    decreases |acts|
  {
    if |acts| == 0 then s else ReduceAll(Reduce(s, acts[0]), acts[1..])
  }

  lemma {:induction false} ReduceAllAppend(s: State, xs: seq<Action>, ys: seq<Action>)
    ensures ReduceAll(s, xs + ys) == ReduceAll(ReduceAll(s, xs), ys)
    decreases |xs|
  {
    if |xs| == 0 {
      assert xs + ys == ys;
    } else {
      var s' := Reduce(s, xs[0]);
      assert (xs + ys)[0] == xs[0];
      assert (xs + ys)[1..] == xs[1..] + ys;
      ReduceAllAppend(s', xs[1..], ys);
      assert ReduceAll(s, xs + ys) == ReduceAll(s', xs[1..] + ys);
      assert ReduceAll(s, xs) == ReduceAll(s', xs[1..]);
    }
  }

  // ---------------------------------------------------------------------------
  // The asynchronous operations

  const LoadCitiesError := "There was an error loading cities..."
  const LoadCityError := "There was an error loading the city..."
  const CreateCityError := "There was an error creating the city..."
  const DeleteCityError := "There was an error deleting the city..."

  /** One call of an operation together with what its remote call delivered.
      `id` and `draft` are what is sent to the backend; the reply is opaque. */
  datatype Request =
    | FetchCities(cities: Outcome<seq<City>>)
    | GetCity(id: CityId, found: Outcome<City>)
    | CreateCity(draft: Draft, created: Outcome<City>)
    | DeleteCity(id: CityId, deleted: Outcome<()>)
  {
    predicate Succeeded()
    {
      match this
      case FetchCities(o) => o.Ok?
      case GetCity(_, o) => o.Ok?
      case CreateCity(_, o) => o.Ok?
      case DeleteCity(_, o) => o.Ok?
    }
  }

  /** The actions an operation dispatches: `loading`, then its success action when the
      awaited calls returned, or `rejected` with its fixed message when one threw. */
  function Dispatches(req: Request): (acts: seq<Action>)
    ensures |acts| == 2 && acts[0] == Loading && !acts[1].Loading?
    ensures acts[1].Rejected? <==> !req.Succeeded()
  {
    match req
    case FetchCities(o) =>
      [Loading, if o.Ok? then CitiesLoaded(o.payload) else Rejected(LoadCitiesError)]
    case GetCity(_, o) =>
      [Loading, if o.Ok? then CityLoaded(o.payload) else Rejected(LoadCityError)]
    case CreateCity(_, o) =>
      [Loading, if o.Ok? then CityCreated(o.payload) else Rejected(CreateCityError)]
    case DeleteCity(id, o) =>
      [Loading, if o.Ok? then CityDeleted(id) else Rejected(DeleteCityError)]
  }

  /** The message an operation leaves behind when its remote call fails. */
  function FailureMessage(req: Request): string
  {
    match req
    case FetchCities(_) => LoadCitiesError
    case GetCity(_, _) => LoadCityError
    case CreateCity(_, _) => CreateCityError
    case DeleteCity(_, _) => DeleteCityError
  }

  /** What one completed operation does to the store. A failure sets the operation's
      message and leaves list and selection as they were; a success keeps the previous
      error and changes exactly what its action promises. */
  lemma RequestEffect(s: State, req: Request)
    ensures Reduce(s, Loading).isLoading
    ensures var r := ReduceAll(s, Dispatches(req));
      && !r.isLoading
      && (!req.Succeeded() ==>
            r.cities == s.cities && r.currentCity == s.currentCity && r.error == FailureMessage(req))
      && (req.Succeeded() ==> r.error == s.error)
      && (req.FetchCities? && req.Succeeded() ==>
            r.cities == req.cities.payload && r.currentCity == s.currentCity)
      && (req.GetCity? && req.Succeeded() ==>
            r.cities == s.cities && r.currentCity == Some(req.found.payload))
      && (req.CreateCity? && req.Succeeded() ==>
            r.cities == s.cities + [req.created.payload] && r.currentCity == s.currentCity)
      && (req.DeleteCity? && req.Succeeded() ==>
            r.cities == RemoveId(s.cities, req.id) && r.currentCity == s.currentCity)
  {
  }

  /** Scenario: an empty backend loads an empty list without error. */
  lemma EmptyBackend()
    ensures ReduceAll(InitialState(), Dispatches(FetchCities(Ok([])))) == InitialState()
  {
  }

  /** The actions of operations run one after another, none overlapping another. */
  function Session(reqs: seq<Request>): (acts: seq<Action>)
    ensures |acts| == 2 * |reqs|
    ensures forall i :: 0 <= i < |acts| ==> (acts[i].Loading? <==> i % 2 == 0)
    decreases |reqs|
  {
    if |reqs| == 0 then [] else Dispatches(reqs[0]) + Session(reqs[1..])
  }

  lemma {:induction false} SessionAppend(reqs: seq<Request>, req: Request)
    ensures Session(reqs + [req]) == Session(reqs) + Dispatches(req)
    decreases |reqs|
  {
    if |reqs| == 0 {
      assert reqs + [req] == [req];
    } else {
      assert (reqs + [req])[0] == reqs[0];
      assert (reqs + [req])[1..] == reqs[1..] + [req];
      SessionAppend(reqs[1..], req);
    }
  }

  /** A session is its operations applied one after another: the store after one more
      operation is that operation's effect on the store the earlier ones left. */
  lemma SessionStepwise(s: State, reqs: seq<Request>, req: Request)
    ensures ReduceAll(s, Session(reqs + [req])) == ReduceAll(ReduceAll(s, Session(reqs)), Dispatches(req))
  {
    SessionAppend(reqs, req);
    ReduceAllAppend(s, Session(reqs), Dispatches(req));
  }

  /** In a session of non-overlapping operations starting idle, the loading flag is up
      exactly while an operation has started and not yet resolved: after an odd number
      of dispatches. */
  lemma LoadingOnlyWhilePending(s: State, reqs: seq<Request>, k: nat)
    requires !s.isLoading
    requires k <= 2 * |reqs|
    ensures ReduceAll(s, Session(reqs)[..k]).isLoading <==> k % 2 == 1
  {
  }
}
