/**
 * The location resolver: `FlightAppLogic.GetFlightLocation` gets a token,
 * asks the OpenSky states endpoint for every aircraft's state vector, drops
 * the cached token when that endpoint answers 401, and otherwise returns the
 * first aircraft whose call sign is the flight number asked for.
 *
 * The states endpoint is not called here: its answer is the `StatesResponse`
 * parameter, already parsed into positional fields, and `GetFlightLocation`
 * reports whether the request was sent.
 */
module FlightAppLogic {
  import opened Wrappers
  import opened Http
  import opened Text
  import opened Cache
  import TokenService

  /**
   * A JSON value inside a state vector. A number keeps the text it was written
   * with; an array or object keeps the JSON text Newtonsoft prints for it.
   */
  datatype Field = Null | Str(text: string) | Num(literal: string) | Bool(value: bool) | Composite(json: string)

  /** One aircraft's state vector: the positional array of the `states` property. */
  type StateVector = seq<Field>

  /** The fields read from the matching state vector run up to index 6. */
  const MinStateFields: int := 7

  /** `JToken.ToString()`: JSON null gives the empty string, a boolean `True` or `False`. */
  function Render(field: Field): string {
    match field
    case Null => ""
    case Str(text) => text
    case Num(literal) => literal
    case Bool(value) => if value then "True" else "False"
    case Composite(json) => json
  }

  /**
   * The states endpoint's answer: its status code and, for a success, the
   * `states` property of the body. `None` stands for an absent or null
   * `states` and for a scalar one, such as `"states": 5`: the resolver's
   * `foreach` finds no children in a scalar, so all three give no location.
   */
  datatype StatesResponse = StatesResponse(status: int, states: Option<seq<StateVector>>)

  /** The location handed back; latitude and longitude are carried over unconverted. */
  datatype FlightLocation = FlightLocation(callSign: string, latitude: Field, longitude: Field, originCountry: string)

  /** The call sign at index 1, trimmed. */
  function CallSignOf(state: StateVector): string
    requires |state| >= 2
  {
    Trim(Render(state[1]))
  }

  /**
   * A state vector answers the query when its trimmed call sign equals it,
   * ignoring case. A vector without index 1 never matches; `ScansSafely`
   * keeps the scan from reaching one.
   */
  predicate Matches(state: StateVector, flightNumber: string) {
    |state| >= 2 && EqualsIgnoreCase(CallSignOf(state), flightNumber)
  }

  /**
   * The flight number itself is not trimmed: a query with whitespace at
   * either end never equals a trimmed call sign, whatever the case.
   */
  lemma PaddedQueryNeverMatches(state: StateVector, flightNumber: string)
    requires !IsTrimmed(flightNumber)
    ensures !Matches(state, flightNumber)
  {
    if Matches(state, flightNumber) {
      var callSign := CallSignOf(state);
      var n := |flightNumber|;
      FoldCaseKeepsWhiteSpace(callSign[0]);
      FoldCaseKeepsWhiteSpace(flightNumber[0]);
      FoldCaseKeepsWhiteSpace(callSign[n - 1]);
      FoldCaseKeepsWhiteSpace(flightNumber[n - 1]);
      assert false;
    }
  }

  /** The location built from a state vector: call sign 1, latitude 6, longitude 5, origin country 2. */
  function Locate(state: StateVector): FlightLocation
    requires |state| >= MinStateFields
  {
    FlightLocation(CallSignOf(state), state[6], state[5], Render(state[2]))
  }

  /**
   * The scan from `from` reads no index a vector lacks: every vector it
   * reaches has index 1, and the first match, if any, has index 6.
   */
  predicate ScansSafely(states: seq<StateVector>, flightNumber: string, from: nat)
    requires from <= |states|
    decreases |states| - from
  {
    from == |states| ||
    (|states[from]| >= 2 &&
     if Matches(states[from], flightNumber) then |states[from]| >= MinStateFields
     else ScansSafely(states, flightNumber, from + 1))
  }

  /** `states[k]` matches and no state vector before it does. */
  predicate IsFirstMatch(states: seq<StateVector>, k: int, flightNumber: string) {
    0 <= k < |states| && Matches(states[k], flightNumber) &&
    forall j :: 0 <= j < k ==> !Matches(states[j], flightNumber)
  }

  /** The index of the first matching state vector at or after `from`, if any matches. */
  function FirstMatch(states: seq<StateVector>, flightNumber: string, from: nat): (r: Option<nat>)
    requires from <= |states| && ScansSafely(states, flightNumber, from)
    ensures r.Some? ==> from <= r.value < |states| && Matches(states[r.value], flightNumber)
    ensures r.Some? ==> |states[r.value]| >= MinStateFields
    ensures r.Some? ==> forall j :: from <= j < r.value ==> !Matches(states[j], flightNumber)
    ensures r.None? ==> forall k :: from <= k < |states| ==> !Matches(states[k], flightNumber)
    decreases |states| - from
  {
    if from == |states| then None
    else if Matches(states[from], flightNumber) then Some(from)
    else FirstMatch(states, flightNumber, from + 1)
  }

  /** Scanning from the start finds `k` when `k` is the first match. */
  lemma FirstMatchIsUnique(states: seq<StateVector>, k: int, flightNumber: string)
    requires ScansSafely(states, flightNumber, 0) && IsFirstMatch(states, k, flightNumber)
    ensures FirstMatch(states, flightNumber, 0) == Some(k)
  {
  }

  /** What a successful states response resolves to. */
  function FindFlight(states: Option<seq<StateVector>>, flightNumber: string): (location: Option<FlightLocation>)
    requires states.Some? ==> ScansSafely(states.value, flightNumber, 0)
    ensures location.None? <==>
      states.None? || forall k :: 0 <= k < |states.value| ==> !Matches(states.value[k], flightNumber)
    ensures location.Some? ==>
      exists k :: IsFirstMatch(states.value, k, flightNumber) && |states.value[k]| >= MinStateFields &&
        location.value == Locate(states.value[k])
  {
    if states.None? then None
    else match FirstMatch(states.value, flightNumber, 0)
      case None => None
      case Some(k) => Some(Locate(states.value[k]))
  }

  /**
   * A returned location is built from the first matching state vector: its
   * call sign (index 1, trimmed) equals the flight number up to case, the
   * latitude is index 6, the longitude index 5 and the origin country index 2.
   */
  lemma FoundLocationDescribesFirstMatch(states: seq<StateVector>, flightNumber: string)
    requires ScansSafely(states, flightNumber, 0)
    ensures FindFlight(Some(states), flightNumber).Some? ==>
      var location := FindFlight(Some(states), flightNumber).value;
      EqualsIgnoreCase(location.callSign, flightNumber) && IsTrimmed(location.callSign) &&
      exists k :: IsFirstMatch(states, k, flightNumber) && |states[k]| >= MinStateFields &&
        location.callSign == Trim(Render(states[k][1])) &&
        location.latitude == states[k][6] && location.longitude == states[k][5] &&
        location.originCountry == Render(states[k][2])
  {
    if FindFlight(Some(states), flightNumber).Some? {
      var location := FindFlight(Some(states), flightNumber).value;
      var k :| IsFirstMatch(states, k, flightNumber) && |states[k]| >= MinStateFields &&
               location == Locate(states[k]);
    }
  }

  /** The single state vector of the found-flight scenario, with call sign `callSign`. */
  function SampleState(callSign: string, longitude: string, latitude: string): StateVector {
    [Null, Str(callSign), Str("USA"), Null, Null, Num(longitude), Num(latitude)]
  }

  /** A flight listed under its own number is located, with latitude from index 6 and longitude from index 5. */
  lemma FlightExistsExample()
    ensures FindFlight(Some([SampleState("12345", "-80.123", "25.456")]), "12345") ==
      Some(FlightLocation("12345", Num("25.456"), Num("-80.123"), "USA"))
  {
  }

  /** Vectors too short for indices 5 and 6 are fine where the scan never reads those indices. */
  lemma ShortVectorsOutsideTheMatchExample()
    ensures ScansSafely([[Null, Str("ZZ")], SampleState("12345", "1", "2")], "12345", 0)
    ensures FindFlight(Some([[Null, Str("ZZ")], SampleState("12345", "1", "2")]), "12345") ==
      Some(FlightLocation("12345", Num("2"), Num("1"), "USA"))
    ensures ScansSafely([SampleState("12345", "1", "2"), []], "12345", 0)
    ensures FindFlight(Some([SampleState("12345", "1", "2"), []]), "12345") ==
      Some(FlightLocation("12345", Num("2"), Num("1"), "USA"))
  {
    var short: StateVector := [Null, Str("ZZ")];
    var full := SampleState("12345", "1", "2");
    TrimKeepsTrimmed("ZZ");
    TrimKeepsTrimmed("12345");
    assert !Matches(short, "12345");
    assert Matches(full, "12345");
    FirstMatchIsUnique([short, full], 1, "12345");
    FirstMatchIsUnique([full, []], 0, "12345");
  }

  /** A flight number no call sign matches is not found. */
  lemma FlightNotFoundExample()
    ensures FindFlight(Some([SampleState("NOTFOUND", "10.1", "20.2")]), "12345").None?
  {
  }

  /** A call sign padded with spaces and in another case still matches. */
  lemma PaddedCallSignMatchesExample()
    ensures Matches(SampleState(" AB123 ", "0", "0"), "ab123")
  {
    var state := SampleState(" AB123 ", "0", "0");
    assert TrimStart(" AB123 ") == "AB123 ";
    assert TrimEnd("AB123 ") == "AB123";
    assert CallSignOf(state) == "AB123";
    forall i | 0 <= i < 5 ensures FoldCase("AB123"[i]) == FoldCase("ab123"[i]) {
    }
  }

  class FlightAppLogic {
    const tokenService: TokenService.TokenService
    const cache: MemoryCache

    constructor (tokenService: TokenService.TokenService, cache: MemoryCache)
      ensures this.tokenService == tokenService && this.cache == cache
    {
      this.tokenService := tokenService;
      this.cache := cache;
    }

    /**
     * `GetFlightLocation(flightNumber)`, with `tokenResponse` standing for the
     * token endpoint's answer (used only on a cache miss) and `response` for
     * the states endpoint's. The token service writes to the same cache.
     */
    method GetFlightLocation(flightNumber: string, tokenResponse: TokenService.TokenResponse, response: StatesResponse)
      returns (location: Option<FlightLocation>, requested: bool)
      requires tokenService.cache == cache
      requires TokenService.AcceptsLifetime(cache.entries, tokenResponse)
      requires IsSuccessStatusCode(response.status) && response.states.Some? ==>
        ScansSafely(response.states.value, flightNumber, 0)
      modifies cache
      ensures var step := TokenService.GetTokenStep(old(cache.entries), tokenResponse);
        var afterToken := TokenService.EntriesAfter(old(cache.entries), step);
        var invalidated := step.token.Some? && response.status == Unauthorized;
        requested == step.token.Some? &&
        location == (if step.token.Some? && IsSuccessStatusCode(response.status)
                     then FindFlight(response.states, flightNumber) else None) &&
        cache.entries == (if invalidated then afterToken - {TokenService.CacheKey} else afterToken) &&
        cache.writes == old(cache.writes) + TokenService.WritesOf(step) +
                        (if invalidated then [Removed(TokenService.CacheKey)] else [])
    {
      var token, _ := tokenService.GetToken(tokenResponse);
      if token.None? {
        return None, false;
      }
      requested := true;
      if !IsSuccessStatusCode(response.status) {
        if response.status == Unauthorized {
          cache.Remove(TokenService.CacheKey);
        }
        return None, requested;
      }
      if response.states.Some? {
        var states := response.states.value;
        var i := 0;
        while i < |states|
          invariant 0 <= i <= |states| && ScansSafely(states, flightNumber, i)
          invariant FirstMatch(states, flightNumber, i) == FirstMatch(states, flightNumber, 0)
        {
          if Matches(states[i], flightNumber) {
            return Some(Locate(states[i])), requested;
          }
          i := i + 1;
        }
      }
      location := None;
    }
  }
}
