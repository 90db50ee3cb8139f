# FlightApp: token cache and flight location resolver

A Dafny model of the back end of FlightApp. FlightApp looks up the live position of a flight in the OpenSky
API. The back end has two components, and they share one process-wide `IMemoryCache`:

- **Token cache manager.** `TokenService.GetTokenAsync` returns the OAuth2 bearer token.
  - The token is kept in the cache under the single key `CacheKey` (`"OpenSkyAccessToken"`).
  - The token endpoint is called only on a miss.
  - A success whose JSON body has both `access_token` and `expires_in` is cached for `expires_in - 60` seconds.
  - Any other answer gives no token and leaves the cache alone.
- **Location resolver.** `FlightAppLogic.GetFlightLocation` works like this:
  - It asks the token service for a token. Without one it stops before sending any request.
  - With a token it queries the states endpoint.
  - On 401 Unauthorized it removes `CacheKey`, so that the next call fetches a new token. Any other failure gives no result.
  - On success it scans the `states` array in order. The first state vector whose index-1 call sign, trimmed, equals the flight number ignoring case becomes the `FlightLocation`: call sign 1, latitude 6, longitude 5, origin country 2.

Files:

- `wrappers.dfy`: `Option`.
- `http.dfy`: the success range of status codes, and 401.
- `text.dfy`: `Trim` and ordinal ignore-case comparison.
- `memory_cache.dfy`: the shared cache, as a class.
  - `entries` maps each key to its value and the time-to-live it was stored with.
  - A ghost log `writes` records every `Set` and `Remove`.
- `token_service.dfy`: the token cache manager.
  - `GetTokenStep` is the decision one call takes.
  - The lemmas state its properties. Together they form the token's life cycle: Absent, then Valid after a good fetch, then Absent again after invalidation.
  - The class method `GetToken` updates the cache as that step says.
- `flight_app_logic.dfy`: the location resolver.
  - `FirstMatch` and `FindFlight` specify the scan.
  - The class method `GetFlightLocation` performs the scan with a `while` loop and makes the cache changes.

The two HTTP calls are inputs:

- `GetToken` takes the token endpoint's answer (`TokenResponse`) and reports whether it made the call.
- `GetFlightLocation` takes both answers and reports whether it sent the states request.

The answers arrive already parsed:

- The token body becomes two optional properties.
- The states body becomes an optional sequence of positional state vectors. Each entry is a JSON `Field`: null, a string, a number, a boolean, or an array or object kept as its JSON text.

`expires_in` is a C# `int`, and `expiry - 60` is unchecked `int` arithmetic. The model wraps it to 32 bits (`Wrap32`). A lifetime below `int.MinValue + 60` therefore gives a large positive time-to-live, and `TimeToLivePositive` states exactly which lifetimes the cache accepts.

The `?? 0` and `?? string.Empty` fallbacks in `FlightAppLogic.cs` (lines 87-90) never apply, because indexing a `JArray` never yields null. What the code does instead:

- A JSON null call sign or country renders as the empty string, and a boolean as `True` or `False`, as `Render` models.
- A missing index throws. The scan reads index 1 of each vector it reaches, and indices 2, 5 and 6 only of the first match. `ScansSafely` is exactly the condition under which none of these reads throws, and the model excludes only the inputs it rules out (see below).

## Model

| member | source | states |
|---|---|---|
| `Text.TrimStart` | FlightAppApi/FlightAppApi/ApiLogic/FlightAppLogic.cs:83 | the result is no longer than the input and does not start with whitespace |
| `Text.TrimStartDropsWhiteSpace` | FlightAppApi/FlightAppApi/ApiLogic/FlightAppLogic.cs:83 | `TrimStart` keeps a suffix of its input and every character it drops is whitespace |
| `Text.TrimEnd` | FlightAppApi/FlightAppApi/ApiLogic/FlightAppLogic.cs:83 | the result is no longer than the input and does not end with whitespace |
| `Text.TrimEndDropsWhiteSpace` | FlightAppApi/FlightAppApi/ApiLogic/FlightAppLogic.cs:83 | `TrimEnd` keeps a prefix of its input and every character it drops is whitespace |
| `Text.Trim` | FlightAppApi/FlightAppApi/ApiLogic/FlightAppLogic.cs:83 | `Trim` leaves no whitespace at either end and never lengthens the string |
| `Text.TrimStripsWhiteSpace` | FlightAppApi/FlightAppApi/ApiLogic/FlightAppLogic.cs:83 | the trimmed call sign is a contiguous piece of the original with only whitespace cut from either side |
| `Text.TrimKeepsTrimmed` | FlightAppApi/FlightAppApi/ApiLogic/FlightAppLogic.cs:83 | a string without outer whitespace is unchanged by `Trim` |
| `Text.TrimIdempotent` | FlightAppApi/FlightAppApi/ApiLogic/FlightAppLogic.cs:83 | trimming twice gives the same as trimming once |
| `Text.FoldCase` | FlightAppApi/FlightAppApi/ApiLogic/FlightAppLogic.cs:83 | lower-case ASCII letters fold to upper case, every other character is left alone |
| `Text.Folded` | FlightAppApi/FlightAppApi/ApiLogic/FlightAppLogic.cs:83 | the folded string has the same length and folds each character in place |
| `Text.EqualsIgnoreCaseIsFoldedEquality` | FlightAppApi/FlightAppApi/ApiLogic/FlightAppLogic.cs:83 | comparing with `OrdinalIgnoreCase` holds exactly when the case-folded strings are equal (both directions) |
| `Text.EqualsIgnoreCaseIsEquivalence` | FlightAppApi/FlightAppApi/ApiLogic/FlightAppLogic.cs:83 | the ignore-case comparison is reflexive, symmetric and transitive |
| `Text.EqualsIgnoreCase` | FlightAppApi/FlightAppApi/ApiLogic/FlightAppLogic.cs:83 | `OrdinalIgnoreCase` equality: the two strings have the same length and agree position by position once each character is case-folded |
| `Cache.MemoryCache.TryGetValue` | FlightAppApi/FlightAppApi/Services/TokenService.cs:57 | reports a value exactly when the key is present, and then it is the stored value |
| `Cache.MemoryCache.Set` | FlightAppApi/FlightAppApi/Services/TokenService.cs:101 | stores the value with its time-to-live under the key, rejects a non-positive time-to-live, logs one `Stored` write |
| `Cache.MemoryCache.Remove` | FlightAppApi/FlightAppApi/ApiLogic/FlightAppLogic.cs:69 | nothing is left under the key, every other entry stays, one `Removed` write is logged |
| `TokenService.Wrap32` | FlightAppApi/FlightAppApi/Services/TokenService.cs:99-101 | unchecked `int` arithmetic: the result is congruent to the input modulo 2^32 and equals it when it fits in an `int` |
| `TokenService.TimeToLive` | FlightAppApi/FlightAppApi/Services/TokenService.cs:101 | the cache lifetime `expiry - 60`, computed as unchecked `int` subtraction through `Wrap32` |
| `TokenService.TimeToLiveIsLifetimeLessMargin` | FlightAppApi/FlightAppApi/Services/TokenService.cs:99-101 | the stored time-to-live is `expires_in - 60`, below the lifetime, whenever the subtraction does not wrap |
| `TokenService.TimeToLivePositive` | FlightAppApi/FlightAppApi/Services/TokenService.cs:99-101 | the time-to-live is positive exactly when `expires_in > 60` or the subtraction wraps |
| `TokenService.IsWellFormed` | FlightAppApi/FlightAppApi/Services/TokenService.cs:82-96 | the token endpoint's answer can be used: its status is a success (line 82) and the body has both `access_token` and `expires_in` (line 92) |
| `TokenService.GetTokenStep` | FlightAppApi/FlightAppApi/Services/TokenService.cs:55-104 | a call fetches exactly on a miss; it yields a token exactly on a hit or a well-formed success; it writes exactly when it fetched a token, and writes the token it returns |
| `TokenService.CacheHitReturnsCachedToken` | FlightAppApi/FlightAppApi/Services/TokenService.cs:57-60 | with a token under `CacheKey` that token is returned, no fetch is made and nothing is written |
| `TokenService.FailedFetchWritesNothing` | FlightAppApi/FlightAppApi/Services/TokenService.cs:82-96 | on a miss, a non-success status or a body missing `access_token` or `expires_in` gives no token and no write |
| `TokenService.GoodFetchStoresToken` | FlightAppApi/FlightAppApi/Services/TokenService.cs:98-103 | on a miss with a well-formed success, `access_token` is returned and cached under `CacheKey` with time-to-live `expires_in - 60` |
| `TokenService.OnlyCacheKeyIsWritten` | FlightAppApi/FlightAppApi/Services/TokenService.cs:101 | a call makes at most one write, a `Set` under `CacheKey`, and every other key keeps its entry |
| `TokenService.RepeatedCallHitsCache` | FlightAppApi/FlightAppApi/Services/TokenService.cs:57-103 | once a call has produced a token, the next call is a hit that returns the same token without a fetch or a write |
| `TokenService.InvalidationForcesFetch` | FlightAppApi/FlightAppApi/Services/TokenService.cs:57-60 | after `CacheKey` is removed the next call fetches from the token endpoint |
| `TokenService.TokenFetchedExample` | FlightAppApi/ApiTests/TokenServiceTests.cs:42-61 | an empty cache and the answer `{access_token: "api_token_123", expires_in: 3600}` return that token and cache it for 3540 seconds |
| `TokenService.TokenService.GetToken` | FlightAppApi/FlightAppApi/Services/TokenService.cs:55-104 | returns the step's token and reports its fetch; the cache afterwards holds the old entries plus the stored one, and the write log grows by exactly that write |
| `FlightAppLogic.Render` | FlightAppApi/FlightAppApi/ApiLogic/FlightAppLogic.cs:83-90 | `JToken.ToString()` of a state-vector field: JSON null gives the empty string, a string its text, a number its literal, a boolean `True` or `False`, an array or object its JSON text |
| `FlightAppLogic.Matches` | FlightAppApi/FlightAppApi/ApiLogic/FlightAppLogic.cs:83 | a state vector matches when it has index 1 and that field, rendered and trimmed, equals the flight number under `OrdinalIgnoreCase` |
| `FlightAppLogic.PaddedQueryNeverMatches` | FlightAppApi/FlightAppApi/ApiLogic/FlightAppLogic.cs:83 | the flight number is compared untrimmed, so a query with whitespace at either end matches no state vector |
| `FlightAppLogic.Locate` | FlightAppApi/FlightAppApi/ApiLogic/FlightAppLogic.cs:85-91 | the `FlightLocation` built from the matching vector: trimmed call sign from index 1, latitude from index 6, longitude from index 5, origin country rendered from index 2 |
| `FlightAppLogic.FirstMatch` | FlightAppApi/FlightAppApi/ApiLogic/FlightAppLogic.cs:81-93 | the index found matches, reaches index 6, and no earlier one from the start point matches; no index means nothing from the start point matches |
| `FlightAppLogic.FirstMatchIsUnique` | FlightAppApi/FlightAppApi/ApiLogic/FlightAppLogic.cs:81-93 | the scan from the start stops at the first matching state vector and nowhere else |
| `FlightAppLogic.FindFlight` | FlightAppApi/FlightAppApi/ApiLogic/FlightAppLogic.cs:77-96 | no location exactly when `states` is absent or no state vector matches; otherwise the location built from the first match |
| `FlightAppLogic.FoundLocationDescribesFirstMatch` | FlightAppApi/FlightAppApi/ApiLogic/FlightAppLogic.cs:83-91 | a returned call sign equals the query up to case and is trimmed; it, the latitude (index 6), the longitude (index 5) and the origin country (index 2) come from the first matching state vector |
| `FlightAppLogic.FlightExistsExample` | FlightAppApi/ApiTests/FlightAppLogicTests.cs:29-54 | `[null, "12345", "USA", null, null, -80.123, 25.456]` and query `12345` give call sign `12345`, latitude 25.456, longitude -80.123, country `USA` |
| `FlightAppLogic.ShortVectorsOutsideTheMatchExample` | FlightAppApi/FlightAppApi/ApiLogic/FlightAppLogic.cs:81-91 | a two-field vector before the match, or an empty vector after it, is accepted, and the match is still returned |
| `FlightAppLogic.FlightNotFoundExample` | FlightAppApi/ApiTests/FlightAppLogicTests.cs:93-113 | a single state vector with call sign `NOTFOUND` gives no location for `12345` |
| `FlightAppLogic.PaddedCallSignMatchesExample` | FlightAppApi/FlightAppApi/ApiLogic/FlightAppLogic.cs:83 | call sign `" AB123 "` matches the query `ab123` |
| `FlightAppLogic.FlightAppLogic.GetFlightLocation` | FlightAppApi/FlightAppApi/ApiLogic/FlightAppLogic.cs:51-97 | without a token: no result, no states request, no cache change beyond the token step; on 401: no result and exactly one `Remove(CacheKey)`; other failures: no result and no removal; on success: the first match by `FindFlight` and nothing removed |

## Left out

- HTTP mechanics are not modelled. The model leaves out:
  - request construction, the form-encoded body, and the `Accept` and `Bearer` headers;
  - the configuration lookups of `TokenUrl`, `ClientId`, `ClientSecret` and `StatesUrl`;
  - transport failures.
  - Each call's answer is a parameter instead.
- JSON parsing (`JsonDocument`, `JObject`) is library code. The model starts from the parsed values.
- Library exceptions are not modelled:
  - malformed JSON;
  - a `states` object with properties, or a `states` element that is not an array: reading `state[1]` throws. A scalar `states` does not throw: it has no children, gives no location, and is modelled as `None`;
  - `GetString` on a non-string `access_token`;
  - `GetInt32` on a non-integer `expires_in`;
  - `ToObject<double>` on a non-numeric coordinate.
- A present but null `access_token` is not modelled. In the source, `GetString` returns null and that null is cached.
- `FlightAppLogic.FlightAppLogic.GetFlightLocation`: requires `ScansSafely`. Every vector the scan reaches must have index 1, and the first match must have index 6. Any other input makes the source throw an out-of-range exception, which is not modelled.
- `FlightAppLogic.FlightAppLogic.GetFlightLocation`: requires the token service and the resolver to share one cache. That is how `Program.cs` registers a single `AddMemoryCache` instance. The unit tests give the resolver a separate mock cache, which this model does not cover.
- `TokenService.TokenService.GetToken`: requires that a fetched token's time-to-live be positive (`AcceptsLifetime`). `MemoryCache` throws on a non-positive one, and the exception is not modelled.
- `FlightAppLogic.FlightAppLogic.GetFlightLocation`: requires `AcceptsLifetime` as well, because it calls the token service. The same `MemoryCache` exception is not modelled.
- Latitude and longitude are not converted to `double`. The resolver carries the JSON fields at indices 6 and 5 into the `FlightLocation` unchanged, so floating point is not modelled.
- The text of a JSON number is modelled as the literal it was written with. An array or object is modelled as its JSON text. .NET's and Newtonsoft's own formatting is not modelled.
- Whitespace and case use reduced character sets:
  - whitespace is the Latin-1 part of `char.IsWhiteSpace`;
  - case folding upper-cases ASCII letters only.
  - Other Unicode whitespace and case mappings are not modelled.
- The cache's wall-clock expiry is not modelled. The cache enforces it itself; the model records the time-to-live of each entry and treats every entry present as unexpired.
- Concurrent requests racing on the shared cache are not modelled, since the source does no coordination.
- Logging of failures is not modelled.
- The HTTP controller's mapping of "no location" to 404 is not part of this model. Neither are dependency-injection wiring, CORS, or the map front end.
