/**
 * The token cache manager: `TokenService.GetTokenAsync` hands out the
 * OpenSky bearer token, fetching it from the OAuth2 token endpoint only when
 * the shared cache holds none under `CacheKey`.
 *
 * The token endpoint is not called here: its answer is the `TokenResponse`
 * parameter, already reduced to the status code and the two JSON properties
 * the code reads, and `GetToken` reports whether the call was made.
 */
module TokenService {
  import opened Wrappers
  import opened Http
  import opened Cache

  /** The one key the token is cached under. */
  const CacheKey: string := "OpenSkyAccessToken"

  /** Seconds taken off the token's lifetime before it is cached. */
  const ExpiryMarginSeconds: int := 60

  const MinInt32: int := -0x8000_0000
  const TwoTo32: int := 0x1_0000_0000

  /** The values of a C# `int`. */
  type Int32 = x: int | MinInt32 <= x < 0x8000_0000

  /** C#'s unchecked `int` arithmetic: the two's-complement value of the low 32 bits of `x`. */
  function Wrap32(x: int): (r: Int32)
    ensures (x - r) % TwoTo32 == 0
    ensures MinInt32 <= x < 0x8000_0000 ==> r == x
  {
    var m := x % TwoTo32;
    if m < 0x8000_0000 then m else m - TwoTo32
  }

  /** The time-to-live, `expiry - 60`, computed in `int`. */
  function TimeToLive(expiresIn: Int32): Int32 {
    Wrap32(expiresIn - ExpiryMarginSeconds)
  }

  /** Unless the subtraction wraps, the token is cached for its lifetime less the margin. */
  lemma TimeToLiveIsLifetimeLessMargin(expiresIn: Int32)
    requires expiresIn >= MinInt32 + ExpiryMarginSeconds
    ensures TimeToLive(expiresIn) == expiresIn - ExpiryMarginSeconds
    ensures TimeToLive(expiresIn) < expiresIn
  {
  }

  /**
   * The cache accepts the time-to-live exactly when the lifetime exceeds the
   * margin, or when it lies so far below zero that `expiry - 60` wraps round.
   */
  lemma TimeToLivePositive(expiresIn: Int32)
    ensures TimeToLive(expiresIn) > 0 <==>
      (expiresIn > ExpiryMarginSeconds || expiresIn < MinInt32 + ExpiryMarginSeconds)
  {
  }

  /**
   * The token endpoint's answer: its status code and, for a success, whether
   * the JSON body has `access_token` (a string) and `expires_in` (an `int`).
   */
  datatype TokenResponse = TokenResponse(status: int, accessToken: Option<string>, expiresIn: Option<Int32>)

  /** A success whose body carries both properties. */
  predicate IsWellFormed(response: TokenResponse) {
    IsSuccessStatusCode(response.status) && response.accessToken.Some? && response.expiresIn.Some?
  }

  /**
   * What one call of `GetTokenAsync` does: the token it returns, whether it
   * called the token endpoint, and the entry it stored under `CacheKey`.
   */
  datatype TokenStep = TokenStep(token: Option<string>, fetched: bool, stored: Option<CacheEntry>)

  /** The step `GetTokenAsync` takes on a cache holding `entries` when the endpoint would answer `response`. */
  function GetTokenStep(entries: map<string, CacheEntry>, response: TokenResponse): (step: TokenStep)
    ensures step.fetched <==> CacheKey !in entries
    ensures step.token.Some? <==> CacheKey in entries || IsWellFormed(response)
    ensures step.stored.Some? <==> step.fetched && step.token.Some?
    ensures step.stored.Some? ==> step.token == Some(step.stored.value.value)
  {
    if CacheKey in entries then
      TokenStep(Some(entries[CacheKey].value), false, None)
    else if !IsSuccessStatusCode(response.status) then
      TokenStep(None, true, None)
    else if response.accessToken.None? || response.expiresIn.None? then
      TokenStep(None, true, None)
    else
      var token := response.accessToken.value;
      TokenStep(Some(token), true, Some(CacheEntry(token, TimeToLive(response.expiresIn.value))))
  }

  /** The cache entries after `step`. */
  function EntriesAfter(entries: map<string, CacheEntry>, step: TokenStep): map<string, CacheEntry> {
    if step.stored.Some? then entries[CacheKey := step.stored.value] else entries
  }

  /** The cache writes `step` makes. */
  function WritesOf(step: TokenStep): seq<Write> {
    if step.stored.Some? then [Stored(CacheKey, step.stored.value)] else []
  }

  /** The cache accepts what a fetch would store: `Set` rejects a time-to-live that is not positive. */
  predicate AcceptsLifetime(entries: map<string, CacheEntry>, response: TokenResponse) {
    CacheKey !in entries && IsWellFormed(response) ==> TimeToLive(response.expiresIn.value) > 0
  }

  /** A cached token is returned as it is, without a fetch and without a write. */
  lemma CacheHitReturnsCachedToken(entries: map<string, CacheEntry>, response: TokenResponse)
    requires CacheKey in entries
    ensures GetTokenStep(entries, response) == TokenStep(Some(entries[CacheKey].value), false, None)
  {
  }

  /** On a miss, a failed request or a body missing either property gives no token and writes nothing. */
  lemma FailedFetchWritesNothing(entries: map<string, CacheEntry>, response: TokenResponse)
    requires CacheKey !in entries && !IsWellFormed(response)
    ensures GetTokenStep(entries, response) == TokenStep(None, true, None)
  {
  }

  /** On a miss, a well-formed answer's `access_token` is returned and cached for `expires_in - 60` seconds. */
  lemma GoodFetchStoresToken(entries: map<string, CacheEntry>, response: TokenResponse)
    requires CacheKey !in entries && IsWellFormed(response)
    ensures var step := GetTokenStep(entries, response);
      step.token == Some(response.accessToken.value) &&
      EntriesAfter(entries, step)[CacheKey] ==
        CacheEntry(response.accessToken.value, TimeToLive(response.expiresIn.value))
  {
  }

  /** At most one write is made, always under `CacheKey`, and every other key keeps its entry. */
  lemma OnlyCacheKeyIsWritten(entries: map<string, CacheEntry>, response: TokenResponse)
    ensures var step := GetTokenStep(entries, response);
      |WritesOf(step)| <= 1 &&
      (forall w :: w in WritesOf(step) ==> w.Stored? && w.key == CacheKey) &&
      (forall k :: k != CacheKey ==>
         (k in EntriesAfter(entries, step) <==> k in entries) &&
         (k in entries ==> EntriesAfter(entries, step)[k] == entries[k]))
  {
  }

  /** Once a call has produced a token, the next call hits the cache and returns the same token. */
  lemma RepeatedCallHitsCache(entries: map<string, CacheEntry>, first: TokenResponse, second: TokenResponse)
    requires GetTokenStep(entries, first).token.Some?
    ensures var step := GetTokenStep(entries, first);
      GetTokenStep(EntriesAfter(entries, step), second) == TokenStep(step.token, false, None)
  {
  }

  /** Removing `CacheKey` (Valid to Absent) makes the next call fetch a token again. */
  lemma InvalidationForcesFetch(entries: map<string, CacheEntry>, response: TokenResponse)
    ensures GetTokenStep(entries - {CacheKey}, response).fetched
  {
  }

  /** An empty cache and a good answer: the token is returned and cached for 3600 - 60 seconds. */
  lemma TokenFetchedExample()
    ensures var step := GetTokenStep(map[], TokenResponse(200, Some("api_token_123"), Some(3600)));
      step == TokenStep(Some("api_token_123"), true, Some(CacheEntry("api_token_123", 3540))) &&
      EntriesAfter(map[], step) == map[CacheKey := CacheEntry("api_token_123", 3540)]
  {
  }

  class TokenService {
    const cache: MemoryCache

    constructor (cache: MemoryCache)
      ensures this.cache == cache
    {
      this.cache := cache;
    }

    /** `GetTokenAsync`, with `response` standing for the token endpoint's answer. */
    method GetToken(response: TokenResponse) returns (token: Option<string>, fetched: bool)
      requires AcceptsLifetime(cache.entries, response)
      modifies cache
      ensures var step := GetTokenStep(old(cache.entries), response);
        token == step.token && fetched == step.fetched &&
        cache.entries == EntriesAfter(old(cache.entries), step) &&
        cache.writes == old(cache.writes) + WritesOf(step)
    {
      token := cache.TryGetValue(CacheKey);
      if token.Some? {
        return token, false;
      }
      fetched := true;
      if !IsSuccessStatusCode(response.status) {
        return None, fetched;
      }
      if response.accessToken.None? || response.expiresIn.None? {
        return None, fetched;
      }
      var value := response.accessToken.value;
      var expiry := response.expiresIn.value;
      cache.Set(CacheKey, value, TimeToLive(expiry));
      token := Some(value);
    }
  }
}
