/** The parts of an HTTP response status that the token service and the location resolver inspect. */
module Http {
  /** HTTP 401 Unauthorized. */
  const Unauthorized: int := 401

  /** `HttpResponseMessage.IsSuccessStatusCode`: the status lies in 200..299. */
  predicate IsSuccessStatusCode(status: int) {
    200 <= status <= 299
  }
}
