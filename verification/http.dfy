/** What the HTTP client library decides about a status code. */
module Http {

  /** `raise_for_status` raises for every client (4xx) and server (5xx) error code. */
  predicate RaisesForStatus(status: int) {
    400 <= status < 600
  }
}
