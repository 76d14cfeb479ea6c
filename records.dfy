/** The records that flow from the collection step to the emission step. */
module Records {
  import opened Wrappers

  /**
   * The fields of a go-github repository record that the exporter reads. The four text
   * fields are pointers in the client library and may be nil; the counts and flags are
   * taken as plain values.
   */
  datatype Repository = Repository(
    name: Option<string>,
    ownerLogin: Option<string>,
    licenseKey: Option<string>,
    language: Option<string>,
    stargazersCount: int,
    forksCount: int,
    openIssues: int,
    watchers: int,
    size: int,
    isPrivate: bool,
    isFork: bool,
    isArchived: bool)

  /** The three values of the API's quota-status response headers. */
  datatype RateLimits = RateLimits(limit: int, remaining: int, reset: int)

  /** Go's zero value `RateLimits{}`. */
  const ZeroRates := RateLimits(0, 0, 0)
}
