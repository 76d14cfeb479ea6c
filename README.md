# github-exporter collection core, modelled in Dafny

This project models the collection core of github-exporter, a Prometheus exporter for GitHub
repository and API-quota statistics. It covers three parts:

- **Target resolution** (`config.dfy`). The configured comma-separated repository,
  organisation and user lists become two things. The first is the owner-to-selector map the
  collector walks: only organisations are entered, each with the wildcard selector `"*"`. The
  second is the list of API URLs for the three target kinds. The API token is chosen between
  an inline value and the trimmed contents of a token file.
- **Collection** (`gather.dfy`). `isArray` sniffs whether a JSON payload is an array.
  `queryGitHub` walks the target map and makes one listing call per wildcard selector; it
  stops at the first failure and returns what it gathered so far. `getRates` probes
  `/rate_limit` and parses three headers. `gatherData` glues the two: a listing failure is
  returned, while a probe failure is only logged.
- **Emission** (`metrics.dfy`). `AddMetrics` builds the fixed table of eight metric
  descriptors. `processMetrics` sends five labelled samples per repository and then three
  unlabelled quota samples on a channel.

Supporting modules: `go_strings.dfy` models Go's `strings.Split`, `strings.Join`,
`strings.TrimSpace` and `%d` formatting. `seqs.dfy` holds sequence helpers, including the
fact that concatenating per-element images over two enumerations of the same elements gives
the same multiset. `records.dfy` holds the repository and quota records. `wrappers.dfy`
holds `Option`, which stands for nilable pointers and Go's `error` results.

How the model is shaped:

- Go's map iteration order is unspecified. `QueryGitHub` takes the order as a parameter
  `order`, which must be a duplicate-free enumeration of the map's keys. Order-independence
  is proved as multiset equality.
- The loops of `buildTargetReposMap`, `getScrapeURLs`, `isArray`, `queryGitHub` and
  `processMetrics` are methods with loop invariants. Each is proved against a specification
  function, and the listed properties are lemmas about those functions.
- The channel of `processMetrics` is a `MetricChannel` object whose `sent` sequence grows by
  one sample per send.
- External collaborators are parameters:
  - the go-github listing call is `Lister`: owner and page options give a transport error
    or repositories plus a status code;
  - the HTTP GET of the quota endpoint is `Fetcher`;
  - `strconv.ParseFloat` is `Parser`, a partial function from text to an integer;
  - the token file's read outcome is a `FileRead` value.

Points where the code does something a reader might not expect; the model follows the code:

- Listing asks for a single page: `Page: 0` with `PerPage: 100` (`exporter/gather.go:70-73`).
  No further pages are requested. On a failed call the repositories gathered so far are
  returned together with the error (`exporter/gather.go:80, 83`).
- A repository whose name, owner, license or language is nil is not skipped: the emission
  dereferences those fields, which panics on nil. Here their presence is a precondition of
  `ProcessMetrics`.
- `exporter/metrics.go:62-66` do not type-check as written. Every one of these lines passes
  the three flags `Private`, `Fork` and `Archived` as `bool` where `MustNewConstMetric` takes
  string label values. Lines 63-66 also pass the text fields as pointers, and the counts as
  pointers: lines 63-64 convert a pointer with `float64(...)`, and lines 65-66 pass
  `r.Watchers` and `r.Size` with no `float64` conversion at all. The model's choice is to
  render every label as the field's text value and a flag as `"true"` or `"false"`, and to
  value each sample with the count itself.

## Model

| member | source | states |
|---|---|---|
| `Config.BuildTargetReposMap` | config/config.go:64-95 | Returns the "No targets specified" error exactly when all three inputs are empty, and then the empty map. Its keys are exactly the `","` pieces of `orgs`, and none when `orgs` is empty, so repositories and users add nothing. Every value is `["*"]`. |
| `Config.TargetOwnersArePieces` | config/config.go:79-84 | The owners are split pieces of `orgs` and contain no comma. Joining the pieces back gives `orgs`. Duplicates collapse: there are at most one more owners than commas. |
| `Config.GetScrapeURLs` | config/config.go:99-137 | Returns the error and an empty list exactly when all inputs are empty. Otherwise it returns the repository URLs, then the organisation URLs, then the user URLs, one per `", "` piece in piece order. |
| `Config.ScrapeURLsShape` | config/config.go:103-134 | The URL count is the sum of the piece counts of the non-empty inputs. The list is empty iff no target is configured. Every URL starts with the API URL and ends with `?&per_page=100`. |
| `Config.KindURLsRoundTrip` | config/config.go:111-134 | Reading the target names back out of one kind's URLs and joining them with `", "` gives back the configured setting. Nothing is lost or reordered. |
| `Config.GetAuth` | config/config.go:140-154 | A non-empty inline token is returned unchanged. With neither input set, the token is `""` and there is no error. Otherwise the result is the file's contents stripped of surrounding white space (a slice of them, neither starting nor ending with white space), or `""` with the read error. |
| `Config.GetAuthInlineWins` | config/config.go:142-143 | With an inline token, the token file's name and contents do not affect the result. |
| `GoStrings.Split` | config/config.go:80 | `strings.Split` always gives at least one piece, and the empty string gives the single piece `""`. |
| `GoStrings.Join` | config/config.go:80 | `strings.Join`, the inverse of the `strings.Split` call here (see `SplitJoin` and `KindURLsRoundTrip`) and what Prometheus' `BuildFQName` joins names with, starts with the first piece, and its length is the pieces' summed length plus one separator between each two pieces. |
| `GoStrings.SplitJoin` | config/config.go:80 | `strings.Split` loses nothing: joining its pieces with the separator restores the input. |
| `GoStrings.SplitPiecesSepFree` | config/config.go:80 | No piece of `strings.Split` contains the separator. |
| `GoStrings.SplitCount` | config/config.go:80 | With a one-character separator, `k` occurrences give exactly `k+1` pieces, empty pieces included. |
| `GoStrings.TrimSpace` | config/config.go:149 | The result is the input with its leading and trailing white-space runs cut off. It neither starts nor ends with white space. |
| `GoStrings.TrimSpaceIdempotent` | config/config.go:149 | Trimming is idempotent, and all-white-space text trims to `""`. |
| `GoStrings.FormatInt` | exporter/gather.go:83 | `%d` renders a minus sign exactly for a negative number, followed by decimal digits that read back as its magnitude. |
| `GoStrings.NatToDecimalRoundTrip` | exporter/gather.go:83 | The decimal rendering used by `%d` reads back as the same number. |
| `GoStrings.FormatIntInjective` | exporter/gather.go:83 | Different status codes render differently, so the status error names the code unambiguously. |
| `Gather.IsArray` | exporter/gather.go:138-152 | Returns true iff the first byte that is not space, tab, CR or LF exists and is `[`. |
| `Gather.StartsArrayAfterSpace` | exporter/gather.go:142-145 | Prefixing any run of those four white-space bytes does not change the verdict. |
| `Gather.BlankIsNotArray` | exporter/gather.go:140-150 | Empty or all-white-space input is not an array. |
| `Gather.QueryGitHub` | exporter/gather.go:63-91 | The gathered repositories, the error and the calls made are exactly those of walking the owners in iteration order. Each wildcard selector triggers one call for page 0 of 100 results. The first transport error or non-200 status stops the walk. On success the repositories are every wildcard listing, and exactly the repositories of the calls made. On failure they are exactly the repositories of the calls before the failing one, a prefix of the listings. |
| `Gather.QueryGitHubOutcome` | exporter/gather.go:66-90 | The walk fails iff some due call fails. On success it returns every wildcard listing and makes every due call. On failure it returns exactly what the calls before the failing one brought back (a prefix of the listings) with the error of the first failing call, and every earlier call succeeded. |
| `Gather.StatusErrorNamesCode` | exporter/gather.go:82-83 | For one owner and selector, the unexpected-status error determines the status code: different codes give different messages. |
| `Gather.WildcardCallsMembers` | exporter/gather.go:69-77 | Every listing call asks for PerPage 100, Page 0, for an owner of the map. |
| `Gather.WildcardCallsCount` | exporter/gather.go:68-77 | Each owner gets exactly as many listing calls as it has `"*"` selectors. Other selectors contribute nothing. |
| `Gather.QueryGitHubOrderIndependent` | exporter/gather.go:66-90 | For any two map iteration orders, the walk fails under both or under neither. On success both return the same multiset of repositories and the same multiset of calls. |
| `Gather.GetRates` | exporter/gather.go:95-135 | Queries `baseURL + "/rate_limit"`. There is no error iff the transport succeeded, the status is not 404, and all three X-RateLimit headers, looked up under their canonical spelling, parse. On error the limits are zero-valued; otherwise they are exactly the three parsed values. A transport error is passed through, and a 404 gives the "Rate Limiting not enabled" error. |
| `Gather.CanonicalKey` | exporter/gather.go:111 | `textproto.CanonicalMIMEHeaderKey`: for a name of token characters, the first letter and every letter after a `-` are upper case and all other letters lower case; a name with any other character is returned unchanged. Either way the result is the name up to the case of its ASCII letters. |
| `Gather.RateHeadersCanonical` | exporter/gather.go:111-123 | The three quota headers are looked up as `X-Ratelimit-Limit`, `X-Ratelimit-Remaining` and `X-Ratelimit-Reset`. |
| `Gather.HeaderGetIgnoresCase` | exporter/gather.go:111-123 | `Header.Get` looks a header up under the canonical spelling of its name, so two token names that differ only in letter case find the same value. |
| `Gather.CanonicalKeyIdempotent` | exporter/gather.go:111-123 | A canonical spelling is its own canonical spelling, so headers stored under canonical names are found. |
| `Gather.GatherData` | exporter/gather.go:16-61 | Data and error are those of the walk. On a walk error the rates are nil, so the probe's outcome plays no part. Otherwise the rates are the probe's limits and the probe's error is swallowed. |
| `Metrics.BuildFQNameJoins` | exporter/metrics.go:14-49 | Prometheus' `BuildFQName` joins the namespace, the subsystem and the name with `"_"`, leaving out the empty parts. Without a name there is no fully-qualified name. |
| `Metrics.RepoMetricNames` | exporter/metrics.go:14-34 | The five repository metrics are named github_repo_stars, github_repo_open_issues, github_repo_watchers, github_repo_forks and github_repo_size_kb. |
| `Metrics.RateMetricNames` | exporter/metrics.go:39-49 | The three quota metrics are named github_rate_limit, github_rate_remaining and github_rate_reset. |
| `Metrics.AddMetrics` | exporter/metrics.go:9-55 | Exactly eight keys, with the names github_repo_stars … github_rate_reset. The five repository descriptors have the labels repo, user, private, fork, archived, license, language. The three quota descriptors have none. |
| `Metrics.ProcessMetrics` | exporter/metrics.go:58-76 | Sends exactly the repository samples, in input order, followed by the three quota samples, and returns nil. |
| `Metrics.MetricChannel.Send` | exporter/metrics.go:62-73 | A send appends exactly that sample to what the channel has received. |
| `Metrics.EmittedCount` | exporter/metrics.go:61-75 | Exactly `5·|data| + 3` samples are sent. |
| `Metrics.EmittedForRepository` | exporter/metrics.go:61-68 | The samples of the i-th repository are at positions 5i to 5i+4, in the order Stars, Forks, OpenIssues, Watchers, Size. All carry that repository's seven label values and are valued from its star, fork, open-issue, watcher and size fields. |
| `Metrics.EmittedRates` | exporter/metrics.go:71-73 | The last three samples are Limit, Remaining and Reset, valued from the rates and unlabelled, even for no repository. |
| `Metrics.EmittedMatchesTable` | exporter/metrics.go:13-73 | Every sample names a descriptor of the table. Its label-value count equals that descriptor's label-name count: 7 or 0. |

## Left out

- `exporter/http.go`: `queryAPI` is goroutine fan-out with a channel barrier; nothing shown calls it, so this concurrency is not modelled. `getHTTPResponse`, the network I/O of `getRates`, appears only as the `Fetcher` parameter, which therefore also stands for the `Authorization` header and the 10-second timeout. `getResponse`, like `queryAPI`, is not modelled.
- `main.go`, `Config.Init` (environment reading, logging, the foreign `cfg.Init`) and the HTTP server and HTML page are not part of this model.
- The `Exporter` type with its `Collect` and `Describe` methods is not part of this model. Its `APIMetrics`, `APIURL`, `APIToken` and `TargetRepos` fields are passed to the operations as parameters.
- Construction of the oauth2 and go-github clients in `gatherData` is not modelled; the listing call is the `Lister` parameter.
- Logging in `gatherData` is not modelled.
- Reading the token file is not modelled: `GetAuth` receives the read outcome as data. File bytes are taken as Unicode text, so invalid UTF-8 is not modelled.
- Gather.GetRates: a header is one value. Go keeps a list of values per header name and `Header.Get` returns the first, so the model's header map holds that first value. Header names that are not made of token characters are left uncanonicalised, as in Go, and no case-insensitivity is promised for them.
- `float64` gauge values and `strconv.ParseFloat` are not modelled: values are integers, and parsing is an abstract partial function.
- Gather.GetRates: a header that fails to parse always yields the "invalid syntax" message, with the value quoted without escaping. `strconv`'s "value out of range" message and `strconv.Quote` escaping are not modelled.
- Metrics.ProcessMetrics: requires the rates to be non-nil, because the source dereferences them.
- Repository counts and flags are plain values. The go-github record holds them behind pointers. `exporter/metrics.go:62` dereferences the star count and the three flags; lines 63-66 pass the other counts, the flags and the text fields as pointers, and lines 62-66 all pass the flags as `bool` where a string label is expected. Only the four text fields are optional.
- Prometheus `NewDesc` and `MustNewConstMetric` internals are not modelled; `BuildFQName` is modelled concretely. A descriptor is a record of name, help text and label names. A sample is a descriptor key, label values and a value. `MustNewConstMetric`'s panic on a missing descriptor or label-count mismatch becomes the `ConsistentTable` precondition.
- Commented-out code is not modelled: the repository and user branches of `buildTargetReposMap`, and the response-decoding loop in `gatherData`.
