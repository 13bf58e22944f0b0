# CometWeb carbon badge: data acquisition, modelled in Dafny

This project models the data-acquisition core of the `<cometweb-carbon-badge>`
web component. The badge shows the grams of CO2e per visit of a page. It has
three parts:

- **TTL cache** (`cache.dfy`, module `Cache`). `localStorage` is modelled as a
  sequence of `(key, value)` pairs with distinct keys, in `key(i)` order. Each
  stored value is held in parsed form: `Blank` (the empty string), `Malformed`
  (text that does not parse) or `Entry(data, ts)`. Keys carry the prefix `cwb:`.
  `getCached` and `isCacheValid` are functions of the stored pairs.
  `setCache` and `clearExpired` are methods on a `Storage` object. The sweep
  keeps the original loop: it walks the indices from the last down to 0 and
  removes entries as it goes.
- **Local estimator** (`estimator.dfy`, module `Estimator`). This is the
  four-term energy formula in exact reals, with the green-hosting factor on the
  data-centre term only. It also covers the clamp of "cleaner than" to [1, 99],
  `Math.round` as `(x + 0.5).Floor`, and `co2ToScore`. The summing loop of
  `measurePageWeight` works over abstract timing entries.
- **Badge element** (`badge.dfy`, module `Badge`). A class holds the attributes,
  the page address, `data` and `retryCount`. `LoadData` is the cache-first
  dispatch. `Step` handles one service query: it applies the retry and backoff
  decision (`Decide`) and, on success, stores the record and writes the cache.
  `RunEstimate` is the estimator fallback. `OnRetryClick` is the retry button
  and `Connect` is `connectedCallback`. `FetchChain` follows a whole run of
  queries, which gives the bound on how many queries one acquisition makes.

`types.dfy` (module `Types`) holds the shared records: `BadgeData`,
`ScoreLetter`, `APIResponse` and `Option`. A cache entry `{data, ts}` is
`Cache.Raw.Entry`. Its `data` is optional because `getCached` returns
`entry.data ?? null`.

The model's inputs stand in for the browser:
- `now` (epoch milliseconds) is a parameter.
- A failing `setItem` is a `quotaExceeded` flag.
- A query's result is an `Outcome` value (`RateLimited(retryAfter)`,
  `HttpError`, `TransportError`, `ParseError` or `Ok(response)`).
- The Performance API data is an optional `Timing` value.
- The serialised document's length is an optional number.

Four behaviours worth knowing before reading the contracts:
- A run of 429 answers queries the service four times: the first query plus
  three retries (`RateLimitedChain`), not three times in all.
- A non-429 failure below the retry bound runs the estimator and does not query
  again. Once the bound is reached, the element renders its error view instead
  of estimating (`Decide`, `FailureDoesNotRequery`).
- The sweep runs when the element connects (`Connect`), not on a cache miss.
- An estimated record's score does not always match its stored CO2e value. The
  grade comes from the unrounded total, while the record stores the rounded
  grams. `RoundedGramsCanLeaveBucket` gives such an input.

## Model

| member | source | states |
|---|---|---|
| Types.Rank | src/types.ts:15 | grades are ranked 0 to 5, with 0 exactly for A+ and 5 exactly for F |
| Types.RankInjective | src/types.ts:15 | distinct grades have distinct ranks, so the order A+ > A > B > C > D > F is total |
| Types.LetterName | src/types.ts:15 | each grade is written as one of the letters A, B, C, D, F, with a second character exactly for `A+` |
| Types.LetterNameInjective | src/types.ts:15 | the six grade names are pairwise different, so a stored name identifies its grade |
| Cache.KeyFor | src/cache.ts:7-11 | the storage key is `cwb:` followed by the URL, and the URL can be read back from it |
| Cache.HasPrefix | src/cache.ts:52 | `startsWith('cwb:')`: the key is at least four characters long and is the prefix followed by the rest of the key |
| Cache.KeyForHasPrefix | src/cache.ts:7-11 | every key the badge writes passes the sweep's prefix test |
| Cache.Lookup | src/cache.ts:12 | `getItem` finds a value exactly when some pair has the key, and the value found is the one stored under it |
| Cache.Put | src/cache.ts:40 | `setItem` leaves the written pair in the store, grows it by at most one pair, and keeps every pair under another key in its place |
| Cache.Remove | src/cache.ts:60-63 | `removeItem` drops at most one pair, adds nothing, changes nothing for a missing key, and with distinct keys leaves no pair under the key |
| Cache.LookupPut | src/cache.ts:40 | after `setItem(k, v)`, key `k` reads `v` and every other key reads as before |
| Cache.GetCached | src/cache.ts:9-19 | a returned record is the data of an entry stored under `cwb:`+url |
| Cache.IsCacheValid | src/cache.ts:22-34 | a valid answer means a parsed entry is stored under `cwb:`+url and its age is below `ttl * 60000` |
| Cache.StoredDataReturned | src/cache.ts:9-19 | an entry with data stored under `cwb:`+url is returned by `getCached`, whatever its age |
| Cache.AbsentIsInvalid | src/cache.ts:13-33 | a missing, blank or unparseable value is never valid and `getCached` returns nothing for it |
| Cache.ValidIff | src/cache.ts:28-30 | for a stored entry, valid if and only if `now - ts < ttl * 60000` |
| Cache.ValidMonotoneInTtl | src/cache.ts:29-30 | an entry valid under TTL t1 stays valid under every t2 >= t1 |
| Cache.GetIgnoresAge | src/cache.ts:9-34 | `getCached` returns a stale entry's data even while `isCacheValid` says it is invalid |
| Cache.AfterSetCache | src/cache.ts:36-43 | a failed write leaves the store as it was; a successful one leaves `{data, ts: now}` under `cwb:`+url |
| Cache.SetThenRead | src/cache.ts:36-40 | after a successful write, `getCached` returns the record, validity at a later time is exactly "age below TTL", and other keys are untouched |
| Cache.FreshWriteIsValid | src/cache.ts:22-40 | right after a successful write the entry is valid for every TTL > 0 |
| Cache.SetCache | src/cache.ts:36-43 | the store after `setCache` is the written store, or the unchanged store when the write fails; no error reaches the caller |
| Cache.Storage.Length | src/cache.ts:50 | `localStorage.length` is the number of stored pairs |
| Cache.Storage.Key | src/cache.ts:51 | `localStorage.key(i)` for an index in range is the key of the i-th pair, and that key is stored |
| Cache.Storage.GetItem | src/cache.ts:54 | `getItem` is `Lookup` on the stored pairs, and finds a value exactly when some pair has the key |
| Cache.Storage.SetItem | src/cache.ts:40 | a write either replaces or adds the key's pair, or fails and changes nothing; keys stay distinct |
| Cache.Storage.RemoveItem | src/cache.ts:60-63 | removing a key drops its pair and keeps the rest in order; keys stay distinct |
| Cache.Evicted | src/cache.ts:52-63 | only a prefixed, non-blank value is removed; a prefixed unparseable value always is; a prefixed entry is removed exactly when `now - ts > maxAge` |
| Cache.Swept | src/cache.ts:45-69 | the swept store is no longer than the original and holds no pair the sweep removes |
| Cache.SweptMembers | src/cache.ts:50-65 | a pair survives the sweep if and only if it was stored and is neither prefixed-and-unparseable nor prefixed-and-older-than-maxAge |
| Cache.SweptSound | src/cache.ts:52-64 | after the sweep every prefixed value is blank or an entry whose age is at most maxAge |
| Cache.SweptIdempotent | src/cache.ts:45-69 | sweeping twice with the same `now` and TTL gives the same store as sweeping once |
| Cache.ExactTtlAgeInvalidButKept | src/cache.ts:22-61 | an entry whose age equals the TTL is invalid (`<`) and still survives the sweep (`>`) |
| Cache.SweepAt | src/cache.ts:51-64 | one loop pass at index i removes exactly that pair when it is evicted and otherwise changes nothing |
| Cache.ClearExpired | src/cache.ts:45-69 | the descending loop leaves the swept store, and it reads each original key exactly once, last index first, although it removes as it goes |
| Estimator.GreenFactor | src/estimator.ts:28 | the data-centre multiplier lies in (0, 1]; it is 0.3 for a green host and 1 exactly when the host is not green |
| Estimator.TotalCo2 | src/estimator.ts:26-35 | the total is zero for zero bytes and has the sign of the byte count |
| Estimator.TotalCo2ClosedForm | src/estimator.ts:13-35 | total = bytes / 2^30 * 494 * (0.055 g + 0.071 + 0.080 + 0.106), with g = 0.3 when green and 1.0 otherwise |
| Estimator.TotalCo2Monotone | src/estimator.ts:26-35 | for a fixed hosting flag, more bytes never give less CO2e |
| Estimator.GreenNeverWorse | src/estimator.ts:28-35 | for the same non-negative bytes, the green-host total never exceeds the ordinary one |
| Estimator.Round | src/estimator.ts:42-45 | `Math.round` returns the integer within (x - 1/2, x + 1/2], so halves round up |
| Estimator.CleanerThan | src/estimator.ts:37 | with raw = 100 - (total / 0.5) * 50: the value is 1 when raw < 1, 99 when raw > 99, and raw otherwise |
| Estimator.Co2ToScore | src/estimator.ts:87-94 | the grade's bucket holds the grams: the lower threshold is inclusive and the upper is exclusive |
| Estimator.ScoreMonotone | src/estimator.ts:87-94 | a larger CO2e value never yields a better grade in the order A+ > A > B > C > D > F |
| Estimator.ScoreBoundaries | src/estimator.ts:87-94 | 0.099 gives A+, 0.10 gives A, 0.69 gives C, 0.70 gives D, 0 gives A+ and 1.0 gives F |
| Estimator.Estimate | src/estimator.ts:23-49 | the record echoes the URL, time and flag; its grade comes from the unrounded total; grams are a multiple of 1/10000 within 1/20000 of the total, so they are the total rounded to 4 decimals; "cleaner than" is a multiple of 1/10 in [1, 99] within 0.05 of the clamp, so it is rounded to 1 decimal; KB is round(bytes/1024) |
| Estimator.ZeroBytes | src/estimator.ts:23-49 | zero bytes give 0 grams, grade A+, cleaner than 99 and 0 KB |
| Estimator.EstimateScoreMonotone | src/estimator.ts:35-38 | a heavier page never gets a better estimated grade |
| Estimator.RoundedGramsCanLeaveBucket | src/estimator.ts:38-42 | at 696308 bytes the grade is A+ but the stored grams, 0.1, fall in bucket A |
| Estimator.EntryBytes | src/estimator.ts:65-68 | an entry counts `transferSize` when non-zero, else `encodedBodySize`, and counts 0 only when both are zero |
| Estimator.SumBytes | src/estimator.ts:67-69 | the fold of an empty list is 0, and it is never below any single entry's bytes |
| Estimator.SumBytesSnoc | src/estimator.ts:67-69 | adding a resource entry adds exactly its bytes to the running total |
| Estimator.SumBytesZeroIff | src/estimator.ts:67-71 | the resource sum is zero if and only if every entry reports no size |
| Estimator.MeasuredTotal | src/estimator.ts:61-69 | the total is the first navigation entry's bytes plus the resource sum, or the resource sum alone when there is no navigation entry |
| Estimator.OnlyFirstNavigationCounts | src/estimator.ts:63-66 | navigation entries after the first do not change the total |
| Estimator.MeasuredZeroIff | src/estimator.ts:61-71 | timing data is used when its total is positive; the fallback is used when the first navigation entry and every resource entry are empty |
| Estimator.FallbackBytes | src/estimator.ts:76-81 | the fallback is exactly 1.3 bytes per document character, or exactly 500 * 1024 bytes when the document cannot be read, and is never negative |
| Estimator.PageWeight | src/estimator.ts:55-82 | the page weight is never negative; without timing data it is the fallback; any other value is the measured timing total |
| Estimator.MeasurePageWeight | src/estimator.ts:55-82 | the summing loop returns the measured total when the API exists and the total is positive, else the fallback; the result is never negative |
| Estimator.EstimateCO2 | src/estimator.ts:23-24 | the estimate is computed from the measured page weight |
| Badge.Pow2 | src/badge.ts:179 | `Math.pow(2, n)` for the counter: at least 1 and greater than n |
| Badge.Pow2Add | src/badge.ts:179 | 2^(a+b) = 2^a * 2^b, so each extra retry doubles the uncapped delay |
| Badge.BackoffDelay | src/badge.ts:176-179 | the delay is `Retry-After * 1000` when the header value is positive; otherwise it is min(1000 * 2^retryCount, 30000), which lies in (0, 30000] |
| Badge.ScheduledBackoffBelowCap | src/badge.ts:176-183 | every delay actually scheduled without a header is 1000 * 2^retryCount <= 4000 ms, so the cap is never reached |
| Badge.Decide | src/badge.ts:175-217 | the counter stays <= 3; it resets on success and otherwise rises by one below the bound; a 429 below the bound reschedules with the backoff delay and at the bound estimates; other failures estimate below the bound and render the error at it |
| Badge.FetchChain | src/badge.ts:174-217 | a run makes one query per outcome at most and at least one when any outcome is given; it ends with an action exactly when a query was made, and a pending reschedule only when the outcomes ran out |
| Badge.FetchChainBound | src/badge.ts:181-213 | one acquisition queries the service at most 4 - retryCount times and leaves the counter <= 3 |
| Badge.RateLimitedChain | src/badge.ts:175-188 | a service that keeps answering 429 is queried exactly 4 - retryCount times; the run ends in the estimator with the counter left at 3 |
| Badge.ExhaustedCounterPersists | src/badge.ts:181-216 | after four 429s the counter stays at 3, so the next acquisition's first generic failure renders the error |
| Badge.FailureDoesNotRequery | src/badge.ts:191-216 | a non-429 failure ends the run after that single query, in the estimator or the error view |
| Badge.FromResponse | src/badge.ts:197-205 | each of the six result fields is copied to its namesake and the timestamp is `now` |
| Badge.FromResponseKeepsFields | src/badge.ts:197-205 | the record is the payload's six fields in order plus `now`; two payloads map to the same record exactly when they agree on every field except `cached` and `ttl` |
| Badge.Dispatch | src/badge.ts:131-152 | an empty URL gives an error whatever the cache holds; a valid entry with data is a cache hit; otherwise `estimate` mode estimates and any other mode queries the requested URL |
| Badge.ReloadAfterSuccessHitsCache | src/badge.ts:138-208 | once a successful result is cached, a reload at the same moment with any positive TTL is served from the cache, with no query and no estimate |
| Badge.ScoreClass | src/badge.ts:293-303 | a name inherited from `Object.prototype` (`toString`, `constructor`, `__proto__`, ...) yields that inherited member; `grade-unknown` is returned exactly for text that is neither a grade name nor such a name |
| Badge.ScoreClassDistinct | src/badge.ts:293-303 | the six grades map to six different class names, none of them `grade-unknown` |
| Badge.CarbonBadge.constructor | src/badge.ts:57-69 | a new element holds no record and a zero counter |
| Badge.CarbonBadge.TargetUrl | src/badge.ts:73-75 | the target is the `url` attribute when it is non-empty, else the page address |
| Badge.CarbonBadge.Mode | src/badge.ts:77-79 | the mode is `api` when the attribute is absent or empty, else the attribute's text |
| Badge.CarbonBadge.CacheTtl | src/badge.ts:89-92 | the TTL is 720 minutes when the attribute is absent, else its parsed value |
| Badge.CarbonBadge.GreenHost | src/badge.ts:102-104 | green hosting is on only when the attribute reads exactly `true` |
| Badge.CarbonBadge.LoadData | src/badge.ts:131-152 | the step taken is the dispatch on the current target, cache and mode; only a cache hit changes `data`, which becomes the cached record |
| Badge.CarbonBadge.RunEstimate | src/badge.ts:154-164 | `data` becomes the estimate, whose URL is the page address; it is cached under the target URL; the counter is unchanged |
| Badge.CarbonBadge.Step | src/badge.ts:166-218 | the action and new counter are `Decide`'s; only success sets `data` to the mapped record and writes the cache under the queried URL; failures leave `data` and the store unchanged |
| Badge.CarbonBadge.OnRetryClick | src/badge.ts:285-289 | the retry button sets the counter to 0 and then loads as `LoadData` does |
| Badge.CarbonBadge.Connect | src/badge.ts:117-121 | connecting sweeps the store with the element's TTL and then loads from the swept store; only a cache hit changes `data`, which becomes the cached record |
| Badge.SuccessThenReload | src/badge.ts:138-208 | a successful query for the target, followed by a load at the same moment, is a cache hit that returns the fetched record, and the counter is 0 |

## Left out

- Rendering is not modelled. This covers `renderLoading`, `renderBadge`, `renderError`, the shadow DOM and the `innerHTML` templates, the `t()` translation helper and `src/styles.ts`. The model's `Action` and `LoadStep` values say which view comes next.
- `src/index.ts` (custom-element registration) and `rollup.config.mjs` (build configuration) are not part of this model.
- Building the request is not modelled: the `api-url` and `api-key` attributes, `URLSearchParams` and `fetch`. Reading the response is not modelled either: `response.json()` and header parsing. Their results arrive as an `Outcome`, and `Retry-After` is `None` when the header is absent or not a number.
- Timers and concurrency are not modelled. This covers the `setTimeout` behind a reschedule and behind `runEstimate`'s 100 ms delay. It also covers overlapping `loadData` runs from `attributeChangedCallback`, and other code sharing the same storage. Each query is one `Step`. `FetchChain` strings several steps together as one acquisition.
- `runEstimate`'s `catch` is not modelled. It renders the error only if scheduling the timer throws.
- The outer `try` blocks around storage access in `getCached`, `isCacheValid` and `clearExpired` are not modelled; storage reads are total here. Parse failures are modelled as `Malformed`.
- Badge.ScoreClass: for a name inherited from `Object.prototype` the model returns only which name was looked up, not the inherited function or object itself, which is what the element would then use as its class.
- Outcome.HttpError stands only for non-ok statuses other than 429; the `status` it carries is not constrained, so `HttpError(429)` or a 2xx status is a value the source never produces and the model does not exclude.
- `Ok(response)` assumes the payload has the declared field types. In the source, a payload whose `co2_grams` is missing or not a number makes `renderBadge` throw at `co2Grams.toFixed(2)` inside `fetchFromAPI`'s `try`. By then `data` and the cache are written and the counter is 0; the `catch` then raises the counter to 1 and runs the estimator. The model does not have this path.
- `JSON.stringify` followed by `JSON.parse` is taken to give back the same entry.
- Some stored text parses as JSON but has no numeric `ts` (for example `"5"`). Its age is NaN in the source, so the sweep keeps it. The model has no such value.
- Numbers are exact reals and unbounded integers. IEEE-754 rounding error is not modelled, and neither is NaN from `parseInt` on a `cache-ttl` or `Retry-After` value. The `cache-ttl` attribute arrives already parsed, as an optional integer.
- The store's key order is taken to be preserved by removals, and an updated key keeps its place. Browsers do not specify this order.
- `Date.now()`, `location.href`, the Performance API and `document.documentElement.outerHTML` are inputs to the model: `now`, `location`, `timing` and `html`.
