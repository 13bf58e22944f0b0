/**
 * The `<cometweb-carbon-badge>` element's data acquisition: attribute
 * defaults, the cache-first dispatch of `loadData`, the retry and backoff
 * decisions of `fetchFromAPI` on the single `retryCount` field, the mapping
 * of the service's payload to a record, the retry button and the grade's
 * style class. Rendering is reduced to the action the element takes next.
 */
module Badge {
  import opened Types
  import Cache
  import Estimator

  const MaxRetries: nat := 3
  const DefaultCacheTtl: int := 720
  const MaxBackoffMs: int := 30000

  /** `Math.pow(2, n)` for a natural exponent. */
  function Pow2(n: nat): (r: nat)
    ensures r >= 1
    ensures r > n
  {
    if n == 0 then 1 else 2 * Pow2(n - 1)
  }

  /** Exponents add: 2^(a+b) = 2^a * 2^b, so each retry doubles the delay. */
  lemma {:induction false} Pow2Add(a: nat, b: nat)
    ensures Pow2(a + b) == Pow2(a) * Pow2(b)
    decreases a
  {
    if a > 0 {
      Pow2Add(a - 1, b);
    }
  }

  /**
   * The wait before re-querying after a 429: the server's `Retry-After`
   * seconds when positive, else doubling from one second and capped at 30 s.
   * `retryAfter` is `None` when the header is absent or not a number.
   */
  function BackoffDelay(retryAfter: Option<int>, retryCount: nat): (d: int)
    ensures retryAfter.Some? && retryAfter.value > 0 ==> d == retryAfter.value * 1000
    ensures !(retryAfter.Some? && retryAfter.value > 0) ==>
            0 < d <= MaxBackoffMs && d <= 1000 * Pow2(retryCount) &&
            (d == MaxBackoffMs || d == 1000 * Pow2(retryCount))
  {
    if retryAfter.Some? && retryAfter.value > 0 then retryAfter.value * 1000
    else if 1000 * Pow2(retryCount) < MaxBackoffMs then 1000 * Pow2(retryCount)
    else MaxBackoffMs
  }

  /**
   * Every delay the element actually schedules without a header is below
   * the cap: 1 s, 2 s and 4 s for the three permitted retries.
   */
  lemma ScheduledBackoffBelowCap(retryCount: nat)
    requires retryCount < MaxRetries
    ensures BackoffDelay(None, retryCount) == 1000 * Pow2(retryCount) <= 4000
  {
    assert Pow2(1) == 2 && Pow2(2) == 4;
  }

  /** What one query to the scoring service ended with. */
  datatype Outcome =
    | RateLimited(retryAfter: Option<int>)  // status 429
    | HttpError(status: int)                 // a non-ok status other than 429
    | TransportError                         // `fetch` rejected
    | ParseError                             // `response.json()` failed
    | Ok(response: APIResponse)

  /** What the element does after a query. */
  datatype Action = Reschedule(delay: int) | Estimate | RenderError | Done

  datatype Decision = Decision(action: Action, retryCount: nat)

  /**
   * `fetchFromAPI`'s decision on the counter. A 429 below the bound counts a
   * retry and re-queries; at the bound it estimates and leaves the counter.
   * Any other failure below the bound counts a retry and estimates without
   * re-querying; at the bound it renders the error. Success resets the counter.
   */
  function Decide(retryCount: nat, outcome: Outcome): (d: Decision)
    ensures retryCount <= MaxRetries ==> d.retryCount <= MaxRetries
    ensures d.retryCount == if outcome.Ok? then 0
                            else if retryCount < MaxRetries then retryCount + 1
                            else retryCount
    ensures d.action.Reschedule? <==> outcome.RateLimited? && retryCount < MaxRetries
    ensures d.action.Reschedule? ==> d.action.delay == BackoffDelay(outcome.retryAfter, retryCount)
    ensures d.action == Estimate <==> (outcome.RateLimited? && retryCount >= MaxRetries) ||
                                      (!outcome.RateLimited? && !outcome.Ok? && retryCount < MaxRetries)
    ensures d.action == RenderError <==> !outcome.RateLimited? && !outcome.Ok? && retryCount >= MaxRetries
    ensures d.action == Done <==> outcome.Ok?
  {
    match outcome
    case RateLimited(retryAfter) =>
      var delay := BackoffDelay(retryAfter, retryCount);
      if retryCount < MaxRetries then Decision(Reschedule(delay), retryCount + 1)
      else Decision(Estimate, retryCount)
    case Ok(_) => Decision(Done, 0)
    case _ =>
      if retryCount < MaxRetries then Decision(Estimate, retryCount + 1)
      else Decision(RenderError, retryCount)
  }

  /** Outcome of a run of queries: how many were made, the last action, the counter afterwards. */
  datatype ChainResult = ChainResult(fetches: nat, last: Option<Action>, retryCount: nat)

  /**
   * The queries one acquisition makes when successive queries end with
   * `outcomes`: a reschedule leads to the next query, anything else ends the
   * run. Running out of outcomes after a reschedule leaves it pending.
   */
  function FetchChain(retryCount: nat, outcomes: seq<Outcome>): (c: ChainResult)
    ensures c.fetches <= |outcomes|
    ensures c.fetches == 0 <==> |outcomes| == 0
    ensures c.last.Some? <==> |outcomes| > 0
    ensures c.last.Some? && c.last.value.Reschedule? ==> c.fetches == |outcomes|
    decreases |outcomes|
  {
    if |outcomes| == 0 then ChainResult(0, None, retryCount)
    else
      var d := Decide(retryCount, outcomes[0]);
      if d.action.Reschedule? && |outcomes| > 1 then
        var rest := FetchChain(d.retryCount, outcomes[1..]);
        ChainResult(rest.fetches + 1, rest.last, rest.retryCount)
      else ChainResult(1, Some(d.action), d.retryCount)
  }

  /** However the service answers, one acquisition queries it at most `MaxRetries + 1` times. */
  lemma {:induction false} FetchChainBound(retryCount: nat, outcomes: seq<Outcome>)
    requires retryCount <= MaxRetries
    ensures FetchChain(retryCount, outcomes).fetches <= MaxRetries + 1 - retryCount
    ensures FetchChain(retryCount, outcomes).retryCount <= MaxRetries
    decreases |outcomes|
  {
    if |outcomes| > 0 {
      var d := Decide(retryCount, outcomes[0]);
      if d.action.Reschedule? && |outcomes| > 1 {
        FetchChainBound(d.retryCount, outcomes[1..]);
      }
    }
  }

  /**
   * A service that keeps answering 429 is queried exactly `MaxRetries + 1 -
   * retryCount` times; the run ends in the estimator with the counter at the
   * bound.
   */
  lemma {:induction false} RateLimitedChain(retryCount: nat, outcomes: seq<Outcome>)
    requires retryCount <= MaxRetries
    requires |outcomes| >= MaxRetries + 1 - retryCount
    requires forall k :: 0 <= k < |outcomes| ==> outcomes[k].RateLimited?
    ensures FetchChain(retryCount, outcomes) == ChainResult(MaxRetries + 1 - retryCount, Some(Estimate), MaxRetries)
    decreases |outcomes|
  {
    if retryCount < MaxRetries {
      assert outcomes[1..][0] == outcomes[1];
      RateLimitedChain(retryCount + 1, outcomes[1..]);
    }
  }

  /**
   * The counter is not reset when the 429 path gives up, so the element's
   * next acquisition treats its first generic failure as final: four 429s
   * from a fresh counter, then a failed query, end in the error view.
   */
  lemma ExhaustedCounterPersists(h: Option<int>, status: int)
    ensures FetchChain(0, [RateLimited(h), RateLimited(h), RateLimited(h), RateLimited(h)]).retryCount == MaxRetries
    ensures FetchChain(MaxRetries, [HttpError(status)]) == ChainResult(1, Some(RenderError), MaxRetries)
  {
    RateLimitedChain(0, [RateLimited(h), RateLimited(h), RateLimited(h), RateLimited(h)]);
  }

  /** A failure other than 429 ends the run after that query: the service is not asked again. */
  lemma FailureDoesNotRequery(retryCount: nat, outcomes: seq<Outcome>)
    requires |outcomes| > 0 && !outcomes[0].RateLimited? && !outcomes[0].Ok?
    ensures FetchChain(retryCount, outcomes).fetches == 1
    ensures FetchChain(retryCount, outcomes).last in {Some(Estimate), Some(RenderError)}
  {
  }

  /** The record built from the service's payload, stamped with the current time. */
  function FromResponse(resp: APIResponse, now: int): (d: BadgeData)
    ensures d.url == resp.url && d.co2Grams == resp.co2Grams && d.score == resp.score
    ensures d.cleanerThan == resp.cleanerThan && d.pageWeightKb == resp.pageWeightKb
    ensures d.greenHost == resp.greenHost && d.timestamp == now
  {
    BadgeData(
      url := resp.url,
      co2Grams := resp.co2Grams,
      score := resp.score,
      cleanerThan := resp.cleanerThan,
      pageWeightKb := resp.pageWeightKb,
      greenHost := resp.greenHost,
      timestamp := now)
  }

  /**
   * The mapping copies each reported field to its namesake and drops only
   * `cached` and `ttl`: two payloads give the same record exactly when they
   * agree on the six result fields.
   */
  lemma FromResponseKeepsFields(r1: APIResponse, r2: APIResponse, now: int)
    ensures FromResponse(r1, now) == FromResponse(r2, now) <==>
            r1.(cached := false, ttl := 0.0) == r2.(cached := false, ttl := 0.0)
    ensures FromResponse(r1, now) == BadgeData(r1.url, r1.co2Grams, r1.score, r1.cleanerThan,
                                               r1.pageWeightKb, r1.greenHost, now)
  {
  }

  /** What `loadData` does first. */
  datatype LoadStep = InvalidSubject | FromCache | StartEstimate | StartFetch(url: string)

  /** `loadData`'s dispatch: empty target, then the cache, then the mode. */
  function Dispatch(url: string, cacheValid: bool, cached: Option<BadgeData>, mode: string): (s: LoadStep)
    ensures s == InvalidSubject <==> url == ""
    ensures s == FromCache <==> url != "" && cacheValid && cached.Some?
    ensures s == StartEstimate <==> url != "" && !(cacheValid && cached.Some?) && mode == "estimate"
    ensures s.StartFetch? <==> url != "" && !(cacheValid && cached.Some?) && mode != "estimate"
    ensures s.StartFetch? ==> s.url == url
  {
    if url == "" then InvalidSubject
    else if cacheValid && cached.Some? then FromCache
    else if mode == "estimate" then StartEstimate
    else StartFetch(url)
  }

  /**
   * After a successful query has been cached, loading the same target again
   * at the same moment, with any positive TTL, is served from the cache:
   * no query and no estimate.
   */
  lemma {:induction false} ReloadAfterSuccessHitsCache(items: seq<Cache.Item>, url: string, resp: APIResponse,
                                                       now: int, ttlMinutes: int, mode: string)
    requires url != "" && ttlMinutes > 0
    ensures var after := Cache.AfterSetCache(items, url, FromResponse(resp, now), now, false);
            Dispatch(url, Cache.IsCacheValid(after, url, ttlMinutes, now), Cache.GetCached(after, url), mode) == FromCache
  {
    Cache.FreshWriteIsValid(items, url, FromResponse(resp, now), now, ttlMinutes);
    Cache.SetThenRead(items, url, FromResponse(resp, now), now, ttlMinutes, now, "");
  }

  /**
   * The names every plain object inherits from `Object.prototype`. Looking
   * one of them up in an object literal finds the inherited member, which is
   * never falsy.
   */
  const ObjectPrototypeKeys: set<string> := {
    "constructor", "hasOwnProperty", "isPrototypeOf", "propertyIsEnumerable",
    "toLocaleString", "toString", "valueOf", "__proto__", "__defineGetter__",
    "__defineSetter__", "__lookupGetter__", "__lookupSetter__"}

  /** What `map[score] || 'grade-unknown'` yields: a class name, or an inherited member. */
  datatype ClassLookup = GradeClass(name: string) | PrototypeMember(key: string)

  /**
   * `getScoreClass`: one class per grade; a name inherited from
   * `Object.prototype` yields that inherited member; any other text gives
   * `grade-unknown`.
   */
  function ScoreClass(score: string): (c: ClassLookup)
    ensures c == PrototypeMember(score) <==> score in ObjectPrototypeKeys
    ensures c.PrototypeMember? ==> c.key == score
    ensures c == GradeClass("grade-unknown") <==>
            score !in {"A+", "A", "B", "C", "D", "F"} && score !in ObjectPrototypeKeys
  {
    if score == "A+" then GradeClass("grade-aplus")
    else if score == "A" then GradeClass("grade-a")
    else if score == "B" then GradeClass("grade-b")
    else if score == "C" then GradeClass("grade-c")
    else if score == "D" then GradeClass("grade-d")
    else if score == "F" then GradeClass("grade-f")
    else if score in ObjectPrototypeKeys then PrototypeMember(score)
    else GradeClass("grade-unknown")
  }

  /** Different grades get different classes, and none of them is `grade-unknown`. */
  lemma ScoreClassDistinct(s: ScoreLetter, t: ScoreLetter)
    ensures ScoreClass(LetterName(s)).GradeClass?
    ensures ScoreClass(LetterName(s)) == ScoreClass(LetterName(t)) <==> s == t
    ensures ScoreClass(LetterName(s)) != GradeClass("grade-unknown")
  {
  }

  /** The element: its attributes, the page address, and the two fields the code updates. */
  class CarbonBadge {
    const store: Cache.Storage
    var urlAttr: Option<string>
    var modeAttr: Option<string>
    var cacheTtlAttr: Option<int>   // parsed `cache-ttl`; None when absent or empty
    var greenHostAttr: Option<string>
    var location: string            // `location.href`, "" where there is none
    var data: Option<BadgeData>
    var retryCount: nat

    ghost predicate Valid()
      reads this, store
    {
      store.Valid() && retryCount <= MaxRetries
    }

    constructor (store: Cache.Storage, urlAttr: Option<string>, modeAttr: Option<string>,
                 cacheTtlAttr: Option<int>, greenHostAttr: Option<string>, location: string)
      requires store.Valid()
      ensures Valid()
      ensures this.store == store && this.urlAttr == urlAttr && this.modeAttr == modeAttr
      ensures this.cacheTtlAttr == cacheTtlAttr && this.greenHostAttr == greenHostAttr
      ensures this.location == location
      ensures data == None && retryCount == 0
    {
      this.store := store;
      this.urlAttr := urlAttr;
      this.modeAttr := modeAttr;
      this.cacheTtlAttr := cacheTtlAttr;
      this.greenHostAttr := greenHostAttr;
      this.location := location;
      data := None;
      retryCount := 0;
    }

    /** The `url` attribute when non-empty, else the page address. */
    function TargetUrl(): (u: string)
      reads this
      ensures urlAttr.Some? && urlAttr.value != "" ==> u == urlAttr.value
      ensures (urlAttr.None? || urlAttr.value == "") ==> u == location
    {
      if urlAttr.Some? && urlAttr.value != "" then urlAttr.value else location
    }

    /** The `mode` attribute, `api` when absent or empty. */
    function Mode(): (m: string)
      reads this
      ensures m != ""
      ensures (modeAttr.None? || modeAttr.value == "") ==> m == "api"
      ensures modeAttr.Some? && modeAttr.value != "" ==> m == modeAttr.value
    {
      if modeAttr.Some? && modeAttr.value != "" then modeAttr.value else "api"
    }

    /** The `cache-ttl` attribute, 720 minutes when absent. */
    function CacheTtl(): (t: int)
      reads this
      ensures cacheTtlAttr.None? ==> t == DefaultCacheTtl
      ensures cacheTtlAttr.Some? ==> t == cacheTtlAttr.value
    {
      if cacheTtlAttr.Some? then cacheTtlAttr.value else DefaultCacheTtl
    }

    /** The `green-host` attribute, true only when it reads exactly `true`. */
    function GreenHost(): (g: bool)
      reads this
      ensures g <==> greenHostAttr == Some("true")
    {
      greenHostAttr == Some("true")
    }

    /**
     * `loadData` at time `now`, up to the point where it hands over to the
     * estimator or the query: on a cache hit the record is taken from the cache.
     */
    method LoadData(now: int) returns (step: LoadStep)
      requires Valid()
      modifies this`data
      ensures Valid()
      ensures step == Dispatch(TargetUrl(), Cache.IsCacheValid(store.items, TargetUrl(), CacheTtl(), now),
                               Cache.GetCached(store.items, TargetUrl()), Mode())
      ensures data == if step == FromCache then Cache.GetCached(store.items, TargetUrl()) else old(data)
    {
      var url := TargetUrl();
      if url == "" {
        return InvalidSubject;
      }
      if Cache.IsCacheValid(store.items, url, CacheTtl(), now) {
        var cached := Cache.GetCached(store.items, url);
        if cached.Some? {
          data := cached;
          return FromCache;
        }
      }
      if Mode() == "estimate" {
        step := StartEstimate;
      } else {
        step := StartFetch(url);
      }
    }

    /**
     * `runEstimate` when its timer fires: the record comes from the estimator
     * with the page address as its URL, and is cached under the target URL.
     */
    method RunEstimate(timing: Option<Estimator.Timing>, html: Option<nat>, now: int, quotaExceeded: bool)
      requires Valid()
      modifies this`data, store
      ensures Valid() && retryCount == old(retryCount)
      ensures data == Some(Estimator.Estimate(Estimator.PageWeight(timing, html), GreenHost(), location, now))
      ensures store.items == Cache.AfterSetCache(old(store.items), TargetUrl(), data.value, now, quotaExceeded)
    {
      var d := Estimator.EstimateCO2(GreenHost(), timing, html, location, now);
      data := Some(d);
      Cache.SetCache(store, TargetUrl(), d, now, quotaExceeded);
    }

    /**
     * One `fetchFromAPI(url)` query that ended with `outcome` at time `now`:
     * the counter and the next action follow `Decide`; only a success sets
     * the record and writes the cache under the queried URL.
     */
    method Step(url: string, outcome: Outcome, now: int, quotaExceeded: bool) returns (action: Action)
      requires Valid()
      modifies this`data, this`retryCount, store
      ensures Valid()
      ensures Decision(action, retryCount) == Decide(old(retryCount), outcome)
      ensures outcome.Ok? ==> data == Some(FromResponse(outcome.response, now)) &&
                              store.items == Cache.AfterSetCache(old(store.items), url, data.value, now, quotaExceeded)
      ensures !outcome.Ok? ==> data == old(data) && store.items == old(store.items)
    {
      match outcome {
        case RateLimited(retryAfter) =>
          var delay := BackoffDelay(retryAfter, retryCount);
          if retryCount < MaxRetries {
            retryCount := retryCount + 1;
            return Reschedule(delay);
          }
          return Estimate;
        case Ok(resp) =>
          var d := FromResponse(resp, now);
          data := Some(d);
          Cache.SetCache(store, url, d, now, quotaExceeded);
          retryCount := 0;
          return Done;
        case _ =>
          if retryCount < MaxRetries {
            retryCount := retryCount + 1;
            return Estimate;
          }
          return RenderError;
      }
    }

    /** The error view's retry button: reset the counter, then load again. */
    method OnRetryClick(now: int) returns (step: LoadStep)
      requires Valid()
      modifies this`data, this`retryCount
      ensures Valid() && retryCount == 0
      ensures step == Dispatch(TargetUrl(), Cache.IsCacheValid(store.items, TargetUrl(), CacheTtl(), now),
                               Cache.GetCached(store.items, TargetUrl()), Mode())
      ensures data == if step == FromCache then Cache.GetCached(store.items, TargetUrl()) else old(data)
    {
      retryCount := 0;
      step := LoadData(now);
    }

    /** `connectedCallback`: sweep the cache with the element's TTL, then load. */
    method Connect(now: int) returns (step: LoadStep)
      requires Valid()
      modifies this`data, store
      ensures Valid() && retryCount == old(retryCount)
      ensures store.items == Cache.Swept(old(store.items), now, CacheTtl() * Cache.MsPerMinute)
      ensures step == Dispatch(TargetUrl(), Cache.IsCacheValid(store.items, TargetUrl(), CacheTtl(), now),
                               Cache.GetCached(store.items, TargetUrl()), Mode())
      ensures data == if step == FromCache then Cache.GetCached(store.items, TargetUrl()) else old(data)
    {
      var _ := Cache.ClearExpired(store, CacheTtl(), now);
      step := LoadData(now);
    }
  }

  /**
   * A client of the element: a successful query for the target, then a
   * second load at the same moment, is answered from the cache.
   */
  method SuccessThenReload(badge: CarbonBadge, resp: APIResponse, now: int) returns (step: LoadStep)
    requires badge.Valid() && badge.TargetUrl() != "" && badge.CacheTtl() > 0
    modifies badge`data, badge`retryCount, badge.store
    ensures step == FromCache && badge.data == Some(FromResponse(resp, now)) && badge.retryCount == 0
  {
    var action := badge.Step(badge.TargetUrl(), Ok(resp), now, false);
    ReloadAfterSuccessHitsCache(old(badge.store.items), badge.TargetUrl(), resp, now, badge.CacheTtl(), badge.Mode());
    Cache.SetThenRead(old(badge.store.items), badge.TargetUrl(), FromResponse(resp, now), now, badge.CacheTtl(), now, "");
    step := badge.LoadData(now);
  }
}
