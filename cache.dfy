/**
 * The time-bounded, write-through response cache behind `get(url)`: a map
 * from request URL to `{time, data}` kept in a file, consulted before every
 * upstream request and rewritten in full after every successful one.
 *
 * The clock (`Date.now()`) and the network (`fetch`) are parameters: `now`
 * is the call's timestamp in milliseconds and `upstream` says how the
 * upstream answers each URL.
 */
module ResponseCache {
  import opened Wrappers
  import opened JsString

  /** How long, in milliseconds, a stored response may be served: one hour. */
  const CACHE_TIMEOUT: nat := 3600000

  /** One stored response: when it was fetched and the decoded JSON body. */
  datatype Entry<P> = Entry(time: int, data: P)

  /** What the upstream answers: a decoded body, or a status that is not ok. */
  datatype Response<P> = Ok(payload: P) | NotOk(status: nat, statusText: string)

  /** The error `get` throws for a response that is not ok. */
  datatype FetchError = FetchError(url: string, status: nat, statusText: string)

  /** What a call of `get` hands back to its caller. */
  type Outcome<P> = Result<P, FetchError>

  /** `Math.abs` on integers. */
  function Abs(x: int): (r: nat)
    ensures r == x || r == -x
  {
    if x < 0 then -x else x
  }

  /**
   * The stored data for `url` if its entry is fresh at `now`: less than
   * CACHE_TIMEOUT away from `now`, in the past or in the future.
   */
  function FreshData<P>(cache: map<string, Entry<P>>, url: string, now: int): (r: Option<P>)
    ensures r.Some? <==> url in cache && now - CACHE_TIMEOUT < cache[url].time < now + CACHE_TIMEOUT
    ensures r.Some? ==> r.value == cache[url].data
  {
    if url in cache && Abs(now - cache[url].time) < CACHE_TIMEOUT then Some(cache[url].data) else None
  }

  /** The text of the thrown error: `Failed to fetch <url>: <status> <statusText>`. */
  function Message(e: FetchError): (m: string)
    ensures |m| > 18 + |e.url| + |e.statusText|
    ensures m[..16] == "Failed to fetch " && m[16..16 + |e.url|] == e.url
    ensures m[16 + |e.url|..18 + |e.url|] == ": " && m[|m| - |e.statusText| - 1] == ' '
    ensures m[|m| - |e.statusText|..] == e.statusText
    ensures m[18 + |e.url|..|m| - |e.statusText| - 1] == DecimalString(e.status)
    ensures DecimalValue(m[18 + |e.url|..|m| - |e.statusText| - 1]) == e.status
  {
    var lead := "Failed to fetch " + e.url;
    var digits := DecimalString(e.status);
    var tail := " " + e.statusText;
    DecimalRoundTrip(e.status);
    var m := lead + ": " + digits + tail;
    assert m[..|lead|] == lead;
    assert lead[..16] == "Failed to fetch " && lead[16..] == e.url;
    assert m[|lead| + 2..|m| - |tail|] == digits;
    assert m[|m| - |tail|..] == tail;
    m
  }

  /** The observable effect of one call of `get`. */
  datatype Effect<P> = Effect(outcome: Outcome<P>, cache: map<string, Entry<P>>, fetches: nat, writes: nat)

  /**
   * One call of `get(url)` at time `now` on the stored map `cache`: a fresh
   * entry is served with no request and no write; otherwise the upstream is
   * asked once, a response that is not ok is thrown with the map left as it
   * was, and an ok response is stored under `url` with time `now`, the
   * whole map is written back once and the body is returned.
   */
  function GetEffect<P>(cache: map<string, Entry<P>>, url: string, now: int, upstream: string -> Response<P>): Effect<P>
  {
    match FreshData(cache, url, now)
    case Some(data) => Effect(Success(data), cache, 0, 0)
    case None =>
      match upstream(url)
      case NotOk(status, statusText) => Effect(Failure(FetchError(url, status, statusText)), cache, 1, 0)
      case Ok(payload) => Effect(Success(payload), cache[url := Entry(now, payload)], 1, 1)
  }

  /** A fresh entry is served as stored: no request, no write, nothing changes. */
  lemma HitServesStoredData<P>(cache: map<string, Entry<P>>, url: string, now: int, upstream: string -> Response<P>)
    requires url in cache && Abs(now - cache[url].time) < CACHE_TIMEOUT
    ensures GetEffect(cache, url, now, upstream) == Effect(Success(cache[url].data), cache, 0, 0)
  {
  }

  /**
   * The freshness window is symmetric and strict: an entry exactly
   * CACHE_TIMEOUT old, or CACHE_TIMEOUT or more in the future, is stale,
   * while one less than CACHE_TIMEOUT in the future is fresh.
   */
  lemma FreshnessWindow<P>(now: int, data: P, url: string, d: int)
    ensures FreshData(map[url := Entry(now - CACHE_TIMEOUT, data)], url, now).None?
    ensures d >= CACHE_TIMEOUT ==> FreshData(map[url := Entry(now + d, data)], url, now).None?
    ensures 0 <= d < CACHE_TIMEOUT ==> FreshData(map[url := Entry(now + d, data)], url, now) == Some(data)
    ensures 0 <= d < CACHE_TIMEOUT ==> FreshData(map[url := Entry(now - d, data)], url, now) == Some(data)
  {
  }

  /**
   * On a miss or a stale entry the upstream is asked exactly once; an ok
   * answer is returned, written once, and stored as `{time: now, data}`
   * while every other URL keeps its exact entry.
   */
  lemma MissStoresResponse<P>(cache: map<string, Entry<P>>, url: string, now: int, upstream: string -> Response<P>)
    requires FreshData(cache, url, now).None? && upstream(url).Ok?
    ensures var e := GetEffect(cache, url, now, upstream);
      && e.fetches == 1 && e.writes == 1
      && e.outcome == Success(upstream(url).payload)
      && e.cache == cache[url := Entry(now, upstream(url).payload)]
      && url in e.cache && e.cache[url] == Entry(now, upstream(url).payload)
      && e.cache.Keys == cache.Keys + {url}
      && forall k :: k in cache && k != url ==> e.cache[k] == cache[k]
  {
  }

  /**
   * On a miss or a stale entry with an answer that is not ok, the error
   * carries the URL, status and status text, and the cache is neither
   * changed nor written.
   */
  lemma FailureLeavesCache<P>(cache: map<string, Entry<P>>, url: string, now: int, upstream: string -> Response<P>)
    requires FreshData(cache, url, now).None? && upstream(url).NotOk?
    ensures var e := GetEffect(cache, url, now, upstream);
      && e.fetches == 1 && e.writes == 0 && e.cache == cache
      && e.outcome == Failure(FetchError(url, upstream(url).status, upstream(url).statusText))
  {
  }

  /** A hit never asks the upstream; every call that is not a hit asks it exactly once. */
  lemma FetchesExactlyOnMiss<P>(cache: map<string, Entry<P>>, url: string, now: int, upstream: string -> Response<P>)
    ensures var e := GetEffect(cache, url, now, upstream);
      && (e.fetches == 0 <==> FreshData(cache, url, now).Some?)
      && (e.fetches == 1 <==> FreshData(cache, url, now).None?)
      && e.writes <= e.fetches
      && (e.writes == 0 ==> e.cache == cache)
  {
  }

  /**
   * A refreshed entry serves every later call within the window: the same
   * data comes back with no request and no write, whatever the upstream
   * would now answer.
   */
  lemma RefreshedEntryServesWindow<P>(cache: map<string, Entry<P>>, url: string, now: int, later: int,
                                      first: string -> Response<P>, second: string -> Response<P>)
    requires GetEffect(cache, url, now, first).writes == 1
    requires Abs(later - now) < CACHE_TIMEOUT
    ensures var e1 := GetEffect(cache, url, now, first);
      var e2 := GetEffect(e1.cache, url, later, second);
      && e2.outcome == e1.outcome
      && e2.fetches == 0 && e2.writes == 0 && e2.cache == e1.cache
  {
  }

  /**
   * Two calls at the same instant after a successful first one: the
   * second, served from the cache or from the refresh, is a hit with the
   * same data.
   */
  lemma Idempotent<P>(cache: map<string, Entry<P>>, url: string, now: int,
                      first: string -> Response<P>, second: string -> Response<P>)
    requires GetEffect(cache, url, now, first).outcome.Success?
    ensures var e1 := GetEffect(cache, url, now, first);
      GetEffect(e1.cache, url, now, second) == Effect(e1.outcome, e1.cache, 0, 0)
  {
  }

  /** After a failed call, a retry whose upstream now succeeds is still a miss and asks again. */
  lemma RetryAfterFailureFetchesAgain<P>(cache: map<string, Entry<P>>, url: string, now: int, later: int,
                                         failing: string -> Response<P>, working: string -> Response<P>)
    requires GetEffect(cache, url, now, failing).outcome.Failure?
    requires FreshData(cache, url, later).None? && working(url).Ok?
    ensures var e1 := GetEffect(cache, url, now, failing);
      var e2 := GetEffect(e1.cache, url, later, working);
      && e2.fetches == 1 && e2.outcome == Success(working(url).payload)
  {
  }

  /**
   * The scenario of a repository URL: fetched at t = 0, served from the
   * cache at t = 1000, and fetched again at t = 3700000.
   */
  lemma StalenessScenario(upstream: string -> Response<int>)
    requires upstream("https://api.example/repos/foo/bar") == Ok(10)
    ensures var url := "https://api.example/repos/foo/bar";
      var e0 := GetEffect(map[], url, 0, upstream);
      var e1 := GetEffect(e0.cache, url, 1000, upstream);
      var e2 := GetEffect(e1.cache, url, 3700000, upstream);
      && e0.outcome == Success(10) && e0.fetches == 1 && e0.cache == map[url := Entry(0, 10)]
      && e1.outcome == Success(10) && e1.fetches == 0
      && e2.fetches == 1 && e2.cache == map[url := Entry(3700000, 10)]
  {
  }

  /**
   * The cache file. `stored` is what the file holds (a missing file reads
   * as the empty map); `fetches` counts upstream requests and `writes`
   * counts rewrites of the file.
   */
  class CacheFile<P> {
    var stored: map<string, Entry<P>>
    ghost var fetches: nat
    ghost var writes: nat

    /** No cache file exists yet. */
    constructor Missing()
      ensures stored == map[] && fetches == 0 && writes == 0
    {
      stored := map[];
      fetches, writes := 0, 0;
    }

    /** A cache file exists and holds `contents`. */
    constructor Existing(contents: map<string, Entry<P>>)
      ensures stored == contents && fetches == 0 && writes == 0
    {
      stored := contents;
      fetches, writes := 0, 0;
    }

    /** `get(url)` at time `now`, asking `upstream` on a miss. */
    method Get(url: string, now: int, upstream: string -> Response<P>) returns (outcome: Outcome<P>)
      modifies this
      ensures var e := GetEffect(old(stored), url, now, upstream);
        && outcome == e.outcome && stored == e.cache
        && fetches == old(fetches) + e.fetches && writes == old(writes) + e.writes
    {
      var cache := stored;
      if url in cache && Abs(now - cache[url].time) < CACHE_TIMEOUT {
        return Success(cache[url].data);
      }
      fetches := fetches + 1;
      var resp := upstream(url);
      if !resp.Ok? {
        return Failure(FetchError(url, resp.status, resp.statusText));
      }
      var json := resp.payload;
      cache := cache[url := Entry(now, json)];
      stored := cache;
      writes := writes + 1;
      return Success(json);
    }
  }

  /**
   * Three requests for one URL on a fresh cache file, at t = 0, 1000 and
   * 3700000: the first two cost a single upstream request and a single
   * write, and the third, past the hour, costs one more of each.
   */
  method RepeatedRequest(url: string, payload: string, upstream: string -> Response<string>)
      returns (first: Outcome<string>, second: Outcome<string>, third: Outcome<string>)
    requires upstream(url) == Ok(payload)
    ensures first == Success(payload) && second == Success(payload) && third == Success(payload)
  {
    var file := new CacheFile<string>.Missing();
    first := file.Get(url, 0, upstream);
    assert first == Success(payload) && file.fetches == 1 && file.writes == 1;
    second := file.Get(url, 1000, upstream);
    assert second == first && file.fetches == 1 && file.writes == 1;
    third := file.Get(url, 3700000, upstream);
    assert third == first && file.fetches == 2 && file.writes == 2;
    assert file.stored == map[url := Entry(3700000, payload)];
  }
}
