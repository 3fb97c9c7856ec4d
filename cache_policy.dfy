/**
 * The decisions of the TTL-gated cache client, as pure functions of its
 * cached state: when the cached data is stale, what one call to
 * update_raw_data does to the cache and returns, and how the API status is
 * read out of a decoded payload. The class ApiClient performs these
 * decisions in place; the lemmas here state the caching policy.
 *
 * Time is an integer count of milliseconds read from the wall clock.
 */
module CachePolicy {
  import opened Wrappers
  import opened Json

  /** Clock units per second. */
  const Second: int := 1000

  /** The TTL a client gets when none is given (half a second). */
  const DefaultTtl: int := 500

  /** What the HTTP GET of one fetch attempt came to. `Response` carries the
      body text, its JSON decoding (None when json.loads raises) and the clock
      reading taken after decoding. `Failed` is every exception raised by the
      request itself: HTTP and stream errors, an invalid URL, anything else. */
  datatype Fetch =
    | Response(text: string, parsed: Option<Json>, receivedAt: int)
    | Failed

  /** The cached part of the client's state. `dataDict` and `status` hold
      Python values: JNull is None. */
  datatype Entry = Entry(rawData: Option<string>, dataDict: Json, timestamp: int, status: Json)

  /** What one call to update_raw_data leaves in the cache and returns. */
  datatype Polled = Polled(entry: Entry, returned: Option<string>)

  /** The cached data is stale once a whole TTL has passed since it was fetched. */
  predicate Expired(now: int, timestamp: int, ttl: int) {
    now - timestamp >= ttl
  }

  /** The cache of a client constructed at `now`: empty, and stamped one
      second more than a TTL in the past so that it starts out stale. */
  function Initial(now: int, ttl: int): (e: Entry)
    ensures e.rawData == None && e.dataDict == JNull && e.status == JNull
    ensures forall later :: later >= now - Second ==> Expired(later, e.timestamp, ttl)
  {
    Entry(None, JNull, now - ttl - Second, JNull)
  }

  /** `data.get("api_info").get("status")`, where any exception leaves the
      previous status in place. An `api_info` dict without a `status` key
      yields None; a payload that is not a dict, or whose `api_info` is
      missing or not a dict, keeps `prior`. */
  function ApiStatus(data: Json, prior: Json): (s: Json)
    ensures data.JObj? && "api_info" in data.fields && data.fields["api_info"].JObj? ==>
              s == (var info := data.fields["api_info"].fields;
                    if "status" in info then info["status"] else JNull)
    ensures !(data.JObj? && "api_info" in data.fields && data.fields["api_info"].JObj?) ==> s == prior
  {
    match Get(data, "api_info")
    case None => prior
    case Some(info) =>
      match Get(info, "status")
      case None => prior
      case Some(status) => status
  }

  /** One call to update_raw_data at time `now` whose GET, if one is issued,
      comes to `fetch`. Without a URL nothing happens and None is returned.
      Fresh data is served from the cache. Stale data triggers the GET; every
      exception inside it is swallowed, and the call returns whatever raw
      data is cached once the attempt is over. */
  function Update(e: Entry, url: Option<string>, ttl: int, now: int, fetch: Fetch): (r: Polled)
    ensures r.returned == if url.None? then None else r.entry.rawData
    ensures r.entry.timestamp != e.timestamp ==> fetch.Response? && fetch.parsed.Some? && r.entry.timestamp == fetch.receivedAt
  {
    if url.None? then Polled(e, None)
    else if !Expired(now, e.timestamp, ttl) then Polled(e, e.rawData)
    else
      match fetch
      case Failed => Polled(e, e.rawData)
      case Response(text, parsed, receivedAt) =>
        match parsed
        case None => Polled(e.(rawData := Some(text)), Some(text))
        case Some(data) =>
          var fetched := Entry(Some(text), data, receivedAt, ApiStatus(data, e.status));
          Polled(fetched, Some(text))
  }

  /** Without a URL, update_raw_data changes nothing and returns None. */
  lemma NoUrlIsNoOp(e: Entry, ttl: int, now: int, fetch: Fetch)
    ensures Update(e, None, ttl, now, fetch) == Polled(e, None)
  {
  }

  /** Data that is not yet stale is served from the cache, whatever the
      network would have answered, and nothing changes. */
  lemma FreshDataServedFromCache(e: Entry, url: Option<string>, ttl: int, now: int, fetch: Fetch)
    requires url.Some? && !Expired(now, e.timestamp, ttl)
    ensures Update(e, url, ttl, now, fetch) == Polled(e, e.rawData)
  {
  }

  /** A successful fetch replaces the raw and decoded data, stamps the cache
      with the time of receipt and takes the status from `api_info.status`. */
  lemma SuccessfulFetch(e: Entry, url: Option<string>, ttl: int, now: int, text: string, data: Json, receivedAt: int)
    requires url.Some? && Expired(now, e.timestamp, ttl)
    ensures var r := Update(e, url, ttl, now, Response(text, Some(data), receivedAt));
            r.returned == Some(text) &&
            r.entry.rawData == Some(text) && r.entry.dataDict == data &&
            r.entry.timestamp == receivedAt && r.entry.status == ApiStatus(data, e.status)
  {
  }

  /** A failed GET is swallowed: the previous raw data is returned, the cache
      is untouched, and since the timestamp did not move every later call is
      stale again and retries. */
  lemma FailedFetchServesCacheAndRetries(e: Entry, url: Option<string>, ttl: int, now: int, later: int)
    requires url.Some? && Expired(now, e.timestamp, ttl) && later >= now
    ensures Update(e, url, ttl, now, Failed) == Polled(e, e.rawData)
    ensures Expired(later, Update(e, url, ttl, now, Failed).entry.timestamp, ttl)
  {
  }

  /** A body that does not decode has already replaced the raw data, but the
      decoded data, the timestamp and the status stay as they were, so the
      next call is stale again. */
  lemma UndecodableResponse(e: Entry, url: Option<string>, ttl: int, now: int, text: string, receivedAt: int, later: int)
    requires url.Some? && Expired(now, e.timestamp, ttl) && later >= now
    ensures var r := Update(e, url, ttl, now, Response(text, None, receivedAt));
            r == Polled(e.(rawData := Some(text)), Some(text)) &&
            Expired(later, r.entry.timestamp, ttl)
  {
  }

  /** A client's first call, at any time from one second before its
      construction on, always attempts a fetch. */
  lemma FirstCallFetches(created: int, ttl: int, url: Option<string>, now: int, text: string, data: Json, receivedAt: int)
    requires url.Some? && now >= created - Second
    ensures Update(Initial(created, ttl), url, ttl, now, Response(text, Some(data), receivedAt)).entry
            == Entry(Some(text), data, receivedAt, ApiStatus(data, JNull))
  {
  }

  /** The creation timestamp is fixed with the TTL given at construction,
      while staleness is judged with the TTL current at the call: a TTL
      raised enough before the first call makes that call serve the empty
      cache, returning None without a fetch. */
  lemma FirstCallAfterTtlRaise(created: int, ttl0: int, ttl1: int, url: Option<string>, now: int, fetch: Fetch)
    requires url.Some? && now - created + ttl0 + Second < ttl1
    ensures Update(Initial(created, ttl0), url, ttl1, now, fetch) == Polled(Initial(created, ttl0), None)
  {
  }

  /** TTL gating: after a successful fetch received at `receivedAt`, a call
      within the TTL returns the same payload without a fetch, whatever the
      network would have answered, and a call a whole TTL later is stale. */
  lemma TtlGating(e: Entry, url: Option<string>, ttl: int, now: int, text: string, data: Json, receivedAt: int,
                  next: int, fetch: Fetch)
    requires url.Some? && Expired(now, e.timestamp, ttl)
    ensures var first := Update(e, url, ttl, now, Response(text, Some(data), receivedAt));
            (next - receivedAt < ttl ==> Update(first.entry, url, ttl, next, fetch) == Polled(first.entry, Some(text))) &&
            (next - receivedAt >= ttl ==> Expired(next, first.entry.timestamp, ttl))
  {
  }

  /** Repeated calls inside the TTL window return the identical raw payload
      and leave the cache as it was. */
  lemma RepeatedFreshReads(e: Entry, url: Option<string>, ttl: int, t1: int, t2: int, f1: Fetch, f2: Fetch)
    requires url.Some? && !Expired(t1, e.timestamp, ttl) && !Expired(t2, e.timestamp, ttl)
    ensures var r1 := Update(e, url, ttl, t1, f1);
            var r2 := Update(r1.entry, url, ttl, t2, f2);
            r2.entry == e && r1.returned == r2.returned == e.rawData
  {
  }
}
