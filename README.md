# data.gov.sg air-temperature client, modelled in Dafny

The repository polls the data.gov.sg air-temperature endpoint. Two pieces make up its core:

- **`Async_API_Client`**, a TTL-gated cache. It owns a URL, a TTL, the last raw response, its decoded JSON, the time of the last fetch and the last API status. `update_raw_data` issues a GET only when a URL is set and the cached data is stale (`now - timestamp >= TTL`); otherwise it serves the cache.
- **`Async_Temperature_API_Client`**. It refreshes the cache, checks that a status was seen, resolves the location name to the one station carrying it (`metadata.stations`), and returns the value of that station's one reading in `items[0].readings`.

Files:

- `wrappers.dfy` (module `Wrappers`): Option and Result.
- `json.dfy` (module `Json`): decoded JSON values and the Python operations the client applies to them: `dict.get`, `x[key]`, `x[0]` and iteration. Each returns None exactly where Python raises. For `Rows`, that is where the comprehension's `x[key]` subscript raises, since iterating a non-empty string or dict does not raise by itself.
- `cache_policy.dfy` (module `CachePolicy`): the cache decisions as pure functions of the cached state (`Expired`, `Initial`, `ApiStatus`, `Update`), and lemmas for the caching policy.
- `api_client.dfy` (module `Client`): class `ApiClient`. Its fields are those of the Python object. Its methods update them in place, and each method's postcondition ties the new state to the `CachePolicy` function.
- `temperature.dfy` (module `Temperature`): the extractor as pure functions (`Select` is the list comprehension, `LocationId`, `AirTemperature`), with its uniqueness lemmas. Also class `TemperatureClient`, which holds an `ApiClient` and a location and runs `GetAirTemperature`.
- `scenarios.dfy` (module `Scenarios`): concrete payloads and what the extractor returns for them.

Time is an integer number of milliseconds (`CachePolicy.Second` is 1000, and the default TTL of 0.5 s is 500). Every read of the wall clock is a parameter `now`. The HTTP GET is a parameter `fetch`. `fetch` is either `Response(text, parsed, receivedAt)` or `Failed`: `parsed` is the JSON decoding of `text`, or None when decoding raises, and `receivedAt` is the clock read after decoding (datagovsg.py:69). `Failed` covers every exception the request raises. Python's `None` is the JSON value `JNull`. This matters because `_data_dict` and `_status` can be `None` and can also hold a decoded `null`.

## Behaviour as written

The model follows what the code does in the places where its own text suggests something else:

- `update_raw_data` ends its `try` with `finally: return self._raw_data` (datagovsg.py:77-78), which discards every exception in flight. That covers a JSON decoding error and anything else. It also covers the `raise err("URL is not valid")` at :74, which therefore never reaches the caller. An invalid URL is not fatal, and the expired branch never raises. `CachePolicy.Update` is total.
- If the body does not decode, `_raw_data` has already been replaced (:67). `_data_dict`, the timestamp and the status are left as they were (`CachePolicy.UndecodableResponse`).
- `update_api_status` also ends in `finally: return` (:98-99), so the `raise err` at :97 never reaches the caller. A failed status lookup keeps the previous status. If `api_info` is a dict without a `status` key, the status becomes `None` (`CachePolicy.ApiStatus`).
- The creation timestamp is computed from the TTL given at construction (:17), but `raw_data_is_expired` compares with the TTL current at the call (:102). Raising `data_TTL` before the first `update_raw_data` can therefore suppress the first fetch: that call returns `None`, and `get_air_temperature` then fails at :125 (`CachePolicy.FirstCallAfterTtlRaise`).
- With no URL, `update_raw_data` returns `None`, not the cache (:81-83). The `raise httpx.InvalidURL("URL is None")` at :83 is commented out.
- The ValueError message at :120 names only the case of more than one id. The same ValueError is raised when no station matches.

## Model

| member | source | states |
|---|---|---|
| `CachePolicy.Initial` | datagovsg.py:11-18 | A new client caches nothing, has status None, and is stale at every time from one second before its creation on, because its timestamp is one second more than a TTL in the past |
| `Client.ApiClient.constructor` | datagovsg.py:11-18 | Stores the URL and TTL, starts with the empty cache of `Initial`, and is already expired at creation time |
| `Client.ApiClient.SetUrl` | datagovsg.py:24-29 | Assigning a string keeps it as the URL; any other value clears the URL; nothing else changes |
| `Client.ApiClient.DeleteUrl` | datagovsg.py:31-33 | Deleting the URL clears it; nothing else changes |
| `Client.ApiClient.SetDataTtl` | datagovsg.py:43-48 | A convertible value becomes the TTL; an unconvertible one leaves the previous TTL; nothing else changes |
| `CachePolicy.Expired` | datagovsg.py:101-105 | Definition of staleness: the cached data is stale once `now - timestamp >= TTL`. Its properties are stated by `CachePolicy.Initial`, `CachePolicy.TtlGating` and `CachePolicy.FailedFetchServesCacheAndRetries` |
| `Client.ApiClient.RawDataIsExpired` | datagovsg.py:101-105 | Definition: the client is stale at `now` exactly when `CachePolicy.Expired` holds of its timestamp and TTL; the constructor proves a new client is stale |
| `CachePolicy.ApiStatus` | datagovsg.py:85-99 | The status is `api_info.status` when the payload and its `api_info` are dicts, None if that dict lacks `status`, and otherwise the previous status unchanged |
| `Client.ApiClient.UpdateApiStatus` | datagovsg.py:85-99 | Sets the status field to `ApiStatus` of the decoded data and the old status, and returns it |
| `CachePolicy.Update` | datagovsg.py:50-83 | One call returns None without a URL and otherwise the raw data cached after the call; the timestamp moves only on a decoded response, and then to its receipt time |
| `Client.ApiClient.UpdateRawData` | datagovsg.py:50-83 | The new cache and the returned value are exactly what `CachePolicy.Update` gives for the old cache, URL, TTL, time and fetch outcome |
| `CachePolicy.NoUrlIsNoOp` | datagovsg.py:62-83 | Without a URL the cache is unchanged and None is returned |
| `CachePolicy.FreshDataServedFromCache` | datagovsg.py:62-80 | Before the TTL has passed the cached raw data is returned and nothing changes, whatever the network would answer |
| `CachePolicy.SuccessfulFetch` | datagovsg.py:66-70 | A decoded response replaces the raw and decoded data, stamps the receipt time, sets the status from `api_info.status`, and is returned |
| `CachePolicy.FailedFetchServesCacheAndRetries` | datagovsg.py:71-78 | A failed GET leaves the cache untouched and returns the previous raw data, and every later call is stale again |
| `CachePolicy.UndecodableResponse` | datagovsg.py:67-78 | An undecodable body replaces only the raw data, is returned, and leaves the cache stale for every later call |
| `CachePolicy.FirstCallFetches` | datagovsg.py:16-17 | The first call on a new client with a URL, made with the TTL the client was created with, fetches, at any time from one second before creation on |
| `CachePolicy.FirstCallAfterTtlRaise` | datagovsg.py:16-17 | If the TTL is raised before the first call by more than the time elapsed since creation plus one second, that call fetches nothing, leaves the empty cache and returns None |
| `CachePolicy.TtlGating` | datagovsg.py:101-105 | After a fetch received at t, a call before t + TTL returns the same payload with the cache unchanged whatever the network says, and a call from t + TTL on is stale |
| `CachePolicy.RepeatedFreshReads` | datagovsg.py:79-80 | Two calls inside the TTL window return the identical raw payload and leave the cache as it was |
| `Temperature.Select` | datagovsg.py:115 | The comprehension succeeds exactly when every row has the key; it keeps every matching row of the input and only matching rows, and keeps none exactly when no row matches |
| `Temperature.Column` | datagovsg.py:115 | Reading a key from every row succeeds exactly when every row has it, and yields each row's value in order |
| `Temperature.SelectExactlyOne` | datagovsg.py:117-118 | The comprehension yields exactly one row if and only if exactly one row matches, and then yields that row |
| `Temperature.StationList` | datagovsg.py:114 | Definition: `data.get("metadata").get("stations")`, as the comprehension visits it; fails where Python raises |
| `Temperature.LocationId` | datagovsg.py:113-120 | Definition of the lookup: select the stations carrying the name, read their ids, and return the id only if there is exactly one. Its properties are stated by `Temperature.LocationIdExactlyOne` |
| `Temperature.LocationIdExactlyOne` | datagovsg.py:113-120 | An id is returned only when the station list can be walked and exactly one station carries the name, and that one station then yields its id (or a malformed error if it has none). An unwalkable station list or a station without a name is malformed. Zero or several matches, all with an id, are a LocationNotUnique error |
| `Temperature.ReadingList` | datagovsg.py:134 | Definition: `data.get("items")[0].get("readings")`, as the comprehension visits it; fails where Python raises |
| `Temperature.AirTemperature` | datagovsg.py:124-132 | A missing (None) status fails with an error carrying the decoded payload, before anything else is read; with a status present, a location that does not resolve fails with the same error as the lookup |
| `Temperature.AirTemperatureExactlyOne` | datagovsg.py:132-139 | With a status and a resolved id, the result is the value of the one reading for that id; zero or several readings are an error carrying the raw response; an unwalkable reading list is malformed |
| `Temperature.UnhealthyStatusOnlyWarns` | datagovsg.py:126-130 | Any status other than None gives the same result as "healthy" |
| `Temperature.TemperatureClient.constructor` | datagovsg.py:109-111 | Builds a fresh API client with the given URL and TTL and an empty cache, and stores the location |
| `Temperature.TemperatureClient.GetAirTemperature` | datagovsg.py:122-139 | Refreshes the cache as `CachePolicy.Update` says, then returns `AirTemperature` of the new status, decoded data and raw data |
| `Scenarios.SentosaResolves` | datagovsg.py:113-120 | "Sentosa" resolves to S1 when S1 is the only station carrying that name |
| `Scenarios.SentosaReading` | datagovsg.py:122-139 | With status "degraded", S1's reading 28.5 is returned from a list that also holds another station's reading |
| `Scenarios.DuplicateStationName` | datagovsg.py:117-120 | Two stations named "Sentosa" give a LocationNotUnique error |
| `Scenarios.UnknownStationName` | datagovsg.py:117-120 | A name no station carries gives a LocationNotUnique error |
| `Scenarios.DuplicateReading` | datagovsg.py:135-139 | Two readings for the resolved station give an error carrying the raw response |
| `Scenarios.MissingStatus` | datagovsg.py:124-125 | A None status gives the error carrying the decoded payload, whatever the payload |

## Left out

- Asynchronous I/O (httpx, `async with`/`await`, asyncio, `AsyncClass`): the GET is the `fetch` parameter. Calls are sequential, and concurrent callers are not modelled.
- Wall-clock time: each `time.time()` reading is a parameter, `now` or `receivedAt`.
- Floating point: the TTL is an integer number of milliseconds. `SetDataTtl` receives the result of `float(x)` as an `Option<int>`, and None stands for a conversion that raises. The constructor takes an integer TTL, so the exception `float()` can raise there is not modelled. The reading's `value` is returned as the JSON value it is, without `float()`.
- JSON decoding: the decoded value comes with the response. Objects are maps, so key order and duplicate keys are not modelled. JSON values compare structurally, so Python's `True == 1` across booleans and numbers is not modelled.
- The constructor's `url` argument is a string or None. Python also lets other values through there. An `httpx.URL` object can be fetched successfully, and the model covers it as `Some` of its text. Any other non-string makes the GET raise, and that is the `Failed` outcome.
- The `_response` field: it is written at datagovsg.py:66 and never read.
- The `url`, `status` and `data_TTL` getters: they are plain reads of the fields.
- Printed warnings and the text of exception messages. The Python exception classes are reduced to the four `Temperature.Error` variants.
- Subclassing: `Async_Temperature_API_Client` extends `Async_API_Client`. Here `TemperatureClient` holds an `ApiClient` instead.
- The `main` driver (datagovsg.py:142-153): it reads the URL from a file and polls in a sleep loop.
