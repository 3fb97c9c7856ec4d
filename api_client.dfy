/**
 * The data.gov.sg API client: a URL, a TTL, and the last raw and decoded
 * response, updated in place. Every call that reads the clock takes the
 * reading as `now`; the HTTP GET is replaced by its outcome `fetch`.
 */
module Client {
  import opened Wrappers
  import opened Json
  import opened CachePolicy

  class ApiClient {
    var url: Option<string>
    var dataTtl: int
    var rawData: Option<string>
    var dataDict: Json
    var rawDataTimestamp: int
    var status: Json

    /** The cached part of the state, as CachePolicy describes it. */
    function Cache(): Entry
      reads this
    {
      Entry(rawData, dataDict, rawDataTimestamp, status)
    }

    /** A client created at time `now`, with no data and already stale. */
    constructor (now: int, url: Option<string> := None, dataTtl: int := DefaultTtl)
      ensures this.url == url && this.dataTtl == dataTtl
      ensures Cache() == Initial(now, dataTtl)
      ensures RawDataIsExpired(now)
    {
      this.url := url;
      this.dataTtl := dataTtl;
      rawData := None;
      dataDict := JNull;
      rawDataTimestamp := now - dataTtl - Second;
      status := JNull;
    }

    /** Assigning the `url` property: a string is kept, any other value clears it. */
    method SetUrl(x: Json)
      modifies this`url
      ensures url == if x.JStr? then Some(x.s) else None
    {
      if x.JStr? {
        url := Some(x.s);
      } else {
        url := None;
      }
    }

    /** Deleting the `url` property clears it. */
    method DeleteUrl()
      modifies this`url
      ensures url == None
    {
      url := None;
    }

    /** Assigning the `data_TTL` property. `x` is the value's conversion to a
        number, None when the conversion raises; then the TTL stays as it was. */
    method SetDataTtl(x: Option<int>)
      modifies this`dataTtl
      ensures dataTtl == if x.Some? then x.value else old(dataTtl)
    {
      if x.Some? {
        dataTtl := x.value;
      }
    }

    /** The cached data is stale at time `now`. */
    predicate RawDataIsExpired(now: int)
      reads this
    {
      Expired(now, rawDataTimestamp, dataTtl)
    }

    /** Reads `api_info.status` out of the decoded data; on any exception the
        status keeps its previous value. Returns the status. */
    method UpdateApiStatus() returns (s: Json)
      modifies this`status
      ensures status == ApiStatus(dataDict, old(status)) && s == status
    {
      match Get(dataDict, "api_info") {
        case None =>
        case Some(info) =>
          match Get(info, "status") {
            case None =>
            case Some(st) => status := st;
          }
      }
      s := status;
    }

    /** Fetches only when a URL is set and the data is stale, then returns
        the raw data; with no URL returns None. */
    method UpdateRawData(now: int, fetch: Fetch) returns (r: Option<string>)
      modifies this`rawData, this`dataDict, this`rawDataTimestamp, this`status
      ensures Polled(Cache(), r) == Update(old(Cache()), url, dataTtl, now, fetch)
    {
      if url.Some? {
        if RawDataIsExpired(now) {
          match fetch {
            case Failed =>
            case Response(text, parsed, receivedAt) =>
              rawData := Some(text);
              match parsed {
                case None =>
                case Some(data) =>
                  dataDict := data;
                  rawDataTimestamp := receivedAt;
                  var _ := UpdateApiStatus();
              }
          }
          r := rawData;
        } else {
          r := rawData;
        }
      } else {
        r := None;
      }
    }
  }
}
