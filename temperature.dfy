/**
 * The air-temperature client: resolves a location name to a station id in
 * the payload's `metadata.stations` and returns the value of that station's
 * single reading in `items[0].readings`. The extraction is a set of pure
 * functions over the decoded payload; TemperatureClient runs it after
 * refreshing the cache of its ApiClient.
 */
module Temperature {
  import opened Wrappers
  import opened Json
  import opened CachePolicy
  import opened Client

  /** The location a client looks up when none is given. */
  const DefaultLocation: string := "Sentosa"

  /** Why a temperature could not be extracted. `Malformed` is any
      AttributeError, KeyError, IndexError or TypeError raised while walking
      the payload; `LocationNotUnique` is the ValueError for zero or several
      stations of that name; `NoStatus` and `ReadingNotUnique` are the two
      IOErrors, carrying the decoded payload and the raw text they dump. */
  datatype Error =
    | Malformed
    | LocationNotUnique
    | NoStatus(payload: Json)
    | ReadingNotUnique(response: Option<string>)

  /** `row[key] == target` holds and can be evaluated. */
  predicate Matches(row: Json, key: string, target: Json) {
    HasKey(row, key) && row.fields[key] == target
  }

  /** Every row can be subscripted with `key`. */
  predicate AllHaveKey(rows: seq<Json>, key: string) {
    forall i :: 0 <= i < |rows| ==> HasKey(rows[i], key)
  }

  /** Row `i` is the one and only row whose `key` equals `target`. */
  predicate OnlyMatch(rows: seq<Json>, key: string, target: Json, i: int) {
    0 <= i < |rows| && Matches(rows[i], key, target) &&
    forall j :: 0 <= j < |rows| && j != i ==> !Matches(rows[j], key, target)
  }

  /** `[row for row in rows if row[key] == target]`: None when some row
      cannot be subscripted with `key`. */
  function Select(rows: seq<Json>, key: string, target: Json): (r: Option<seq<Json>>)
    ensures r.Some? <==> AllHaveKey(rows, key)
    ensures r.Some? ==> forall x :: x in r.value ==> x in rows && Matches(x, key, target)
    ensures r.Some? ==> forall i :: 0 <= i < |rows| && Matches(rows[i], key, target) ==> rows[i] in r.value
    ensures r.Some? ==> (r.value == [] <==> forall i :: 0 <= i < |rows| ==> !Matches(rows[i], key, target))
  {
    if rows == [] then Some([])
    else
      var v :- Subscript(rows[0], key);
      var rest :- Select(rows[1..], key, target);
      Some((if v == target then [rows[0]] else []) + rest)
  }

  /** `[row[key] for row in rows]`: None when some row lacks the key. */
  function Column(rows: seq<Json>, key: string): (r: Option<seq<Json>>)
    ensures r.Some? <==> AllHaveKey(rows, key)
    ensures r.Some? ==> |r.value| == |rows| && forall k :: 0 <= k < |rows| ==> r.value[k] == rows[k].fields[key]
  {
    if rows == [] then Some([])
    else
      var v :- Subscript(rows[0], key);
      var rest :- Column(rows[1..], key);
      Some([v] + rest)
  }

  /** A later row is the only match exactly when the first row does not
      match and it is the only match among the rest. */
  lemma OnlyMatchLater(rows: seq<Json>, key: string, target: Json, i: int)
    requires 0 < i < |rows|
    ensures OnlyMatch(rows, key, target, i) <==> !Matches(rows[0], key, target) && OnlyMatch(rows[1..], key, target, i - 1)
  {
  }

  /** The first row is the only match exactly when it matches and no later row does. */
  lemma OnlyMatchFirst(rows: seq<Json>, key: string, target: Json)
    requires rows != []
    ensures OnlyMatch(rows, key, target, 0) <==>
              Matches(rows[0], key, target) && forall j :: 0 <= j < |rows[1..]| ==> !Matches(rows[1..][j], key, target)
  {
    var tail := rows[1..];
    if Matches(rows[0], key, target) && forall j :: 0 <= j < |tail| ==> !Matches(tail[j], key, target) {
      forall j | 0 < j < |rows| ensures !Matches(rows[j], key, target) {
        assert rows[j] == tail[j - 1];
      }
    }
  }

  /** Selecting the rows whose `key` equals `target` yields exactly one row
      precisely when exactly one row matches, and then yields that row. */
  lemma {:induction false} SelectExactlyOne(rows: seq<Json>, key: string, target: Json)
    requires AllHaveKey(rows, key)
    ensures |Select(rows, key, target).value| == 1 <==> exists i :: OnlyMatch(rows, key, target, i)
    ensures forall i :: OnlyMatch(rows, key, target, i) ==> Select(rows, key, target).value == [rows[i]]
  {
    if rows != [] {
      var tail := rows[1..];
      assert AllHaveKey(tail, key) by {
        forall j | 0 <= j < |tail| ensures HasKey(tail[j], key) { assert tail[j] == rows[j + 1]; }
      }
      SelectExactlyOne(tail, key, target);
      var rest := Select(tail, key, target).value;
      var head := if Matches(rows[0], key, target) then [rows[0]] else [];
      assert Select(rows, key, target).value == head + rest;
      OnlyMatchFirst(rows, key, target);
      forall i | 0 < i < |rows| ensures OnlyMatch(rows, key, target, i) <==> !Matches(rows[0], key, target) && OnlyMatch(tail, key, target, i - 1) {
        OnlyMatchLater(rows, key, target, i);
      }
      if Matches(rows[0], key, target) {
        assert forall i :: OnlyMatch(rows, key, target, i) ==> i == 0;
      } else {
        if exists i :: OnlyMatch(tail, key, target, i) {
          var i :| OnlyMatch(tail, key, target, i);
          assert OnlyMatch(rows, key, target, i + 1);
        }
      }
    }
  }

  /** `data.get("metadata").get("stations")`, as the comprehension visits it. */
  function StationList(data: Json): Option<seq<Json>> {
    var metadata :- Get(data, "metadata");
    var stations :- Get(metadata, "stations");
    Rows(stations)
  }

  /** `data.get("items")[0].get("readings")`, as the comprehension visits it. */
  function ReadingList(data: Json): Option<seq<Json>> {
    var items :- Get(data, "items");
    var latest :- First(items);
    var readings :- Get(latest, "readings");
    Rows(readings)
  }

  /** get_location_id: the id of the one station named `location`. The
      comprehension reads every station's name and the id of each match;
      fewer or more than one match is a ValueError. */
  function LocationId(location: string, data: Json): Result<Json, Error> {
    var stations :- StationList(data).ToResult(Malformed);
    var matches :- Select(stations, "name", JStr(location)).ToResult(Malformed);
    var ids :- Column(matches, "id").ToResult(Malformed);
    if |ids| == 1 then Ok(ids[0]) else Err(LocationNotUnique)
  }

  /** The location resolves exactly when one station carries its name, to
      that station's id. A payload whose station list cannot be walked, or
      whose matching station has no id, is malformed; a readable list with
      zero or several such stations is a LocationNotUnique error. */
  lemma LocationIdExactlyOne(location: string, data: Json)
    ensures StationList(data).None? ==> LocationId(location, data) == Err(Malformed)
    ensures StationList(data).Some? && !AllHaveKey(StationList(data).value, "name") ==>
              LocationId(location, data) == Err(Malformed)
    ensures forall i :: StationList(data).Some? && AllHaveKey(StationList(data).value, "name") &&
                        OnlyMatch(StationList(data).value, "name", JStr(location), i) ==>
              LocationId(location, data) ==
                (var station := StationList(data).value[i];
                 if HasKey(station, "id") then Ok(station.fields["id"]) else Err(Malformed))
    ensures StationList(data).Some? && AllHaveKey(StationList(data).value, "name") &&
            (forall i :: !OnlyMatch(StationList(data).value, "name", JStr(location), i)) &&
            (forall i :: 0 <= i < |StationList(data).value| && Matches(StationList(data).value[i], "name", JStr(location)) ==>
                         HasKey(StationList(data).value[i], "id")) ==>
              LocationId(location, data) == Err(LocationNotUnique)
    ensures LocationId(location, data).Ok? ==>
              StationList(data).Some? && exists i :: OnlyMatch(StationList(data).value, "name", JStr(location), i)
  {
    if StationList(data).Some? && AllHaveKey(StationList(data).value, "name") {
      var stations := StationList(data).value;
      SelectExactlyOne(stations, "name", JStr(location));
      var matches := Select(stations, "name", JStr(location)).value;
      if forall i :: 0 <= i < |stations| && Matches(stations[i], "name", JStr(location)) ==> HasKey(stations[i], "id") {
        assert AllHaveKey(matches, "id") by {
          forall k | 0 <= k < |matches| ensures HasKey(matches[k], "id") {
            assert matches[k] in stations;
          }
        }
      }
      if LocationId(location, data).Ok? {
        var ids := Column(matches, "id");
        assert ids.Some? && |ids.value| == 1;
        assert |matches| == 1;
      }
    }
  }

  /** get_air_temperature, after the cache refresh: a missing status is an
      IOError carrying the decoded payload; any other status, "healthy" or
      not, lets extraction proceed. The result is the `value` of the single
      reading of the resolved station, left uninterpreted. */
  function AirTemperature(location: string, status: Json, data: Json, rawData: Option<string>): (r: Result<Json, Error>)
    ensures status == JNull ==> r == Err(NoStatus(data))
    ensures status != JNull && LocationId(location, data).Err? ==> r == Err(LocationId(location, data).error)
  {
    if status == JNull then Err(NoStatus(data))
    else
      var id :- LocationId(location, data);
      var readings :- ReadingList(data).ToResult(Malformed);
      var matched :- Select(readings, "station_id", id).ToResult(Malformed);
      if |matched| == 1 then Subscript(matched[0], "value").ToResult(Malformed)
      else Err(ReadingNotUnique(rawData))
  }

  /** With a status present and the location resolved, the temperature is
      the value of the one reading of that station; zero or several readings
      for it are an IOError dumping the raw response. */
  lemma AirTemperatureExactlyOne(location: string, status: Json, data: Json, rawData: Option<string>, id: Json)
    requires status != JNull && LocationId(location, data) == Ok(id)
    ensures ReadingList(data).None? ==> AirTemperature(location, status, data, rawData) == Err(Malformed)
    ensures ReadingList(data).Some? && !AllHaveKey(ReadingList(data).value, "station_id") ==>
              AirTemperature(location, status, data, rawData) == Err(Malformed)
    ensures forall i :: ReadingList(data).Some? && AllHaveKey(ReadingList(data).value, "station_id") &&
                        OnlyMatch(ReadingList(data).value, "station_id", id, i) ==>
              AirTemperature(location, status, data, rawData) ==
                (var reading := ReadingList(data).value[i];
                 if HasKey(reading, "value") then Ok(reading.fields["value"]) else Err(Malformed))
    ensures ReadingList(data).Some? && AllHaveKey(ReadingList(data).value, "station_id") &&
            (forall i :: !OnlyMatch(ReadingList(data).value, "station_id", id, i)) ==>
              AirTemperature(location, status, data, rawData) == Err(ReadingNotUnique(rawData))
  {
    if ReadingList(data).Some? && AllHaveKey(ReadingList(data).value, "station_id") {
      SelectExactlyOne(ReadingList(data).value, "station_id", id);
    }
  }

  /** A status other than "healthy" only warns: the extraction comes out as
      it would for a healthy API. */
  lemma UnhealthyStatusOnlyWarns(location: string, status: Json, data: Json, rawData: Option<string>)
    requires status != JNull
    ensures AirTemperature(location, status, data, rawData) == AirTemperature(location, JStr("healthy"), data, rawData)
  {
  }

  /** The temperature client: an ApiClient plus the location to report. */
  class TemperatureClient {
    const api: ApiClient
    var location: string

    constructor (now: int, url: Option<string> := None, dataTtl: int := DefaultTtl,
                 location: string := DefaultLocation)
      ensures fresh(api) && this.location == location
      ensures api.url == url && api.dataTtl == dataTtl && api.Cache() == Initial(now, dataTtl)
    {
      api := new ApiClient(now, url, dataTtl);
      this.location := location;
    }

    /** Refreshes the cache, then extracts the temperature at `location`
        from whatever the cache now holds. */
    method GetAirTemperature(now: int, fetch: Fetch) returns (r: Result<Json, Error>)
      modifies api`rawData, api`dataDict, api`rawDataTimestamp, api`status
      ensures api.Cache() == Update(old(api.Cache()), api.url, api.dataTtl, now, fetch).entry
      ensures r == AirTemperature(location, api.status, api.dataDict, api.rawData)
    {
      var _ := api.UpdateRawData(now, fetch);
      r := AirTemperature(location, api.status, api.dataDict, api.rawData);
    }
  }
}
