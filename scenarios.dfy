/**
 * Concrete payloads in the shape the data.gov.sg air-temperature endpoint
 * returns, and what the extractor makes of them.
 */
module Scenarios {
  import opened Wrappers
  import opened Json
  import opened Temperature

  function Station(id: string, name: string): Json {
    JObj(map["id" := JStr(id), "name" := JStr(name)])
  }

  function Reading(stationId: string, value: real): Json {
    JObj(map["station_id" := JStr(stationId), "value" := JNum(value)])
  }

  /** A payload whose metadata lists `stations` and whose latest item holds `readings`. */
  function Payload(stations: seq<Json>, readings: seq<Json>): Json {
    JObj(map[
      "api_info" := JObj(map["status" := JStr("healthy")]),
      "metadata" := JObj(map["stations" := JArr(stations)]),
      "items" := JArr([JObj(map["readings" := JArr(readings)])])
    ])
  }

  /** The station and reading lists of a payload are the ones it was built from. */
  lemma PayloadLists(stations: seq<Json>, readings: seq<Json>)
    ensures StationList(Payload(stations, readings)) == Some(stations)
    ensures ReadingList(Payload(stations, readings)) == Some(readings)
  {
  }

  /** Sentosa resolves to S1 among differently named stations, whatever the readings. */
  lemma SentosaResolves(readings: seq<Json>)
    ensures LocationId("Sentosa", Payload([Station("S1", "Sentosa"), Station("S2", "Changi")], readings)) == Ok(JStr("S1"))
  {
    var stations := [Station("S1", "Sentosa"), Station("S2", "Changi")];
    PayloadLists(stations, readings);
    assert OnlyMatch(stations, "name", JStr("Sentosa"), 0);
    LocationIdExactlyOne("Sentosa", Payload(stations, readings));
  }

  /** Sentosa's reading is returned, even while the API reports itself degraded. */
  lemma SentosaReading()
    ensures AirTemperature("Sentosa", JStr("degraded"),
              Payload([Station("S1", "Sentosa"), Station("S2", "Changi")],
                      [Reading("S2", 30.1), Reading("S1", 28.5)]), None)
            == Ok(JNum(28.5))
  {
    var readings := [Reading("S2", 30.1), Reading("S1", 28.5)];
    var data := Payload([Station("S1", "Sentosa"), Station("S2", "Changi")], readings);
    SentosaResolves(readings);
    PayloadLists([Station("S1", "Sentosa"), Station("S2", "Changi")], readings);
    assert AllHaveKey(readings, "station_id");
    assert OnlyMatch(readings, "station_id", JStr("S1"), 1);
    assert HasKey(readings[1], "value") && readings[1].fields["value"] == JNum(28.5);
    AirTemperatureExactlyOne("Sentosa", JStr("degraded"), data, None, JStr("S1"));
  }

  /** Two stations sharing the name make the location ambiguous. */
  lemma DuplicateStationName()
    ensures LocationId("Sentosa", Payload([Station("S1", "Sentosa"), Station("S9", "Sentosa")], [])) == Err(LocationNotUnique)
  {
    var stations := [Station("S1", "Sentosa"), Station("S9", "Sentosa")];
    PayloadLists(stations, []);
  }

  /** A name no station carries does not resolve either. */
  lemma UnknownStationName()
    ensures LocationId("Sentosa", Payload([Station("S2", "Changi")], [])) == Err(LocationNotUnique)
  {
    var stations := [Station("S2", "Changi")];
    PayloadLists(stations, []);
  }

  /** Two readings for the resolved station are an IOError dumping the raw response. */
  lemma DuplicateReading(raw: string)
    ensures AirTemperature("Sentosa", JStr("healthy"),
              Payload([Station("S1", "Sentosa")], [Reading("S1", 28.5), Reading("S1", 28.7)]), Some(raw))
            == Err(ReadingNotUnique(Some(raw)))
  {
    var stations := [Station("S1", "Sentosa")];
    var readings := [Reading("S1", 28.5), Reading("S1", 28.7)];
    var data := Payload(stations, readings);
    PayloadLists(stations, readings);
    assert OnlyMatch(stations, "name", JStr("Sentosa"), 0);
    LocationIdExactlyOne("Sentosa", data);
    assert Matches(readings[0], "station_id", JStr("S1")) && Matches(readings[1], "station_id", JStr("S1"));
    assert forall i :: !OnlyMatch(readings, "station_id", JStr("S1"), i);
    AirTemperatureExactlyOne("Sentosa", JStr("healthy"), data, Some(raw), JStr("S1"));
  }

  /** A missing status stops extraction before the payload is inspected. */
  lemma MissingStatus(data: Json)
    ensures AirTemperature("Sentosa", JNull, data, None) == Err(NoStatus(data))
  {
  }
}
