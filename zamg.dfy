/** The ZamgData client: per-station observation rows, the default station,
    the stamp of the newest rows, and the HTTP session handle.

    The network is not part of the model. A request's result is an input:
    `Failed` for an exception from aiohttp or async_timeout, or the status
    and the body already split into CSV rows. The clock is an input too:
    `now` counts minutes on the same scale as `Minutes` of a parsed stamp. */
module Zamg {
  import opened Python
  import opened Dicts
  import opened Stamps
  import opened Stations

  /** `self.data`: the row last seen for each value of the `Station` column
      (`row.get("Station")`, so a row without that column is stored under None). */
  type Data = map<Option<string>, Row>

  /** The observation body: its rows, or a body `decode("utf8")` rejects
      (UnicodeDecodeError, a ValueError). */
  datatype DataBody = Decoded(rows: seq<Row>) | Undecodable

  datatype Response<B> = Failed | Answer(status: int, body: B)

  /** The fields of a ZamgData instance. `session` tells whether a session
      handle is held. */
  datatype ClientState = ClientState(
    data: Data,
    stationId: string,
    updateDate: Option<string>,
    updateTime: Option<string>,
    session: bool)

  const StationColumn: string := "Station"
  const DateColumn: string := "Datum"
  const TimeColumn: string := "Zeit"

  /** The interval between two fetches: the observations are hourly. */
  const RefreshMinutes: int := 60

  function StationKey(row: Row): Option<string> {
    Get(row, StationColumn)
  }

  // ---------------------------------------------------------------------
  // The row merge of update

  /** `self.data` after `self.data[row.get("Station")] = dict(row.items())`
      has run for every row, in order. */
  function MergeRows(data: Data, rows: seq<Row>): (r: Data)
    ensures data.Keys <= r.Keys
    ensures forall i :: 0 <= i < |rows| ==> StationKey(rows[i]) in r
    decreases |rows|
  {
    if rows == [] then data
    else MergeRows(data, rows[..|rows| - 1])[StationKey(rows[|rows| - 1]) := rows[|rows| - 1]]
  }

  /** The merge keeps every station it had and adds the rows' stations. */
  lemma {:induction false} MergeRowsKeys(data: Data, rows: seq<Row>)
    ensures MergeRows(data, rows).Keys == data.Keys + set i | 0 <= i < |rows| :: StationKey(rows[i])
    decreases |rows|
  {
    if rows != [] {
      var front := rows[..|rows| - 1];
      MergeRowsKeys(data, front);
      assert (set i | 0 <= i < |rows| :: StationKey(rows[i]))
          == (set i | 0 <= i < |front| :: StationKey(front[i])) + {StationKey(rows[|rows| - 1])};
    }
  }

  /** A station no row names keeps its entry, or its absence. */
  lemma {:induction false} MergeRowsUntouched(data: Data, rows: seq<Row>, k: Option<string>)
    requires forall i :: 0 <= i < |rows| ==> StationKey(rows[i]) != k
    ensures k in MergeRows(data, rows) <==> k in data
    ensures k in data ==> MergeRows(data, rows)[k] == data[k]
    decreases |rows|
  {
    if rows != [] {
      MergeRowsUntouched(data, rows[..|rows| - 1], k);
    }
  }

  /** A station's entry is the last row that names it, stored whole. */
  lemma {:induction false} MergeRowsLastWins(data: Data, rows: seq<Row>, i: int)
    requires 0 <= i < |rows|
    requires forall j :: i < j < |rows| ==> StationKey(rows[j]) != StationKey(rows[i])
    ensures StationKey(rows[i]) in MergeRows(data, rows)
    ensures MergeRows(data, rows)[StationKey(rows[i])] == rows[i]
    decreases |rows|
  {
    if i < |rows| - 1 {
      MergeRowsLastWins(data, rows[..|rows| - 1], i);
    }
  }

  /** A stamp field after the loop: the last row's `row.get(column)`, or the
      previous value when there is no row. */
  function LastField(rows: seq<Row>, column: string, previous: Option<string>): (r: Option<string>)
    ensures rows == [] ==> r == previous
    ensures rows != [] ==> (r.Some? <==> column in rows[|rows| - 1])
  {
    if rows == [] then previous else Get(rows[|rows| - 1], column)
  }

  // ---------------------------------------------------------------------
  // get_data and last_update

  /** `get_data(variable, station_id)`: the station given, or the default one
      when it is None or empty; None when either key is missing. */
  function GetData(s: ClientState, variable: string, stationId: Option<string>): (r: Option<string>)
    ensures var key := Some(if stationId.Some? && stationId.value != "" then stationId.value else s.stationId);
      && (r.Some? <==> key in s.data && variable in s.data[key])
      && (r.Some? ==> r.value == s.data[key][variable])
  {
    var key := Some(if stationId.Some? && stationId.value != "" then stationId.value else s.stationId);
    if key in s.data && variable in s.data[key] then Some(s.data[key][variable]) else None
  }

  /** `last_update`: None unless both stamp fields are set; otherwise the
      datetime whose `%d-%m-%Y%H:%M` text is their concatenation, and
      ValueError when no datetime has that text. */
  function LastUpdate(s: ClientState): (r: Outcome<DateTime>)
    ensures r.ReturnsNone? <==> s.updateDate.None? || s.updateTime.None?
    ensures r.Returns? ==> Valid(r.value) && Format(r.value) == s.updateDate.value + s.updateTime.value
    ensures r.Raises? ==> r.error == ValueError
    ensures r.Raises? ==> forall dt :: Valid(dt) ==> Format(dt) != s.updateDate.value + s.updateTime.value
  {
    if s.updateDate.None? || s.updateTime.None? then ReturnsNone
    else
      var text := s.updateDate.value + s.updateTime.value;
      match Parse(text)
      case Some(dt) => FormatParse(text); Returns(dt)
      case None => ParseRejects(text); Raises(ValueError)
  }

  lemma ParseRejects(text: string)
    requires Parse(text).None?
    ensures forall dt :: Valid(dt) ==> Format(dt) != text
  {
  }

  /** `self.last_update + timedelta(hours=1)` would pass year 9999: update
      raises OverflowError before it compares with the clock. */
  predicate StampOverflows(s: ClientState)
    ensures StampOverflows(s) <==> LastUpdate(s).Returns? && Earlier(LastFittingStamp, LastUpdate(s).value)
  {
    var stamp := LastUpdate(s);
    if stamp.Returns? then
      MinutesOrder(LastFittingStamp, stamp.value);
      assert Minutes(LastFittingStamp) + RefreshMinutes == Minutes(Latest);
      !FitsAfter(stamp.value, RefreshMinutes)
    else false
  }

  /** The latest stamp an hour can still be added to: 31-12-9999 22:59. */
  const LastFittingStamp: DateTime := DateTime(9999, 12, 31, 22, 59)

  /** The staleness gate: the newest rows are less than an hour old. */
  predicate IsCurrent(s: ClientState, now: int)
    ensures IsCurrent(s, now) ==> LastUpdate(s).Returns? && now < Minutes(LastUpdate(s).value) + RefreshMinutes
    ensures LastUpdate(s).ReturnsNone? ==> !IsCurrent(s, now)
  {
    var stamp := LastUpdate(s);
    stamp.Returns? && !StampOverflows(s) && Minutes(stamp.value) + RefreshMinutes > now
  }

  /** update goes past the gate and makes a request: there is no stamp, or
      the stamp is an hour or more older than now. */
  predicate Fetches(s: ClientState, now: int)
    ensures Fetches(s, now) ==>
      || LastUpdate(s).ReturnsNone?
      || (LastUpdate(s).Returns? && Minutes(LastUpdate(s).value) + RefreshMinutes <= now)
    ensures LastUpdate(s).ReturnsNone? ==> Fetches(s, now)
  {
    !LastUpdate(s).Raises? && !StampOverflows(s) && !IsCurrent(s, now)
  }

  // ---------------------------------------------------------------------
  // update

  /** `update()` at minute `now`, the request answering `response`: the new
      fields and what the call ends with. */
  function UpdateSpec(s: ClientState, now: int, response: Response<DataBody>): (res: (ClientState, Outcome<Data>))
    ensures res.0.stationId == s.stationId
    ensures res.1.Returns? ==> res.1.value == res.0.data
    ensures !res.1.Returns? ==> res.0.data == s.data && res.0.updateDate == s.updateDate && res.0.updateTime == s.updateTime
    ensures s.data.Keys <= res.0.data.Keys
    ensures !Fetches(s, now) ==> res.0 == s
    ensures LastUpdate(s).Raises? ==> res == (s, Raises(ValueError))
    ensures StampOverflows(s) ==> res == (s, Raises(OverflowError))
    ensures Fetches(s, now) && response.Failed? ==> res == (s.(session := true), Raises(ClientError))
    ensures Fetches(s, now) && response.Answer? && response.status != 200 ==> res == (s.(session := true), ReturnsNone)
    ensures Fetches(s, now) && response == Answer(200, Undecodable) ==> res == (s.(session := false), ReturnsNone)
    ensures res.1.Returns? <==> IsCurrent(s, now) || (Fetches(s, now) && response.Answer? && response.status == 200 && response.body.Decoded?)
  {
    if LastUpdate(s).Raises? then (s, Raises(ValueError))
    else if StampOverflows(s) then (s, Raises(OverflowError))
    else if IsCurrent(s, now) then (s, Returns(s.data))
    else
      var withSession := s.(session := true);
      match response
      case Failed => (withSession, Raises(ClientError))
      case Answer(status, body) =>
        if status != 200 then (withSession, ReturnsNone)
        else match body
          case Undecodable => (s.(session := false), ReturnsNone)
          case Decoded(rows) =>
            MergeRowsKeys(s.data, rows);
            var fetched := withSession.(
              data := MergeRows(s.data, rows),
              updateDate := LastField(rows, DateColumn, s.updateDate),
              updateTime := LastField(rows, TimeColumn, s.updateTime));
            (fetched, Returns(fetched.data))
  }

  /** Within the hour update returns the data it holds and changes nothing,
      the session included. */
  lemma UpdateWithinHourIsCached(s: ClientState, now: int, response: Response<DataBody>)
    requires IsCurrent(s, now)
    ensures UpdateSpec(s, now, response) == (s, Returns(s.data))
  {
  }

  /** After a 200 answer the stamps are the last row's `Datum` and `Zeit`
      (None where that row lacks the column), or the old ones when the body
      has no rows. */
  lemma UpdateStamps(s: ClientState, now: int, rows: seq<Row>)
    requires Fetches(s, now)
    ensures var s' := UpdateSpec(s, now, Answer(200, Decoded(rows))).0;
      && s'.updateDate == (if rows == [] then s.updateDate else Get(rows[|rows| - 1], DateColumn))
      && s'.updateTime == (if rows == [] then s.updateTime else Get(rows[|rows| - 1], TimeColumn))
      && s'.session
  {
  }

  /** A stamp in the last hour of year 9999 makes every update raise
      OverflowError, whatever the clock says, and leaves the state alone. */
  lemma UpdateOverflowsAtYear9999(s: ClientState, now: int, response: Response<DataBody>)
    requires s.updateDate == Some("31-12-9999") && s.updateTime == Some("23:30")
    ensures UpdateSpec(s, now, response) == (s, Raises(OverflowError))
  {
    var dt := DateTime(9999, 12, 31, 23, 30);
    ParseFormat(dt);
    assert Format(dt) == "31-12-999923:30";
  }

  /** A fetch stores each row under its station; the last row of a station wins. */
  lemma UpdateStoresLastRow(s: ClientState, now: int, rows: seq<Row>, i: int)
    requires Fetches(s, now)
    requires 0 <= i < |rows|
    requires forall j :: i < j < |rows| ==> StationKey(rows[j]) != StationKey(rows[i])
    ensures var s' := UpdateSpec(s, now, Answer(200, Decoded(rows))).0;
      StationKey(rows[i]) in s'.data && s'.data[StationKey(rows[i])] == rows[i]
  {
    MergeRowsLastWins(s.data, rows, i);
  }

  /** Whatever the answer, a station no fetched row names keeps its entry. */
  lemma UpdateKeepsOtherStations(s: ClientState, now: int, response: Response<DataBody>, k: Option<string>)
    requires response.Answer? && response.body.Decoded? ==>
      forall i :: 0 <= i < |response.body.rows| ==> StationKey(response.body.rows[i]) != k
    ensures var s' := UpdateSpec(s, now, response).0;
      (k in s'.data <==> k in s.data) && (k in s.data ==> s'.data[k] == s.data[k])
  {
    if Fetches(s, now) && response.Answer? && response.status == 200 && response.body.Decoded? {
      MergeRowsUntouched(s.data, response.body.rows, k);
    }
  }

  /** After a fetch, get_data for a station reads the last row naming it. */
  lemma GetDataAfterUpdate(s: ClientState, now: int, rows: seq<Row>, station: string, variable: string, i: int)
    requires Fetches(s, now)
    requires station != ""
    requires 0 <= i < |rows| && StationKey(rows[i]) == Some(station)
    requires forall j :: i < j < |rows| ==> StationKey(rows[j]) != Some(station)
    ensures GetData(UpdateSpec(s, now, Answer(200, Decoded(rows))).0, variable, Some(station)) == Get(rows[i], variable)
  {
    MergeRowsLastWins(s.data, rows, i);
  }

  /** A fetch whose last row carries a valid stamp makes an update issued
      less than an hour after that stamp return the cached data. */
  lemma SecondUpdateWithinHourIsCached(s: ClientState, now: int, rows: seq<Row>, dt: DateTime, later: int, response: Response<DataBody>)
    requires Fetches(s, now)
    requires rows != []
    requires DateColumn in rows[|rows| - 1] && TimeColumn in rows[|rows| - 1]
    requires Valid(dt) && Format(dt) == rows[|rows| - 1][DateColumn] + rows[|rows| - 1][TimeColumn]
    requires later < Minutes(dt) + RefreshMinutes
    ensures var s' := UpdateSpec(s, now, Answer(200, Decoded(rows))).0;
      && LastUpdate(s') == Returns(dt)
      && UpdateSpec(s', later, response)
         == (s', if FitsAfter(dt, RefreshMinutes) then Returns(s'.data) else Raises(OverflowError))
  {
    ParseFormat(dt);
  }

  // ---------------------------------------------------------------------
  // _get_ogd_stations and _get_zamg_stations

  /** `_get_ogd_stations()`: `set(await self.update())`, the station keys
      update leaves; `set(None)` raises TypeError. */
  function OgdStationsSpec(s: ClientState, now: int, response: Response<DataBody>): (res: (ClientState, Outcome<set<Option<string>>>))
    ensures res.0 == UpdateSpec(s, now, response).0
    ensures res.1.Returns? <==> UpdateSpec(s, now, response).1.Returns?
    ensures res.1.Returns? ==> res.1.value == res.0.data.Keys
    ensures UpdateSpec(s, now, response).1.ReturnsNone? ==> res.1 == Raises(TypeError)
    ensures UpdateSpec(s, now, response).1.Raises? ==> res.1 == Raises(UpdateSpec(s, now, response).1.error)
    ensures !res.1.ReturnsNone?
  {
    var (s', u) := UpdateSpec(s, now, response);
    match u
    case Returns(data) => (s', Returns(data.Keys))
    case ReturnsNone => (s', Raises(TypeError))
    case Raises(e) => (s', Raises(e))
  }

  /** `_get_zamg_stations()`: the station list filtered to the OGD stations.
      Only a request exception or a kept row without a column escapes; a
      status other than 200 returns None. */
  function ZamgStationsSpec(s: ClientState, now: int, dataResponse: Response<DataBody>,
                            stationResponse: Response<seq<Row>>, parseFloat: string -> Option<real>)
    : (res: (ClientState, Outcome<Dict<string, StationInfo>>))
    ensures res.0.data == UpdateSpec(s, now, dataResponse).0.data
    ensures res.1.Returns? ==> res.1.value.Valid()
    ensures res.1.Returns? ==>
      && stationResponse.Answer? && stationResponse.status == 200
      && res.1 == StationTable(stationResponse.body, res.0.data.Keys, parseFloat)
    ensures var ogd := OgdStationsSpec(s, now, dataResponse);
      !ogd.1.Returns? ==> res == (ogd.0, Raises(ogd.1.error))
    ensures var ogd := OgdStationsSpec(s, now, dataResponse);
      ogd.1.Returns? && stationResponse.Failed? ==> res == (ogd.0.(session := true), Raises(ClientError))
    ensures var ogd := OgdStationsSpec(s, now, dataResponse);
      (ogd.1.Returns? && stationResponse.Answer? && stationResponse.status != 200)
        ==> res == (ogd.0.(session := true), ReturnsNone)
    ensures var ogd := OgdStationsSpec(s, now, dataResponse);
      (ogd.1.Returns? && stationResponse.Answer? && stationResponse.status == 200)
        ==> res == (ogd.0.(session := true), StationTable(stationResponse.body, ogd.1.value, parseFloat))
  {
    var (s', ogd) := OgdStationsSpec(s, now, dataResponse);
    if !ogd.Returns? then (s', Raises(ogd.error))
    else
      var withSession := s'.(session := true);
      match stationResponse
      case Failed => (withSession, Raises(ClientError))
      case Answer(status, rows) =>
        if status != 200 then (withSession, ReturnsNone)
        else (withSession, StationTable(rows, ogd.value, parseFloat))
  }

  /** The list holds exactly the stations whose SYNNR the observation data
      (after the update the call makes) has a row for. */
  lemma ZamgStationsAreOgdStations(s: ClientState, now: int, dataResponse: Response<DataBody>,
                                   stationResponse: Response<seq<Row>>, parseFloat: string -> Option<real>, k: string)
    requires ZamgStationsSpec(s, now, dataResponse, stationResponse, parseFloat).1.Returns?
    ensures stationResponse.Answer? && stationResponse.status == 200
    ensures var (s', r) := ZamgStationsSpec(s, now, dataResponse, stationResponse, parseFloat);
      k in r.value.items <==>
        exists i :: 0 <= i < |stationResponse.body| && Get(stationResponse.body[i], SynNr) == Some(k) && Some(k) in s'.data
  {
    var ogd := OgdStationsSpec(s, now, dataResponse).1;
    StationTableKeys(stationResponse.body, ogd.value, parseFloat, k);
  }

  // ---------------------------------------------------------------------
  // The client object

  class ZamgData {
    var data: Data
    var stationId: string
    var updateDate: Option<string>
    var updateTime: Option<string>
    var session: bool

    function State(): ClientState
      reads this
    {
      ClientState(data, stationId, updateDate, updateTime, session)
    }

    /** `ZamgData(default_station_id, session)`; the stamps start as None. */
    constructor(defaultStationId: string, session: bool)
      ensures State() == ClientState(map[], defaultStationId, None, None, session)
      ensures LastUpdate(State()) == ReturnsNone
    {
      data := map[];
      stationId := defaultStationId;
      updateDate := None;
      updateTime := None;
      this.session := session;
    }

    method SetDefaultStation(id: string)
      modifies this
      ensures State() == old(State()).(stationId := id)
    {
      stationId := id;
    }

    method Update(now: int, response: Response<DataBody>) returns (r: Outcome<Data>)
      modifies this
      ensures (State(), r) == UpdateSpec(old(State()), now, response)
    {
      if LastUpdate(State()).Raises? {
        return Raises(ValueError);
      }
      if StampOverflows(State()) {
        return Raises(OverflowError);
      }
      if IsCurrent(State(), now) {
        return Returns(data);
      }
      if !session {
        session := true;
      }
      if response.Failed? {
        return Raises(ClientError);
      }
      if response.status != 200 {
        return ReturnsNone;
      }
      if response.body.Undecodable? {
        session := false;
        return ReturnsNone;
      }
      var rows := response.body.rows;
      var i := 0;
      while i < |rows|
        invariant 0 <= i <= |rows|
        invariant data == MergeRows(old(data), rows[..i])
        invariant updateDate == LastField(rows[..i], DateColumn, old(updateDate))
        invariant updateTime == LastField(rows[..i], TimeColumn, old(updateTime))
        invariant session && stationId == old(stationId)
      {
        var row := rows[i];
        assert rows[..i + 1][..i] == rows[..i];
        data := data[StationKey(row) := row];
        updateDate := Get(row, DateColumn);
        updateTime := Get(row, TimeColumn);
        i := i + 1;
      }
      assert rows[..i] == rows;
      return Returns(data);
    }

    method GetOgdStations(now: int, response: Response<DataBody>) returns (r: Outcome<set<Option<string>>>)
      modifies this
      ensures (State(), r) == OgdStationsSpec(old(State()), now, response)
    {
      var u := Update(now, response);
      match u
      case Returns(d) => r := Returns(d.Keys);
      case ReturnsNone => r := Raises(TypeError);
      case Raises(e) => r := Raises(e);
    }

    method GetZamgStations(now: int, dataResponse: Response<DataBody>,
                           stationResponse: Response<seq<Row>>, parseFloat: string -> Option<real>)
      returns (r: Outcome<Dict<string, StationInfo>>)
      modifies this
      ensures (State(), r) == ZamgStationsSpec(old(State()), now, dataResponse, stationResponse, parseFloat)
    {
      var ogd := GetOgdStations(now, dataResponse);
      if !ogd.Returns? {
        return Raises(ogd.error);
      }
      var capital := ogd.value;
      if !session {
        session := true;
      }
      if stationResponse.Failed? {
        return Raises(ClientError);
      }
      if stationResponse.status != 200 {
        return ReturnsNone;
      }
      var rows := stationResponse.body;
      var stations := Empty();
      var i := 0;
      while i < |rows|
        invariant 0 <= i <= |rows|
        invariant StationTable(rows[..i], capital, parseFloat) == Returns(stations)
      {
        var row := rows[i];
        assert rows[..i + 1][..i] == rows[..i];
        if Get(row, SynNr) in capital {
          if !(SynNr in row && Latitude in row && Longitude in row && Name in row) {
            StationTableFails(rows, capital, parseFloat);
            return Raises(KeyError);
          }
          var info := StationInfo(
            ToFloat(row[Latitude], parseFloat),
            ToFloat(row[Longitude], parseFloat),
            ToFloat(row[Name], parseFloat));
          stations := stations.Set(row[SynNr], info);
        }
        i := i + 1;
      }
      assert rows[..i] == rows;
      return Returns(stations);
    }

    /** `__aexit__`: the session is closed and dropped. */
    method Exit()
      modifies this
      ensures State() == old(State()).(session := false)
    {
      session := false;
    }
  }
}
