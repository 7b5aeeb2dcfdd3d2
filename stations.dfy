/** The station list: the rows of the station CSV that survive the filter
    against the observation data, the tolerant number parse applied to their
    fields, and the search for the station nearest to a coordinate. */
module Stations {
  import opened Python
  import opened Dicts

  /** A field after `to_float`: the number it parsed to, or the original text. */
  datatype Coord = Num(x: real) | Text(s: string)

  /** The tuple kept per station: (latitude, longitude, name), each field
      passed through `to_float`, the name included. */
  datatype StationInfo = StationInfo(lat: Coord, lon: Coord, name: Coord)

  const SynNr: string := "SYNNR"
  const Latitude: string := "BREITE DEZI"
  const Longitude: string := "LÄNGE DEZI"
  const Name: string := "NAME"

  // ---------------------------------------------------------------------
  // to_float

  /** `s.replace(",", ".")`: every comma becomes a dot, nothing else moves. */
  function DotDecimal(s: string): (r: string)
    ensures |r| == |s|
    ensures forall i :: 0 <= i < |s| ==> r[i] == (if s[i] == ',' then '.' else s[i])
    decreases |s|
  {
    if s == [] then []
    else DotDecimal(s[..|s| - 1]) + [if s[|s| - 1] == ',' then '.' else s[|s| - 1]]
  }

  /** `to_float(val)`; `parseFloat` is Python's `float()` on a string, None
      where it raises ValueError. */
  function ToFloat(val: string, parseFloat: string -> Option<real>): (c: Coord)
    ensures c.Text? <==> parseFloat(DotDecimal(val)).None?
    ensures c.Text? ==> c.s == val
    ensures c.Num? ==> c.x == parseFloat(DotDecimal(val)).value
  {
    match parseFloat(DotDecimal(val))
    case Some(x) => Num(x)
    case None => Text(val)
  }

  /** The text handed to `float()` never holds a comma, and a second
      replacement changes nothing. */
  lemma DotDecimalNormal(s: string)
    ensures forall i :: 0 <= i < |s| ==> DotDecimal(s)[i] != ','
    ensures DotDecimal(DotDecimal(s)) == DotDecimal(s)
  {
  }

  // ---------------------------------------------------------------------
  // The loop of _get_zamg_stations

  /** `row.get("SYNNR") in capital_stations` */
  predicate Kept(row: Row, ogd: set<Option<string>>)
    ensures SynNr in row ==> (Kept(row, ogd) <==> Some(row[SynNr]) in ogd)
    ensures SynNr !in row ==> (Kept(row, ogd) <==> None in ogd)
  {
    Get(row, SynNr) in ogd
  }

  /** The row has every column the loop indexes with `row[...]`. */
  predicate Complete(row: Row) {
    SynNr in row && Latitude in row && Longitude in row && Name in row
  }

  /** The tuple `to_float` builds from a row; it can serve closest_station
      exactly when float() accepts both coordinates. */
  function Entry(row: Row, parseFloat: string -> Option<real>): (info: StationInfo)
    requires Complete(row)
    ensures Numeric(info)
        <==> parseFloat(DotDecimal(row[Latitude])).Some? && parseFloat(DotDecimal(row[Longitude])).Some?
    ensures info.name.Text? ==> info.name.s == row[Name]
  {
    StationInfo(ToFloat(row[Latitude], parseFloat), ToFloat(row[Longitude], parseFloat), ToFloat(row[Name], parseFloat))
  }

  /** `stations` after the loop has run over `rows`, given the OGD station
      ids `ogd`: a kept row that lacks a column raises KeyError, which the
      method does not catch. */
  function StationTable(rows: seq<Row>, ogd: set<Option<string>>, parseFloat: string -> Option<real>): (r: Outcome<Dict<string, StationInfo>>)
    ensures r.Returns? ==> r.value.Valid()
    ensures !r.Returns? ==> r == Raises(KeyError)
    decreases |rows|
  {
    if rows == [] then Returns(Empty())
    else
      var row := rows[|rows| - 1];
      match StationTable(rows[..|rows| - 1], ogd, parseFloat)
      case Returns(t) =>
        if !Kept(row, ogd) then Returns(t)
        else if !Complete(row) then Raises(KeyError)
        else Returns(t.Set(row[SynNr], Entry(row, parseFloat)))
      case other => other
  }

  /** The station list fails exactly when some kept row lacks a column. */
  lemma {:induction false} StationTableFails(rows: seq<Row>, ogd: set<Option<string>>, parseFloat: string -> Option<real>)
    ensures StationTable(rows, ogd, parseFloat).Raises?
        <==> exists i :: 0 <= i < |rows| && Kept(rows[i], ogd) && !Complete(rows[i])
    decreases |rows|
  {
    if rows != [] {
      var front := rows[..|rows| - 1];
      StationTableFails(front, ogd, parseFloat);
      assert forall i :: 0 <= i < |front| ==> front[i] == rows[i];
    }
  }

  /** The list only grows at its end as the rows are read: the stations
      listed after a prefix of the rows keep their order and come first. So
      the stations are listed in the order of their first kept row, which is
      the order `min` breaks ties by. */
  lemma {:induction false} StationTableKeysGrow(rows: seq<Row>, ogd: set<Option<string>>, parseFloat: string -> Option<real>, n: int)
    requires 0 <= n <= |rows|
    requires StationTable(rows, ogd, parseFloat).Returns?
    ensures StationTable(rows[..n], ogd, parseFloat).Returns?
    ensures StationTable(rows[..n], ogd, parseFloat).value.keys <= StationTable(rows, ogd, parseFloat).value.keys
    decreases |rows|
  {
    if n < |rows| {
      var front := rows[..|rows| - 1];
      assert front[..n] == rows[..n];
      StationTableKeysGrow(front, ogd, parseFloat, n);
    } else {
      assert rows[..n] == rows;
    }
  }

  /** A station is listed exactly when some kept row names it. */
  lemma {:induction false} StationTableKeys(rows: seq<Row>, ogd: set<Option<string>>, parseFloat: string -> Option<real>, k: string)
    requires StationTable(rows, ogd, parseFloat).Returns?
    ensures k in StationTable(rows, ogd, parseFloat).value.items
        <==> exists i :: 0 <= i < |rows| && Get(rows[i], SynNr) == Some(k) && Some(k) in ogd
    decreases |rows|
  {
    if rows != [] {
      var front := rows[..|rows| - 1];
      StationTableKeys(front, ogd, parseFloat, k);
      assert forall i :: 0 <= i < |front| ==> front[i] == rows[i];
    }
  }

  /** The tuple listed for a station comes from the last kept row naming it. */
  lemma {:induction false} StationTableLastWins(rows: seq<Row>, ogd: set<Option<string>>, parseFloat: string -> Option<real>, i: int)
    requires StationTable(rows, ogd, parseFloat).Returns?
    requires 0 <= i < |rows| && Kept(rows[i], ogd) && Complete(rows[i])
    requires forall j :: i < j < |rows| ==> Get(rows[j], SynNr) != Get(rows[i], SynNr)
    ensures rows[i][SynNr] in StationTable(rows, ogd, parseFloat).value.items
    ensures StationTable(rows, ogd, parseFloat).value.items[rows[i][SynNr]] == Entry(rows[i], parseFloat)
    decreases |rows|
  {
    var front := rows[..|rows| - 1];
    if i < |rows| - 1 {
      StationTableLastWins(front, ogd, parseFloat, i);
    }
  }

  // ---------------------------------------------------------------------
  // closest_station

  /** Both coordinates parsed as numbers. */
  predicate Numeric(info: StationInfo) {
    info.lat.Num? && info.lon.Num?
  }

  ghost predicate AllNumeric(stations: Dict<string, StationInfo>) {
    forall k :: k in stations.items ==> Numeric(stations.items[k])
  }

  /** `comparable_dist`: squared distance in the (latitude, longitude) plane.
      It is never negative, and a station at the query point is at zero. */
  function SquaredDistance(lat: real, lon: real, info: StationInfo): (d: real)
    requires Numeric(info)
    ensures d >= 0.0
    ensures lat == info.lat.x && lon == info.lon.x ==> d == 0.0
  {
    (lat - info.lat.x) * (lat - info.lat.x) + (lon - info.lon.x) * (lon - info.lon.x)
  }

  /** The index `min` settles on: it keeps the first element and replaces it
      only by a strictly smaller one. */
  function FirstMinimum(ds: seq<real>): (j: nat)
    requires |ds| > 0
    ensures j < |ds|
    ensures forall i :: 0 <= i < |ds| ==> ds[j] <= ds[i]
    ensures forall i :: 0 <= i < j ==> ds[j] < ds[i]
    decreases |ds|
  {
    if |ds| == 1 then 0
    else
      var j := FirstMinimum(ds[..|ds| - 1]);
      if ds[|ds| - 1] < ds[j] then |ds| - 1 else j
  }

  /** `closest_station(lat, lon, cache_dir)` once the station list is at
      hand; `cacheDirIsDir` is `os.path.isdir(cache_dir)`. Python's `min`
      raises ValueError on an empty list and the subtraction raises TypeError
      on a coordinate `to_float` left as text. */
  function ClosestStation(lat: Option<real>, lon: Option<real>, cacheDirIsDir: bool, stations: Dict<string, StationInfo>): (r: Outcome<string>)
    requires stations.Valid()
    ensures r.ReturnsNone? <==> lat.None? || lon.None? || !cacheDirIsDir
    ensures r == Raises(ValueError) <==> lat.Some? && lon.Some? && cacheDirIsDir && stations.keys == []
    ensures r == Raises(TypeError)
        <==> lat.Some? && lon.Some? && cacheDirIsDir && stations.keys != [] && !AllNumeric(stations)
    ensures r.Raises? ==> r.error == ValueError || r.error == TypeError
    ensures r.Returns? ==> r.value in stations.items && AllNumeric(stations)
    ensures r.Returns? ==> forall k :: k in stations.items ==>
              SquaredDistance(lat.value, lon.value, stations.items[r.value])
              <= SquaredDistance(lat.value, lon.value, stations.items[k])
    ensures r.Returns? ==> forall i, j :: 0 <= i < j < |stations.keys| && stations.keys[j] == r.value ==>
              SquaredDistance(lat.value, lon.value, stations.items[stations.keys[i]])
              > SquaredDistance(lat.value, lon.value, stations.items[r.value])
  {
    if lat.None? || lon.None? || !cacheDirIsDir then ReturnsNone
    else if stations.keys == [] then Raises(ValueError)
    else if exists k :: k in stations.items && !Numeric(stations.items[k]) then Raises(TypeError)
    else
      var keys := stations.keys;
      var ds := seq(|keys|, i requires 0 <= i < |keys| => SquaredDistance(lat.value, lon.value, stations.items[keys[i]]));
      var j := FirstMinimum(ds);
      assert forall k :: k in stations.items ==> exists i :: 0 <= i < |keys| && keys[i] == k && ds[i] == SquaredDistance(lat.value, lon.value, stations.items[k]);
      Returns(keys[j])
  }

  // ---------------------------------------------------------------------
  // The check zamg_stations applies to its disk cache

  /** What `json.dump(stations)` writes and `{k: tuple(v) ...}` reads back. */
  function CacheOf(stations: Dict<string, StationInfo>): map<string, seq<Coord>> {
    map k | k in stations.items :: [stations.items[k].lat, stations.items[k].lon, stations.items[k].name]
  }

  /** The check as written: `for station in station_list` walks the keys, so
      it measures the length of each station id. */
  predicate PassesCacheCheckAsWritten(cache: map<string, seq<Coord>>) {
    forall k :: k in cache ==> |k| == 3
  }

  /** The check as evidently intended: every cached tuple has three fields. */
  predicate PassesCacheCheck(cache: map<string, seq<Coord>>) {
    forall k :: k in cache ==> |cache[k]| == 3
  }

  /** As written, a cache the client wrote itself is thrown away as soon as
      one station id is not three characters long; SYNNR ids have five. */
  lemma CacheCheckAsWrittenRejectsOwnCache(stations: Dict<string, StationInfo>, id: string)
    requires id in stations.items && |id| != 3
    ensures !PassesCacheCheckAsWritten(CacheOf(stations))
  {
    assert id in CacheOf(stations);
  }

  /** The smallest instance: the cache for Graz alone is rejected. */
  lemma CacheCheckAsWrittenRejectsGraz()
    ensures var t := Empty<string, StationInfo>().Set("11240", StationInfo(Num(46.99), Num(15.44), Text("GRAZ")));
      !PassesCacheCheckAsWritten(CacheOf(t))
  {
    var t := Empty<string, StationInfo>().Set("11240", StationInfo(Num(46.99), Num(15.44), Text("GRAZ")));
    CacheCheckAsWrittenRejectsOwnCache(t, "11240");
  }

  /** Corrected, every cache the client writes passes the check it reads with. */
  lemma CacheCheckAcceptsOwnCache(stations: Dict<string, StationInfo>)
    ensures PassesCacheCheck(CacheOf(stations))
  {
  }
}
