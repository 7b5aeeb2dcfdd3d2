# ZamgData, modelled in Dafny

`ZamgData` (src/zamg/zamg.py) is an asynchronous client for the hourly
observation data (OGD) of the Austrian weather service. It does four things:

- It keeps, in `data`, the last row read that names each station, across fetches.
- It fetches new rows when it has no stamp yet (a new client always fetches), or when the stamp (`Datum`, `Zeit`) of the last row it read, plus one hour, is not later than now. A stamp strptime rejects makes every later update raise ValueError, so that client never fetches again. The gate looks at the data's own stamp, not at the time of the last fetch, so once the newest stamp the service returns lags an hour behind now, every call fetches again.
- It builds a station list (latitude, longitude, name) restricted to the stations the observation data has.
- It finds the station nearest to a coordinate.

The model has five modules:

- `Python` (python.dfy): `Option`, the exceptions that can leave a method, and `Outcome`. An outcome returns a value, returns `None`, or raises.
- `Dicts` (dicts.dfy): an insertion-ordered `dict`. The order matters because `min` breaks ties by it.
- `Stamps` (stamps.dfy): the strptime layout `%d-%m-%Y%H:%M` as `Parse`, with its inverse `Format`. It also has the minute count used by the one-hour gate, proved to order datetimes as Python compares them.
- `Stations` (stations.dfy): `to_float`, the filtering loop of `_get_zamg_stations` as a specification function, and `closest_station` as a first-minimum search.
- `Zamg` (zamg.dfy): the client. `ClientState` holds the instance's fields. `UpdateSpec`, `OgdStationsSpec` and `ZamgStationsSpec` say what each call does to them. The class `ZamgData` has the same fields. Its methods `Update` and `GetZamgStations` loop over the rows as the source does, and each is proved to leave exactly the state and result its specification function gives.

The network and the clock are inputs, so the model needs neither a network nor a clock:

- A request ends either in `Failed` (an exception from aiohttp or async_timeout, which the client does not catch) or in a status and a body already split into CSV rows.
- `now` is a count of minutes on the same scale as the parsed stamp.
- Python's `float()` is a parameter `parseFloat` that maps a string to a real, or to None where `float()` raises ValueError.
- `os.path.isdir(cache_dir)` is a boolean parameter.

The source returns `None` on a non-200 answer or a decoding error. Other exceptions propagate. The model follows that behaviour. It does not follow the later revision of the client, which raises typed errors and reads a JSON API.

## Model

| member | source | states |
|---|---|---|
| `Zamg.ZamgData.constructor` | src/zamg/zamg.py:33-41 | a new client has empty data, the given default station, the given session and no stamps, so `last_update` is None |
| `Zamg.ZamgData.SetDefaultStation` | src/zamg/zamg.py:91-93 | only the default station changes |
| `Zamg.GetData` | src/zamg/zamg.py:83-89 | looks up the given station, or the default one when the id is None or empty; the result is Some exactly when both the station and the column exist, and it is then that cell |
| `Zamg.LastUpdate` | src/zamg/zamg.py:95-102 | None exactly when a stamp field is unset; otherwise the datetime whose `%d-%m-%Y%H:%M` text is date + time; ValueError exactly when no valid datetime has that text |
| `Zamg.UpdateSpec` | src/zamg/zamg.py:104-136 | update never changes the default station and never drops a station; a returned map is the stored data; a call that does not return data leaves data and stamps unchanged; a call that does not pass the gate changes nothing; a malformed stamp raises ValueError and a stamp in the last hour of year 9999 raises OverflowError, both with the state untouched; past the gate, a failed request raises ClientError with a session held, a non-200 answer returns None with a session held, an undecodable body returns None and drops the session; data is returned exactly when the gate holds or a 200 answer decodes |
| `Zamg.ZamgData.Update` | src/zamg/zamg.py:104-136 | the loop over the rows leaves exactly the fields and result `UpdateSpec` gives |
| `Zamg.StampOverflows` | src/zamg/zamg.py:106-107 | adding the hour overflows exactly when the stamp parses and is later than 31-12-9999 22:59 |
| `Zamg.IsCurrent` | src/zamg/zamg.py:106-110 | the gate holds only when a stamp is set and now is less than an hour after it; without a stamp it never holds |
| `Zamg.Fetches` | src/zamg/zamg.py:106-110 | update makes a request only when no stamp is set or the stamp is at least an hour before now; without a stamp it always does |
| `Zamg.UpdateStamps` | src/zamg/zamg.py:121-131 | after a 200 answer the stamps are the last row's `Datum` and `Zeit` (None where that row lacks them), or the old ones when there are no rows, and a session is held |
| `Zamg.UpdateOverflowsAtYear9999` | src/zamg/zamg.py:106-108 | with the stamp 31-12-9999 23:30, update raises OverflowError whatever the clock and the answer, and changes nothing |
| `Zamg.UpdateWithinHourIsCached` | src/zamg/zamg.py:106-110 | when the last stamp plus one hour is later than now, update returns the held data and touches neither data, stamps nor session |
| `Zamg.UpdateStoresLastRow` | src/zamg/zamg.py:121-131 | after a 200 answer each station holds the last row that names it, whole |
| `Zamg.UpdateKeepsOtherStations` | src/zamg/zamg.py:121-131 | whatever the answer, a station no fetched row names keeps its entry or its absence |
| `Zamg.GetDataAfterUpdate` | src/zamg/zamg.py:83-89 | after a 200 answer, `get_data` for a station reads the last fetched row naming it |
| `Zamg.SecondUpdateWithinHourIsCached` | src/zamg/zamg.py:96-131 | after a fetch whose last row has a valid stamp, an update less than an hour after that stamp returns the cached data without a request, or raises OverflowError when the stamp is in the last hour of year 9999 |
| `Zamg.MergeRows` | src/zamg/zamg.py:127-128 | (specification of the loop's data) every old station stays and every row's `Station` value becomes a key; the three lemmas below give the entries |
| `Zamg.LastField` | src/zamg/zamg.py:129-130 | (specification of the loop's stamps) without rows the old value stays; otherwise it is set exactly when the last row has the column |
| `Zamg.MergeRowsKeys` | src/zamg/zamg.py:127-128 | the merged stations are the old ones plus the stations the rows name |
| `Zamg.MergeRowsUntouched` | src/zamg/zamg.py:127-128 | a station no row names keeps its entry |
| `Zamg.MergeRowsLastWins` | src/zamg/zamg.py:127-128 | a later row of the same station overwrites an earlier one |
| `Zamg.OgdStationsSpec` | src/zamg/zamg.py:138-140 | the OGD ids are the station keys of data after the update; an update returning None makes `set(None)` raise TypeError; an exception of update passes through with the same error |
| `Zamg.ZamgData.GetOgdStations` | src/zamg/zamg.py:138-140 | leaves exactly the fields and result `OgdStationsSpec` gives |
| `Zamg.ZamgStationsSpec` | src/zamg/zamg.py:142-184 | the station list call changes data only through its update; an error of `_get_ogd_stations` propagates with its state; past it, a failed request raises ClientError and a non-200 answer returns None, both with a session held; a 200 answer gives exactly `StationTable` of its rows over the OGD ids (the list or KeyError), with a session held; a returned list always comes from such an answer |
| `Zamg.ZamgData.GetZamgStations` | src/zamg/zamg.py:142-184 | the loop over the station rows leaves exactly the fields and result `ZamgStationsSpec` gives |
| `Zamg.ZamgStationsAreOgdStations` | src/zamg/zamg.py:171-179 | a returned list holds exactly the SYNNR ids that some station row names and that data holds after the update |
| `Zamg.ZamgData.Exit` | src/zamg/zamg.py:194-202 | `__aexit__` leaves no session and changes nothing else |
| `Python.Get` | src/zamg/zamg.py:128 | `row.get(column)` is Some exactly when the column exists, holding its cell |
| `Stations.Kept` | src/zamg/zamg.py:174 | a row with a SYNNR cell is kept exactly when that id is an OGD key; a row without one exactly when None is an OGD key (observation rows without `Station`) |
| `Stations.Entry` | src/zamg/zamg.py:175-178 | the tuple is usable by `closest_station` exactly when `float()` accepts both comma-replaced coordinates; a name `float()` rejects stays as its text |
| `Stations.StationTable` | src/zamg/zamg.py:171-179 | the loop yields a well-formed dict, or KeyError, the only exception it can raise |
| `Stations.StationTableKeysGrow` | src/zamg/zamg.py:171-179 | the list only grows at its end as rows are read, so stations are listed in the order of their first kept row, the order `min` breaks ties by |
| `Stations.StationTableFails` | src/zamg/zamg.py:174-178 | the loop raises exactly when a kept row lacks one of the SYNNR, BREITE DEZI, LÄNGE DEZI and NAME columns |
| `Stations.StationTableKeys` | src/zamg/zamg.py:174-175 | a station is listed exactly when some row's SYNNR names it and is among the OGD ids |
| `Stations.StationTableLastWins` | src/zamg/zamg.py:175-178 | a listed station's tuple is `to_float` of the fields of the last kept row naming it |
| `Stations.DotDecimal` | src/zamg/zamg.py:148 | every comma becomes a dot and no other character changes |
| `Stations.DotDecimalNormal` | src/zamg/zamg.py:148 | no comma reaches `float()`, and replacing again changes nothing |
| `Stations.ToFloat` | src/zamg/zamg.py:146-150 | text that `float()` rejects after the replacement comes back as the original text; otherwise as the parsed number |
| `Stations.SquaredDistance` | src/zamg/zamg.py:76-79 | `comparable_dist` is never negative and is zero for a station at the query point |
| `Stations.FirstMinimum` | src/zamg/zamg.py:81 | `min`'s index: no distance is smaller, and every earlier one is strictly larger |
| `Stations.ClosestStation` | src/zamg/zamg.py:70-81 | None exactly when lat or lon is None or cache_dir is not a directory; ValueError exactly for an empty list; TypeError exactly when a coordinate stayed text; no other exception for coordinates within float range; otherwise a listed station with no smaller squared distance, and every station listed before it strictly farther |
| `Dicts.Dict.Set` | src/zamg/zamg.py:175 | assigning keeps the dict well formed; a present key keeps its place and a new key goes last |
| `Stamps.Parse` | src/zamg/zamg.py:99-101 | whatever strptime accepts is a valid datetime |
| `Stamps.ParseFormat` | src/zamg/zamg.py:99-101 | reading a written stamp gives back its datetime |
| `Stamps.FormatParse` | src/zamg/zamg.py:99-101 | any text the parse accepts is exactly the stamp written for its datetime |
| `Stamps.ParseIffFormat` | src/zamg/zamg.py:99-101 | parse and format are inverse on valid datetimes, in both directions |
| `Stamps.MinutesOrder` | src/zamg/zamg.py:106-108 | one datetime is earlier than another exactly when its minute count is smaller, so the gate can be decided on minutes |
| `Stamps.MinutesInjective` | src/zamg/zamg.py:106-108 | distinct valid datetimes have distinct minute counts |
| `Stations.CacheCheckAsWrittenRejectsOwnCache` | src/zamg/zamg.py:54-58 | as written, the cache check rejects every cache the client wrote that holds a station id not three characters long, so every cache of five-digit SYNNR ids |
| `Stations.CacheCheckAsWrittenRejectsGraz` | src/zamg/zamg.py:54-58 | the smallest instance: the cache for station 11240 alone is rejected |
| `Stations.CacheCheckAcceptsOwnCache` | src/zamg/zamg.py:54-58 | the corrected check accepts every cache the client writes |

## Left out

- Network I/O: the aiohttp session object, `session.get`, `response.read`/`close`, the 8-second `async_timeout`, the URLs and the headers. A request's result is an input, and the session is a present/absent flag. Closing a session is only its removal. A session handed to the constructor is not tracked as an object the caller still holds.
- CSV decoding: `csv.DictReader` with UTF-8 or ISO-8859-1. Rows arrive already split. A short row, whose missing cells DictReader fills with None, is modelled as a row without those columns. For a kept station row that makes `to_float(None)` raise AttributeError, which the model reports as KeyError; neither is caught. A `csv.Error` raised part-way through the rows is not modelled. ISO-8859-1 decoding cannot fail, and `to_float` catches its own ValueError. So the ValueError handler of `_get_zamg_stations` (src/zamg/zamg.py:180-184) is never reached in the model.
- `zamg_stations` (src/zamg/zamg.py:43-68): the gzip/JSON disk cache is file I/O. `ClosestStation` takes the station list as an input in place of that call, in the order it arrives. A list re-read from the cache comes back sorted by id. When `_get_zamg_stations` returns None, `zamg_stations` passes the None on and `min(None)` raises TypeError; this path is not modelled. Only the cache's validity check is modelled, under Findings.
- Float arithmetic: coordinates are reals, so the search for the nearest station is exact. `float()` is the parameter `parseFloat`. The infinities and NaN it can return are not modelled.
- `Stations.ClosestStation`: the OverflowError that Python's float `**` raises in `comparable_dist` when a coordinate difference is beyond float range (above about 1.34e154) is not modelled; on reals the squares are exact, so the model returns a station there.
- `Zamg.UpdateSpec`: the model returns a snapshot of `data`, where the source hands out the client's live dict. A caller holding that dict sees later fetches merge into it, and its own changes are read by `get_data` and by the next `_get_ogd_stations`; this aliasing is not modelled.
- `Stamps.Parse`: only the zero-padded layout the service writes is accepted. strptime also accepts single-digit fields, a space-padded day and non-ASCII digits. The model treats those stamps as malformed.
- Time zones: the stamp is Vienna wall-clock time and `now` is UTC. The model compares both on one minute scale, which leaves out the Vienna offset and its daylight-saving changes. The OverflowError of the gate is decided on the stamp's wall-clock value, as Python adds the hour before it converts anything.
- `Stations.SquaredDistance`: only that it is never negative and zero at the query point is stated; that it is zero only there is not, because the solver does not settle that step on reals.
- `__aenter__` only returns the object. `__init__.py` only re-exports names. `exceptions.py` only declares classes this file never raises. `control.py` and `src/zamg/examples/control.py` are example scripts, and tests/test_zamg.py exercises a later API. None of these are modelled.
- async: each `await` is modelled as a step of one sequential run, as the client assumes (no concurrent calls on one instance).

## Findings

| source | as written | input that shows it | evidently intended | confidence | as-written member | corrected member |
|---|---|---|---|---|---|---|
| src/zamg/zamg.py:54-58 | `for station in station_list: if len(station) != 3` walks the dict's keys, so it checks the length of each station id | a cache the client wrote itself, `{"11240": [46.99, 15.44, "GRAZ"]}`: the id has five characters, so the cache is deleted and fetched again on every call; the same holds for any cache with an id that is not three characters long | check that every cached tuple has three fields (lat, lon, name) | high; not executed | `Stations.PassesCacheCheckAsWritten`, shown by `Stations.CacheCheckAsWrittenRejectsOwnCache` and `Stations.CacheCheckAsWrittenRejectsGraz` | `Stations.PassesCacheCheck`, proved by `Stations.CacheCheckAcceptsOwnCache` |

The disk cache is not part of the model (see Left out), so no other member uses the corrected check.
