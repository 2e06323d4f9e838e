# Weather collection pipeline, modelled in Dafny

This project models the sequential core of a small weather-collection
pipeline. Its parts:

- **Configuration.** Environment-derived settings: the comma-separated city
  list, the integer settings with their defaults, and the start-up check
  for the API key.
- **Collector.** `WeatherDataCollector` resolves a city to coordinates
  through a `city_coordinates` cache. It fetches the current weather and
  appends one `current_weather` row. It derives synthetic
  `historical_weather` rows from one current reading per day offset. It
  summarises the store and selects which tables are exported to CSV.
- **Scheduler.** `WeatherScheduler` validates before it builds the
  collector. It runs one collection cycle over the configured cities and
  exports only when a city succeeded. `run_once` runs one cycle and then
  reads the summary.

The model is built like this:

- The SQLite file is a `Database` object. Its two append-only tables are
  `seq` fields and the coordinate cache is a `map` keyed by city name.
- Network replies are abstract values. `GeoReply` is an error or the
  decoded list of hits. `WeatherReply` is an error or a decoded body in
  which every field is optional.
- When a method needs one reply per day or per city, it takes a total
  function from the index to the reply. The clock read at each historical
  offset is given the same way.
- An exception that can escape `collect_current_weather` is the
  `lookupFault` input. Such an exception comes from opening the database
  or from the cache SELECT (src/data_collection/weather_collector.py:108-113),
  which run outside the `try` block.

The pure logic is in modules `Config`, `Records` and `Pipeline`. The
classes in `Collector` and `Scheduler` are the imperative code. The
collection, summary, export and cycle methods are proved against a
`Pipeline` or `Scheduler` function, and the source's promises are proved
as lemmas about those functions. `InitDatabase`, `StoreCurrentWeather`,
`StoreHistoricalWeather` and the constructors state the new snapshot
directly.

Behaviour the proofs make explicit, where the code differs from what a
reader might expect (the model follows the code):

- `ResolveAliasFailsAgain`: the geocoder may answer a query under another
  name ("NYC" answered as "New York"). The cache then stores the answer
  under the returned name. Resolving "NYC" again misses the cache and asks
  the geocoder again. With the same answer, the insert hits the PRIMARY
  KEY and returns None, so such a city fails on every later lookup.
  Resolving twice returns the same cached coordinates only when the
  returned name equals the query (`ResolveTwice`). The code never re-reads after a failed insert: a
  duplicate key ends in None.
- `CollectCurrent`: a cache entry added on a miss stays even when the
  weather fetch that follows fails.
- `CycleExportDir`: the cycle calls `export_to_csv()` with its defaults
  (`'both'`, directory `data`). It does not use the configured
  `EXPORT_DIR`.
- `NewWeatherConfig`: the dataclass default city list has four cities.
  The configuration default has five, including Paris.
- `CollectAllCurrent`: the source runs the delay between cities only for a
  city whose call did not raise. The delay is not modelled (see Left out).
- `CollectAllCurrent` returns the success count, which the source only
  logs.

## Model

| member | source | states |
|---|---|---|
| Config.GetEnv | config/config.py:11 | `os.getenv(name)` is present iff the variable is set, and then it is the variable's value |
| Config.GetEnvOr | config/config.py:14-25 | `os.getenv(name, default)` is the variable's value when set and the default otherwise |
| Config.Split | config/config.py:17 | `str.split(',')` always yields at least one piece |
| Config.SplitPiecesCommaFree | config/config.py:17 | no city piece contains a comma |
| Config.SplitCount | config/config.py:17 | the number of pieces is the number of commas plus one |
| Config.JoinSplit | config/config.py:17 | joining the pieces with `','` gives the configured string back |
| Config.SplitJoin | config/config.py:17 | splitting the join of comma-free pieces gives the pieces back (the converse round trip) |
| Config.DefaultCitiesSplit | config/config.py:17 | the default string yields exactly New York, London, Tokyo, Paris, Sydney, in that order |
| Config.SplitKeepsBlanks | config/config.py:17 | pieces are not trimmed: `"A, B"` yields `"A"` and `" B"` |
| Config.ParseInt | config/config.py:18-19 | `int()` accepts exactly an optional sign followed by one or more digits |
| Config.ParseIntToString | config/config.py:18-19 | `int(str(n)) == n` for every integer n |
| Config.Load | config/config.py:11-25 | loading succeeds iff both integer variables parse; the interval and the historical days are the parsed values of their variables or defaults; the cities are the split of `CITIES` or of its default; the database path and export directory are their variables or defaults; the key is `getenv` of the key variable |
| Config.LoadDefaults | config/config.py:17-19 | with the variables absent: interval 1, historical days 30, the five default cities |
| Config.LoadInterval | config/config.py:18 | whenever the historical-days value parses, an interval written as an integer is read back unchanged |
| Config.Validate | config/config.py:27-31 | validation passes iff the API key is present and non-empty; otherwise it fails with the missing-key error |
| Records.First | src/data_collection/weather_collector.py:138 | `data[0]` succeeds iff the list is non-empty, and then yields its first element |
| Records.HitCoord | src/data_collection/weather_collector.py:138-144 | coordinates are built iff the hit has name, country, lat and lon; the city is the returned name; country, lat and lon are copied from the hit |
| Records.CurrentRowOf | src/data_collection/weather_collector.py:176-200 | a row exists iff the fetch succeeded and every required field is present; place fields come from the coordinates; missing wind speed, wind direction and visibility become 0; the other fields are copied |
| Records.Clamp | src/data_collection/weather_collector.py:248 | `max(lo, min(hi, x))` lies in [lo, hi] and is x when x is already in range |
| Records.HistoricalStamp | src/data_collection/weather_collector.py:221 | `now - timedelta(days=i+1)` lies exactly `i+1` days before `now`, so at least one day before it |
| Records.DeriveHistorical | src/data_collection/weather_collector.py:241-255 | for any reading: a row exists iff the fields it indexes are present; humidity and cloud cover are in [0,100]; wind direction is in [0,360); wind speed is at least 0; pressure minus the input pressure is in [0,4]; weather main and description pass through; the timestamp is `now` minus `(i+1)` days |
| Records.CurrentFieldsSuffice | src/data_collection/weather_collector.py:182-200 | a reply complete enough for a current row is complete enough for every historical offset |
| Pipeline.Resolve | src/data_collection/weather_collector.py:106-159 | a hit returns the cached entry and leaves the cache as it is; a failed lookup leaves the cache unchanged; a successful miss adds exactly one entry, keyed by the returned name, which is returned; the name-keyed invariant is preserved |
| Pipeline.ResolveHitIgnoresGeocoder | src/data_collection/weather_collector.py:111-122 | on a cache hit the result does not depend on the geocoder's reply |
| Pipeline.ResolveMiss | src/data_collection/weather_collector.py:132-159 | on a miss, success iff the first hit is complete and its name is not cached yet; the cache then grows by exactly one; otherwise None with the cache unchanged (duplicate key included) |
| Pipeline.ResolveTwice | src/data_collection/weather_collector.py:111-154 | when the returned name equals the query, a second lookup is a hit yielding the same coordinates |
| Pipeline.ResolveAliasFailsAgain | src/data_collection/weather_collector.py:137-159 | when the returned name differs from the query, a second lookup queries again and, on the same answer, fails on the duplicate key |
| Pipeline.CollectCurrent | src/data_collection/weather_collector.py:161-209 | True iff coordinates were found and the reply has every required field; then exactly that one row is appended; otherwise the current table is unchanged; the historical table is never touched; the call raises only if opening the database or the cache read raises |
| Pipeline.HistoricalDay | src/data_collection/weather_collector.py:235-264 | one offset stores a row iff the fetch succeeded and the reading has every field the derivation indexes; that row lies within the derivation bounds, is tagged with the resolved city and is stamped `i+1` days before the clock read |
| Pipeline.Days | src/data_collection/weather_collector.py:220 | `range(days_back)` runs `days_back` offsets, and none for a negative `days_back` |
| Pipeline.HistoricalRun | src/data_collection/weather_collector.py:218-264 | at most one row per offset, every row within the derivation bounds and tagged with the resolved city |
| Pipeline.CollectHistorical | src/data_collection/weather_collector.py:211-267 | when coordinates are found, the appended rows are exactly those of `HistoricalRun` over `days_back` offsets, so each lies within the derivation bounds; rows are only appended, at most `days_back` of them; True iff at least one row was appended; no coordinates means no rows; the current table is untouched |
| Pipeline.HistoricalRunPrefix | src/data_collection/weather_collector.py:220-264 | the rows of the first m offsets are a prefix of those of the first n |
| Pipeline.HistoricalRunKeepsDay | src/data_collection/weather_collector.py:235-264 | every offset that succeeds has its row in the run, right after the rows of earlier offsets; a failed offset does not stop later ones |
| Pipeline.HistoricalRunCount | src/data_collection/weather_collector.py:218-264 | stored rows plus failed offsets equal the number of offsets |
| Pipeline.OneFailedDay | src/data_collection/weather_collector.py:218-264 | five offsets with only offset 3 failing store four rows |
| Pipeline.StampDecreasing | src/data_collection/weather_collector.py:220-221 | when consecutive clock reads are less than a day apart, a later offset gets a strictly earlier timestamp |
| Pipeline.HistoricalRunAbove | src/data_collection/weather_collector.py:220-245 | when consecutive clock reads are less than a day apart, the rows of offsets below n are all later than the timestamp of any offset m ≥ n |
| Pipeline.HistoricalStampsDecrease | src/data_collection/weather_collector.py:220-245 | stored timestamps strictly decrease along the run and all lie before the first clock read |
| Pipeline.Distinct | src/data_collection/weather_collector.py:326-328 | `SELECT DISTINCT` yields each city of the column exactly once, and no other value |
| Pipeline.DataSummary | src/data_collection/weather_collector.py:314-337 | the counts are the table lengths; total equals current plus historical; the cities are the distinct cities of the current table |
| Pipeline.JoinPath | src/data_collection/weather_collector.py:347 | the joined path starts with the directory and ends with the file name |
| Pipeline.ExportContents | src/data_collection/weather_collector.py:345-355 | one file per selected table: the current file iff the table is `'current'` or `'both'`, and it comes first; the historical file iff the table is `'historical'` or `'both'`, and it comes last; each file holds its whole table at the joined path |
| Pipeline.ExportSelection | src/data_collection/weather_collector.py:339-359 | `'current'` gives the current file; `'historical'` the historical file; `'both'` both, in that order; anything else none; each file holds its whole table |
| Collector.NewWeatherConfig | src/data_collection/weather_collector.py:19-29 | an absent city list becomes the four defaults; a given list, even an empty one, is kept |
| Collector.Database.constructor | src/data_collection/weather_collector.py:42 | a database file holding the given tables, not yet initialised |
| Collector.WeatherDataCollector.constructor | src/data_collection/weather_collector.py:34-38 | the collector keeps its configuration, starts with no exports and initialises the database without losing rows |
| Collector.WeatherDataCollector.InitDatabase | src/data_collection/weather_collector.py:40-104 | the schema exists afterwards; existing rows are kept (create if absent) |
| Collector.WeatherDataCollector.GetCityCoordinates | src/data_collection/weather_collector.py:106-159 | the cache and result are those of `Resolve`; the geocoding request is sent iff the cache read worked and missed; the tables are unchanged |
| Collector.WeatherDataCollector.StoreCurrentWeather | src/data_collection/weather_collector.py:269-290 | exactly one current row is appended; nothing else changes |
| Collector.WeatherDataCollector.StoreHistoricalWeather | src/data_collection/weather_collector.py:292-312 | exactly one historical row is appended; nothing else changes |
| Collector.WeatherDataCollector.CollectCurrentWeather | src/data_collection/weather_collector.py:161-209 | the new store and the result are those of `CollectCurrent` |
| Collector.WeatherDataCollector.CollectHistoricalWeather | src/data_collection/weather_collector.py:211-267 | the loop over offsets leaves the store and result of `CollectHistorical` |
| Collector.WeatherDataCollector.GetDataSummary | src/data_collection/weather_collector.py:314-337 | the summary of the current store, total equal to the two table lengths, nothing modified |
| Collector.WeatherDataCollector.ExportToCsv | src/data_collection/weather_collector.py:339-359 | records the selected files with their full tables and returns their paths; the store is not modified |
| Scheduler.RunCycle | src/data_collection/scheduler.py:26-34 | one visit per configured city, in order; a visit raises iff that city's cache read raised, and the cycle goes on |
| Scheduler.SuccessCount | src/data_collection/scheduler.py:26-31 | there are never more successes than cities visited |
| Scheduler.CycleRows | src/data_collection/scheduler.py:28-34 | a cycle appends exactly one current row per success and keeps existing rows; the historical table is unchanged; the cache stays keyed by name |
| Scheduler.CycleStep | src/data_collection/scheduler.py:28-31 | each city runs on the store the earlier cities left; the count grows by one iff that city returned True |
| Scheduler.CycleWithoutSuccess | src/data_collection/scheduler.py:28-40 | a cycle with no success leaves both tables as they were |
| Scheduler.UnknownCityCycle | src/data_collection/scheduler.py:26-36 | one uncached city that the geocoder does not know gives no success and an unchanged store |
| Scheduler.SchedulerConfig | src/data_collection/scheduler.py:15-20 | the collector's configuration keeps the configured cities and the validated key |
| Scheduler.WeatherScheduler.Build | src/data_collection/scheduler.py:15-21 | after validation, builds a fresh collector on the database without losing rows |
| Scheduler.WeatherScheduler.Create | src/data_collection/scheduler.py:13-21 | fails iff validation fails, then with the missing-key error, no collector and the database untouched; otherwise a scheduler over an initialised database |
| Scheduler.WeatherScheduler.CollectAllCurrent | src/data_collection/scheduler.py:23-40 | the store after the loop is that of `RunCycle`; the returned count equals the number of cities that returned True; exactly one export of both tables to `data` iff the count is positive, else none |
| Scheduler.WeatherScheduler.RunOnce | src/data_collection/scheduler.py:58-62 | exactly one cycle: the store is that of `RunCycle`, one export of both tables to `data` is recorded iff a city succeeded, and the summary is that of the store the cycle left |

## Left out

- HTTP calls and JSON decoding: replaced by the abstract replies `GeoReply` and `WeatherReply`. A JSON value of the wrong type (for example a `null` `wind` object) is not modelled; such a value would raise in the source.
- SQLite: the tables live in memory. `store_*`, `init_database`, `get_data_summary` and `export_to_csv` never fail; their connection errors are not modelled. The only modelled SQL failures are the PRIMARY KEY violation and, in `get_city_coordinates`, opening the database or the cache SELECT raising (`lookupFault`, src/data_collection/weather_collector.py:108-113). The `created_at` default timestamp is not stored. The auto-increment `id` is implicit: since rows are never deleted, it is the row's position plus one.
- The mapping from `database_path` to a file: one `Database` object stands for the file the configuration names.
- CSV contents, `os.makedirs` and the `makedirs` side effect of `Config.validate`: the file system is out of scope. Only the selected tables, their rows and the file paths are modelled.
- `time.sleep` rate limiting in the cycle and in the historical loop: it is timing only.
- `datetime.now` and `fromtimestamp`: the clock is an input in integer seconds. Local-time conversion and microseconds are not modelled, and neither are overflow errors of `fromtimestamp`.
- Pipeline.CollectHistorical: never raises once coordinates are found. At src/data_collection/weather_collector.py:221-222, outside the `try`, the source computes `datetime.now() - timedelta(days=i+1)` and its `timestamp()`. These raise `OverflowError` once the date would fall before year 1, about 739,000 offsets back from today. The source then raises after storing the rows of the earlier offsets. The clock is an unbounded integer here, so that raise is not modelled.
- The keyword defaults `database_path='weather_data.db'` and `collection_interval_hours=1` of `WeatherConfig`, and `days_back=30` of `collect_historical_weather`, are not modelled. The model's callers always pass these values explicitly. Only the defaulting of `cities` in `__post_init__` is modelled.
- Records.DeriveHistorical: the `i*0.1` and `i*0.05` perturbations of temperature, feels-like and wind speed are exact reals. Float rounding is not modelled.
- Records.CurrentRowOf: coordinates, temperatures and wind speeds are exact reals rather than floats.
- Config.ParseInt: accepts only an optional sign and ASCII digits. Python's `int()` also strips surrounding whitespace and accepts underscores between digits and non-ASCII digits.
- `API_DELAY_SECONDS` (a float, used only for the delay) is not modelled. So the failure of its `float()` parse at import time is not modelled either.
- Pipeline.HistoricalStampsDecrease: holds only when consecutive clock reads are less than a day apart. The source reads the clock afresh at every offset, so a clock jump of a day or more between offsets would break the ordering.
- Pipeline.DataSummary: SQL leaves the order of `SELECT DISTINCT` open. The model lists cities in order of first occurrence and proves only the set and the absence of duplicates.
- `run_continuous`: an unbounded loop over the `schedule` library.
- `main()`, logging, `Config.display`, the print in `run_once`, `.env` loading, and the unused `historical_url`.
