/**
  `WeatherConfig` and `WeatherDataCollector` of
  src/data_collection/weather_collector.py over an in-memory database. Each
  method is proved against the function of module Pipeline that describes it.
 */
module Collector {
  import opened Wrappers
  import opened Records
  import opened Pipeline

  const DefaultCollectorCities: seq<string> := ["New York", "London", "Tokyo", "Sydney"]

  /** The `WeatherConfig` dataclass once `__post_init__` has run. */
  datatype WeatherConfig = WeatherConfig(
    apiKey: string,
    databasePath: string,
    cities: seq<string>,
    collectionIntervalHours: int)

  /**
    `WeatherConfig(...)`: `__post_init__` replaces an absent city list (None)
    by the four defaults; any given list is kept, an empty one included.
   */
  function NewWeatherConfig(apiKey: string, databasePath: string, cities: Option<seq<string>>,
                            collectionIntervalHours: int): (c: WeatherConfig)
    ensures cities.Some? ==> c.cities == cities.value
    ensures cities.None? ==> c.cities == DefaultCollectorCities
    ensures c.apiKey == apiKey && c.databasePath == databasePath
    ensures c.collectionIntervalHours == collectionIntervalHours
  {
    match cities
    case None => WeatherConfig(apiKey, databasePath, DefaultCollectorCities, collectionIntervalHours)
    case Some(list) => WeatherConfig(apiKey, databasePath, list, collectionIntervalHours)
  }

  /**
    The SQLite file: its three tables, and whether `init_database` has run
    against it. Rows are never updated or deleted.
   */
  class Database {
    var initialised: bool
    var current: seq<CurrentRow>
    var historical: seq<HistoricalRow>
    var coordinates: map<string, Coord>

    ghost predicate Valid()
      reads this
    {
      CacheKeyed(coordinates)
    }

    /** The tables as one value. */
    function Snapshot(): Store
      reads this
    {
      Store(current, historical, coordinates)
    }

    /** A file holding the tables `s` (all empty for a new file), not yet initialised. */
    constructor (s: Store)
      requires CacheKeyed(s.coordinates)
      ensures Valid() && !initialised && Snapshot() == s
    {
      initialised := false;
      current := s.current;
      historical := s.historical;
      coordinates := s.coordinates;
    }
  }

  class WeatherDataCollector {
    const config: WeatherConfig
    const db: Database
    /** Every call of `export_to_csv`, with the files it wrote. */
    var exports: seq<seq<ExportedFile>>

    ghost predicate Valid()
      reads this, db
    {
      db.Valid() && db.initialised
    }

    /** `__init__`: keep the configuration and run `init_database`. */
    constructor (config: WeatherConfig, db: Database)
      requires db.Valid()
      modifies db
      ensures Valid()
      ensures this.config == config && this.db == db && exports == []
      ensures db.Snapshot() == old(db.Snapshot())
    {
      this.config := config;
      this.db := db;
      exports := [];
      new;
      InitDatabase();
    }

    /** `init_database`: CREATE TABLE IF NOT EXISTS leaves existing rows as they are. */
    method InitDatabase()
      requires db.Valid()
      modifies db
      ensures Valid()
      ensures db.Snapshot() == old(db.Snapshot())
    {
      db.initialised := true;
    }

    /**
      `get_city_coordinates(city)`; `requested` tells whether the geocoding
      request was sent.
     */
    method GetCityCoordinates(city: string, lookupFault: bool, geo: GeoReply) returns (result: Lookup, requested: bool)
      requires Valid()
      modifies db
      ensures Valid()
      ensures db.coordinates == Resolve(old(db.coordinates), city, lookupFault, geo).cache
      ensures result == Resolve(old(db.coordinates), city, lookupFault, geo).result
      ensures requested == GeocoderQueried(old(db.coordinates), city, lookupFault)
      ensures db.current == old(db.current) && db.historical == old(db.historical)
    {
      if lookupFault {
        return LookupRaised, false;
      }
      if city in db.coordinates {
        return Found(db.coordinates[city]), false;
      }
      requested := true;
      result := NotFound;
      if geo.GeoHits? && |geo.hits| > 0 {
        var hit := HitCoord(geo.hits[0]);
        if hit.Some? && hit.value.city !in db.coordinates {
          db.coordinates := db.coordinates[hit.value.city := hit.value];
          result := Found(hit.value);
        }
      }
    }

    /** `store_current_weather(row)`: one INSERT. */
    method StoreCurrentWeather(row: CurrentRow)
      requires Valid()
      modifies db
      ensures Valid()
      ensures db.Snapshot() == old(db.Snapshot()).(current := old(db.current) + [row])
    {
      db.current := db.current + [row];
    }

    /** `store_historical_weather(row)`: one INSERT. */
    method StoreHistoricalWeather(row: HistoricalRow)
      requires Valid()
      modifies db
      ensures Valid()
      ensures db.Snapshot() == old(db.Snapshot()).(historical := old(db.historical) + [row])
    {
      db.historical := db.historical + [row];
    }

    /** `collect_current_weather(city)`. */
    method CollectCurrentWeather(city: string, lookupFault: bool, geo: GeoReply, reply: WeatherReply)
      returns (outcome: Completion)
      requires Valid()
      modifies db
      ensures Valid()
      ensures db.Snapshot() == CollectCurrent(old(db.Snapshot()), city, lookupFault, geo, reply).store
      ensures outcome == CollectCurrent(old(db.Snapshot()), city, lookupFault, geo, reply).outcome
    {
      var coords, _ := GetCityCoordinates(city, lookupFault, geo);
      match coords
      case LookupRaised =>
        outcome := Raised;
      case NotFound =>
        outcome := Returned(false);
      case Found(c) =>
        var row := CurrentRowOf(c, reply);
        if row.None? {
          outcome := Returned(false);
        } else {
          StoreCurrentWeather(row.value);
          outcome := Returned(true);
        }
    }

    /**
      `collect_historical_weather(city, days_back)`: `replies(i)` is the fetch
      of offset i and `clock(i)` the `datetime.now()` read at offset i.
     */
    method CollectHistoricalWeather(city: string, daysBack: int, lookupFault: bool, geo: GeoReply,
                                    replies: nat -> WeatherReply, clock: nat -> int)
      returns (outcome: Completion)
      requires Valid()
      modifies db
      ensures Valid()
      ensures db.Snapshot() == CollectHistorical(old(db.Snapshot()), city, daysBack, lookupFault, geo, replies, clock).store
      ensures outcome == CollectHistorical(old(db.Snapshot()), city, daysBack, lookupFault, geo, replies, clock).outcome
    {
      var coords, _ := GetCityCoordinates(city, lookupFault, geo);
      if coords.LookupRaised? {
        return Raised;
      }
      if coords.NotFound? {
        return Returned(false);
      }
      var c := coords.coord;
      ghost var resolved := db.Snapshot();
      var successCount := 0;
      for i := 0 to Days(daysBack)
        invariant Valid()
        invariant db.Snapshot() == resolved.(historical := resolved.historical + HistoricalRun(c, replies, clock, i))
        invariant successCount == |HistoricalRun(c, replies, clock, i)|
      {
        var now := clock(i);
        var reply := replies(i);
        if reply.Fetched? {
          var row := DeriveHistorical(c, reply.body, i, now);
          if row.Some? {
            StoreHistoricalWeather(row.value);
            successCount := successCount + 1;
          }
        }
      }
      outcome := Returned(successCount > 0);
    }

    /** `get_data_summary()`: reads the store, changes nothing. */
    method GetDataSummary() returns (summary: Summary)
      requires Valid()
      ensures summary == DataSummary(db.Snapshot())
      ensures summary.totalRecords == |db.current| + |db.historical|
    {
      summary := DataSummary(db.Snapshot());
    }

    /**
      `export_to_csv(table, output_dir)`: writes the selected tables, in full,
      and returns their paths; the tables are not touched.
     */
    method ExportToCsv(table: string, outputDir: string) returns (files: seq<string>)
      requires Valid()
      modifies this
      ensures Valid()
      ensures db.Snapshot() == old(db.Snapshot())
      ensures exports == old(exports) + [ExportContents(db.Snapshot(), table, outputDir)]
      ensures files == Paths(ExportContents(db.Snapshot(), table, outputDir))
    {
      var written: seq<ExportedFile> := [];
      if table in ["current", "both"] {
        written := written + [CurrentCsv(JoinPath(outputDir, CurrentFileName), db.current)];
      }
      if table in ["historical", "both"] {
        written := written + [HistoricalCsv(JoinPath(outputDir, HistoricalFileName), db.historical)];
      }
      assert written == ExportContents(db.Snapshot(), table, outputDir);
      exports := exports + [written];
      files := Paths(written);
    }
  }
}
