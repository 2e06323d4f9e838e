/**
  `WeatherScheduler` of src/data_collection/scheduler.py: validate the
  configuration before building the collector, run one collection cycle over
  the configured cities, export when a city succeeded, and `run_once`.
 */
module Scheduler {
  import opened Wrappers
  import opened Records
  import opened Pipeline
  import Config
  import opened Collector

  /** `collect_all_current` calls `export_to_csv()` with its defaults, not with the configured export directory. */
  const CycleExportTable: string := "both"
  const CycleExportDir: string := "data"

  /** What the outside world does while the cycle processes one city. */
  datatype CityReplies = CityReplies(lookupFault: bool, geo: GeoReply, weather: WeatherReply)

  /** One city of a cycle and how `collect_current_weather` ended for it. */
  datatype Visit = Visit(city: string, outcome: Completion)

  /** The store after a cycle and the cities it visited, in order. */
  datatype Cycle = Cycle(store: Store, visits: seq<Visit>)

  /**
    The loop of `collect_all_current` over `cities`: `replies(k)` is what the
    world does for the k-th city. Each city sees the store the previous ones
    left, so a coordinate cached for one city is a hit for a later one.
   */
  function RunCycle(s: Store, cities: seq<string>, replies: nat -> CityReplies): (r: Cycle)
    ensures |r.visits| == |cities|
    ensures forall k | 0 <= k < |cities| :: r.visits[k].city == cities[k]
    ensures forall k | 0 <= k < |cities| :: r.visits[k].outcome == Raised <==> replies(k).lookupFault
    decreases |cities|
  {
    if |cities| == 0 then Cycle(s, [])
    else
      var k := |cities| - 1;
      var before := RunCycle(s, cities[..k], replies);
      var step := CollectCurrent(before.store, cities[k], replies(k).lookupFault, replies(k).geo, replies(k).weather);
      Cycle(step.store, before.visits + [Visit(cities[k], step.outcome)])
  }

  /** How many visits returned True. */
  function SuccessCount(visits: seq<Visit>): (n: nat)
    ensures n <= |visits|
    decreases |visits|
  {
    if |visits| == 0 then 0
    else SuccessCount(visits[..|visits| - 1]) + (if visits[|visits| - 1].outcome == Returned(true) then 1 else 0)
  }

  /**
    A cycle appends exactly one current row per successful city, never
    touches the historical table and keeps the cache keyed by city name.
   */
  lemma {:induction false} CycleRows(s: Store, cities: seq<string>, replies: nat -> CityReplies)
    ensures var r := RunCycle(s, cities, replies);
            && s.current <= r.store.current
            && |r.store.current| == |s.current| + SuccessCount(r.visits)
            && r.store.historical == s.historical
            && (CacheKeyed(s.coordinates) ==> CacheKeyed(r.store.coordinates))
    decreases |cities|
  {
    if |cities| > 0 {
      var k := |cities| - 1;
      CycleRows(s, cities[..k], replies);
      var visits := RunCycle(s, cities, replies).visits;
      assert visits[..k] == RunCycle(s, cities[..k], replies).visits;
    }
  }

  /** Extending a cycle by one city runs that city on the store the shorter cycle left. */
  lemma CycleStep(s: Store, cities: seq<string>, replies: nat -> CityReplies, k: nat)
    requires k < |cities|
    ensures var before := RunCycle(s, cities[..k], replies);
            var step := CollectCurrent(before.store, cities[k], replies(k).lookupFault, replies(k).geo, replies(k).weather);
            && RunCycle(s, cities[..k + 1], replies).store == step.store
            && SuccessCount(RunCycle(s, cities[..k + 1], replies).visits) ==
               SuccessCount(before.visits) + (if step.outcome == Returned(true) then 1 else 0)
  {
    assert cities[..k + 1][..k] == cities[..k];
    var visits := RunCycle(s, cities[..k + 1], replies).visits;
    assert visits[..k] == RunCycle(s, cities[..k], replies).visits;
  }

  /** A cycle in which no city succeeds leaves both tables as they were. */
  lemma CycleWithoutSuccess(s: Store, cities: seq<string>, replies: nat -> CityReplies)
    requires SuccessCount(RunCycle(s, cities, replies).visits) == 0
    ensures RunCycle(s, cities, replies).store.current == s.current
    ensures RunCycle(s, cities, replies).store.historical == s.historical
  {
    CycleRows(s, cities, replies);
  }

  /** A single city the geocoder does not know: no success and nothing stored. */
  lemma UnknownCityCycle(s: Store, city: string, replies: nat -> CityReplies)
    requires city !in s.coordinates
    requires !replies(0).lookupFault && replies(0).geo == GeoHits([])
    ensures RunCycle(s, [city], replies) == Cycle(s, [Visit(city, Returned(false))])
    ensures SuccessCount(RunCycle(s, [city], replies).visits) == 0
  {
    assert [city][..0] == [];
    assert RunCycle(s, [city], replies).visits == [Visit(city, Returned(false))];
  }

  /** The `WeatherConfig` the scheduler builds from the validated settings. */
  function SchedulerConfig(settings: Config.Settings): (c: WeatherConfig)
    requires settings.apiKey.Some?
    ensures c.cities == settings.cities && c.apiKey == settings.apiKey.value
  {
    NewWeatherConfig(settings.apiKey.value, settings.databasePath, Some(settings.cities),
                     settings.collectionIntervalHours)
  }

  class WeatherScheduler {
    const config: WeatherConfig
    const collector: WeatherDataCollector

    ghost predicate Valid()
      reads this, collector, collector.db
    {
      collector.Valid() && collector.config == config
    }

    /** The part of `__init__` after `Config.validate()` has passed. */
    constructor Build(settings: Config.Settings, db: Database)
      requires Config.Validate(settings).Pass?
      requires db.Valid()
      modifies db
      ensures Valid() && fresh(collector)
      ensures config == SchedulerConfig(settings) && collector.db == db && collector.exports == []
      ensures db.Snapshot() == old(db.Snapshot())
    {
      config := SchedulerConfig(settings);
      collector := new WeatherDataCollector(SchedulerConfig(settings), db);
    }

    /**
      `WeatherScheduler()`: validation comes first; a missing key raises before
      any collector exists, so the database is not initialised.
     */
    static method Create(settings: Config.Settings, db: Database) returns (r: Result<WeatherScheduler, Config.ConfigError>)
      requires db.Valid()
      modifies db
      ensures r.Failure? <==> Config.Validate(settings).Fail?
      ensures r.Failure? ==> r.error == Config.MissingApiKey && unchanged(db)
      ensures r.Success? ==> && fresh(r.value) && fresh(r.value.collector) && r.value.Valid()
                             && r.value.config == SchedulerConfig(settings)
                             && r.value.collector.db == db && r.value.collector.exports == []
                             && db.Snapshot() == old(db.Snapshot())
    {
      var check := Config.Validate(settings);
      if check.Fail? {
        return Failure(check.error);
      }
      var scheduler := new WeatherScheduler.Build(settings, db);
      return Success(scheduler);
    }

    /**
      `collect_all_current()`: every configured city once, in order; a city
      whose call raises is logged and skipped; export when one succeeded. The
      success count, which the source only logs, is returned.
     */
    method CollectAllCurrent(replies: nat -> CityReplies) returns (successCount: nat)
      requires Valid()
      modifies collector, collector.db
      ensures Valid()
      ensures collector.db.Snapshot() == RunCycle(old(collector.db.Snapshot()), config.cities, replies).store
      ensures successCount == SuccessCount(RunCycle(old(collector.db.Snapshot()), config.cities, replies).visits)
      ensures collector.exports == old(collector.exports) +
                (if successCount > 0 then [ExportContents(collector.db.Snapshot(), CycleExportTable, CycleExportDir)]
                 else [])
    {
      ghost var start := collector.db.Snapshot();
      var cities := config.cities;
      successCount := 0;
      for k := 0 to |cities|
        invariant Valid()
        invariant collector.db.Snapshot() == RunCycle(start, cities[..k], replies).store
        invariant successCount == SuccessCount(RunCycle(start, cities[..k], replies).visits)
        invariant collector.exports == old(collector.exports)
      {
        CycleStep(start, cities, replies, k);
        var outcome := collector.CollectCurrentWeather(cities[k], replies(k).lookupFault, replies(k).geo,
                                                       replies(k).weather);
        if outcome == Returned(true) {
          successCount := successCount + 1;
        }
      }
      assert cities[..|cities|] == cities;
      if successCount > 0 {
        var _ := collector.ExportToCsv(CycleExportTable, CycleExportDir);
      }
    }

    /** `run_once()`: exactly one cycle, then the summary of the store it left. */
    method RunOnce(replies: nat -> CityReplies) returns (summary: Summary)
      requires Valid()
      modifies collector, collector.db
      ensures Valid()
      ensures collector.db.Snapshot() == RunCycle(old(collector.db.Snapshot()), config.cities, replies).store
      ensures summary == DataSummary(RunCycle(old(collector.db.Snapshot()), config.cities, replies).store)
      ensures collector.exports == old(collector.exports) +
                (if SuccessCount(RunCycle(old(collector.db.Snapshot()), config.cities, replies).visits) > 0
                 then [ExportContents(collector.db.Snapshot(), CycleExportTable, CycleExportDir)]
                 else [])
    {
      var _ := CollectAllCurrent(replies);
      summary := collector.GetDataSummary();
    }
  }
}
