/**
  The store operations of `WeatherDataCollector`
  (src/data_collection/weather_collector.py) as functions on the store's
  value: coordinate resolution through the `city_coordinates` cache, one
  current-weather collection, the synthetic historical run, the summary and
  the table selection of the CSV export. The imperative classes in module
  Collector are proved against these functions.
 */
module Pipeline {
  import opened Wrappers
  import opened Records

  /** The three tables of the SQLite file. */
  datatype Store = Store(
    current: seq<CurrentRow>,
    historical: seq<HistoricalRow>,
    coordinates: map<string, Coord>)

  /** The PRIMARY KEY of `city_coordinates` is the stored city name. */
  predicate CacheKeyed(cache: map<string, Coord>) {
    forall key | key in cache :: cache[key].city == key
  }

  /** What `get_city_coordinates` gives back: the coordinates, None, or an exception it lets through. */
  datatype Lookup = Found(coord: Coord) | NotFound | LookupRaised

  /** The cache after a lookup together with the lookup's result. */
  datatype Resolution = Resolution(cache: map<string, Coord>, result: Lookup)

  /** Whether a lookup reaches the geocoding request (cache read worked, no cached row). */
  predicate GeocoderQueried(cache: map<string, Coord>, city: string, lookupFault: bool) {
    !lookupFault && city !in cache
  }

  /**
    `get_city_coordinates(city)`. `lookupFault` stands for opening the
    database or the cache SELECT raising (those run outside the try block);
    `geo` is the geocoder's reply, consulted only on a miss. The first hit is inserted under its returned
    name; an insert whose name is already cached violates the PRIMARY KEY and
    ends in None.
   */
  function Resolve(cache: map<string, Coord>, city: string, lookupFault: bool, geo: GeoReply): (r: Resolution)
    ensures lookupFault ==> r == Resolution(cache, LookupRaised)
    ensures !lookupFault && city in cache ==> r == Resolution(cache, Found(cache[city]))
    ensures !r.result.Found? ==> r.cache == cache
    ensures GeocoderQueried(cache, city, lookupFault) && r.result.Found? ==>
              && r.result.coord.city !in cache
              && r.cache == cache[r.result.coord.city := r.result.coord]
    ensures CacheKeyed(cache) ==> CacheKeyed(r.cache)
    ensures CacheKeyed(cache) && r.result.Found? ==>
              r.result.coord.city in r.cache && r.cache[r.result.coord.city] == r.result.coord
  {
    if lookupFault then Resolution(cache, LookupRaised)
    else if city in cache then Resolution(cache, Found(cache[city]))
    else if geo.GeoError? || |geo.hits| == 0 then Resolution(cache, NotFound)
    else match HitCoord(geo.hits[0])
      case None => Resolution(cache, NotFound)
      case Some(c) =>
        if c.city in cache then Resolution(cache, NotFound)
        else Resolution(cache[c.city := c], Found(c))
  }

  /** A cache hit does not depend on what the geocoder would have said. */
  lemma ResolveHitIgnoresGeocoder(cache: map<string, Coord>, city: string, geo1: GeoReply, geo2: GeoReply)
    requires city in cache
    ensures Resolve(cache, city, false, geo1) == Resolve(cache, city, false, geo2)
  {
  }

  /**
    On a miss the lookup succeeds exactly when the first hit has every field
    and its returned name is not cached yet; it then adds exactly that one
    entry, under the returned name.
   */
  lemma ResolveMiss(cache: map<string, Coord>, city: string, geo: GeoReply)
    requires city !in cache
    ensures var r := Resolve(cache, city, false, geo);
            r.result.Found? <==>
              && geo.GeoHits? && |geo.hits| > 0 && HitCoord(geo.hits[0]).Some?
              && HitCoord(geo.hits[0]).value.city !in cache
    ensures var r := Resolve(cache, city, false, geo);
            r.result.Found? ==> r.result.coord == HitCoord(geo.hits[0]).value &&
                                |r.cache| == |cache| + 1
    ensures var r := Resolve(cache, city, false, geo);
            !r.result.Found? ==> r.result == NotFound && r.cache == cache
  {
  }

  /** Resolving a name that is stored as returned is a hit the second time, with the same coordinates. */
  lemma ResolveTwice(cache: map<string, Coord>, city: string, geo1: GeoReply, geo2: GeoReply)
    requires CacheKeyed(cache)
    requires Resolve(cache, city, false, geo1).result.Found?
    requires Resolve(cache, city, false, geo1).result.coord.city == city
    ensures var first := Resolve(cache, city, false, geo1);
            Resolve(first.cache, city, false, geo2) == Resolution(first.cache, first.result)
  {
  }

  /**
    A query the geocoder answers under another name (say "NYC" answered as
    "New York") is cached under that name, so asking again misses the cache,
    queries again and, on the same answer, fails on the duplicate key.
   */
  lemma ResolveAliasFailsAgain(cache: map<string, Coord>, city: string, geo: GeoReply)
    requires CacheKeyed(cache)
    requires Resolve(cache, city, false, geo).result.Found?
    requires Resolve(cache, city, false, geo).result.coord.city != city
    ensures var first := Resolve(cache, city, false, geo);
            GeocoderQueried(first.cache, city, false) &&
            Resolve(first.cache, city, false, geo) == Resolution(first.cache, NotFound)
  {
  }

  // ---------------------------------------------------------------------------
  // Collecting

  /** How a collection call ends: it returns a boolean or an exception escapes it. */
  datatype Completion = Returned(ok: bool) | Raised

  /** The store after one call together with how the call ended. */
  datatype Step = Step(store: Store, outcome: Completion)

  /**
    `collect_current_weather(city)`: resolve, fetch, then append one row or
    return False. The cache insert of a successful miss stays even when the
    fetch then fails.
   */
  function CollectCurrent(s: Store, city: string, lookupFault: bool, geo: GeoReply, reply: WeatherReply): (r: Step)
    ensures r.store.historical == s.historical
    ensures r.store.coordinates == Resolve(s.coordinates, city, lookupFault, geo).cache
    ensures r.outcome == Raised <==> lookupFault
    ensures var lookup := Resolve(s.coordinates, city, lookupFault, geo).result;
            r.outcome == Returned(true) <==> lookup.Found? && CurrentRowOf(lookup.coord, reply).Some?
    ensures var lookup := Resolve(s.coordinates, city, lookupFault, geo).result;
            r.outcome == Returned(true) ==> r.store.current == s.current + [CurrentRowOf(lookup.coord, reply).value]
    ensures r.outcome != Returned(true) ==> r.store.current == s.current
  {
    var res := Resolve(s.coordinates, city, lookupFault, geo);
    match res.result
    case LookupRaised => Step(s, Raised)
    case NotFound => Step(s.(coordinates := res.cache), Returned(false))
    case Found(c) =>
      match CurrentRowOf(c, reply)
      case None => Step(s.(coordinates := res.cache), Returned(false))
      case Some(row) => Step(s.(current := s.current + [row], coordinates := res.cache), Returned(true))
  }

  /** The row offset `i` contributes: None when its fetch or its derivation raised. */
  function HistoricalDay(c: Coord, reply: WeatherReply, i: nat, now: int): (r: Option<HistoricalRow>)
    ensures r.Some? <==> reply.Fetched? && HasHistoricalFields(reply.body)
    ensures r.Some? ==> InBounds(r.value) && r.value.city == c.city && r.value.timestamp == HistoricalStamp(now, i)
  {
    if reply.FetchError? then None else DeriveHistorical(c, reply.body, i, now)
  }

  /**
    The rows the loop over offsets 0 .. n-1 stores, in order: `replies(i)` is
    the fetch of offset i and `clock(i)` the clock read at offset i. A failed
    offset contributes nothing and the loop goes on.
   */
  function HistoricalRun(c: Coord, replies: nat -> WeatherReply, clock: nat -> int, n: nat): (rows: seq<HistoricalRow>)
    ensures |rows| <= n
    ensures forall k | 0 <= k < |rows| :: InBounds(rows[k]) && rows[k].city == c.city
    decreases n
  {
    if n == 0 then []
    else
      var prefix := HistoricalRun(c, replies, clock, n - 1);
      match HistoricalDay(c, replies(n - 1), n - 1, clock(n - 1))
      case None => prefix
      case Some(row) => prefix + [row]
  }

  /** How many offsets `range(days_back)` yields. */
  function Days(daysBack: int): (n: nat)
    ensures daysBack >= 0 ==> n == daysBack
    ensures daysBack < 0 ==> n == 0
  {
    if daysBack < 0 then 0 else daysBack
  }

  /**
    `collect_historical_weather(city, days_back)`: resolve, then run the
    offsets; True exactly when at least one row was stored.
   */
  function CollectHistorical(s: Store, city: string, daysBack: int, lookupFault: bool, geo: GeoReply,
                             replies: nat -> WeatherReply, clock: nat -> int): (r: Step)
    ensures r.store.current == s.current
    ensures r.store.coordinates == Resolve(s.coordinates, city, lookupFault, geo).cache
    ensures r.outcome == Raised <==> lookupFault
    ensures s.historical <= r.store.historical
    ensures |r.store.historical| - |s.historical| <= Days(daysBack)
    ensures r.outcome == Returned(true) <==> |r.store.historical| > |s.historical|
    ensures !Resolve(s.coordinates, city, lookupFault, geo).result.Found? ==> r.store.historical == s.historical
    ensures Resolve(s.coordinates, city, lookupFault, geo).result.Found? ==>
              r.store.historical == s.historical +
                HistoricalRun(Resolve(s.coordinates, city, lookupFault, geo).result.coord, replies, clock, Days(daysBack))
  {
    var res := Resolve(s.coordinates, city, lookupFault, geo);
    match res.result
    case LookupRaised => Step(s, Raised)
    case NotFound => Step(s.(coordinates := res.cache), Returned(false))
    case Found(c) =>
      var rows := HistoricalRun(c, replies, clock, Days(daysBack));
      Step(s.(historical := s.historical + rows, coordinates := res.cache), Returned(|rows| > 0))
  }

  /** A shorter run is a prefix of a longer one. */
  lemma {:induction false} HistoricalRunPrefix(c: Coord, replies: nat -> WeatherReply, clock: nat -> int, m: nat, n: nat)
    requires m <= n
    ensures HistoricalRun(c, replies, clock, m) <= HistoricalRun(c, replies, clock, n)
    decreases n
  {
    if m < n {
      HistoricalRunPrefix(c, replies, clock, m, n - 1);
    }
  }

  /**
    Every offset that succeeds has its row in the run, right after the rows of
    the offsets before it, whatever failed before or after it.
   */
  lemma HistoricalRunKeepsDay(c: Coord, replies: nat -> WeatherReply, clock: nat -> int, n: nat, i: nat)
    requires i < n
    requires HistoricalDay(c, replies(i), i, clock(i)).Some?
    ensures var before := HistoricalRun(c, replies, clock, i);
            var rows := HistoricalRun(c, replies, clock, n);
            |before| < |rows| && rows[|before|] == HistoricalDay(c, replies(i), i, clock(i)).value
  {
    HistoricalRunPrefix(c, replies, clock, i + 1, n);
  }

  /** The offsets below `n` whose fetch or derivation failed. */
  function FailedDays(c: Coord, replies: nat -> WeatherReply, clock: nat -> int, n: nat): set<nat> {
    set i: nat | i < n && HistoricalDay(c, replies(i), i, clock(i)).None?
  }

  /** Stored rows plus failed offsets account for every offset. */
  lemma {:induction false} HistoricalRunCount(c: Coord, replies: nat -> WeatherReply, clock: nat -> int, n: nat)
    ensures |HistoricalRun(c, replies, clock, n)| + |FailedDays(c, replies, clock, n)| == n
    decreases n
  {
    if n == 0 {
      assert FailedDays(c, replies, clock, n) == {};
    } else {
      HistoricalRunCount(c, replies, clock, n - 1);
      var before := FailedDays(c, replies, clock, n - 1);
      var after := FailedDays(c, replies, clock, n);
      if HistoricalDay(c, replies(n - 1), n - 1, clock(n - 1)).None? {
        assert after == before + {n - 1};
        assert n - 1 !in before;
      } else {
        assert after == before;
      }
    }
  }

  /** Five offsets of which only the fourth (offset 3) fails store four rows. */
  lemma OneFailedDay(c: Coord, replies: nat -> WeatherReply, clock: nat -> int)
    requires FailedDays(c, replies, clock, 5) == {3}
    ensures |HistoricalRun(c, replies, clock, 5)| == 4
  {
    HistoricalRunCount(c, replies, clock, 5);
  }

  /** Consecutive clock reads `k` and `k + 1` are less than a day apart going forward. */
  predicate StepBelowDay(clock: nat -> int, k: nat) {
    clock(k + 1) < clock(k) + DaySeconds
  }

  /** No two consecutive clock reads among the first `n` are a full day or more apart going forward. */
  predicate ClockSteady(clock: nat -> int, n: nat) {
    forall k: nat | k + 1 < n :: StepBelowDay(clock, k)
  }

  /** Under a steady clock, the timestamp of a later offset is strictly earlier. */
  lemma {:induction false} StampDecreasing(clock: nat -> int, n: nat, i: nat, j: nat)
    requires ClockSteady(clock, n)
    requires i < j < n
    ensures HistoricalStamp(clock(j), j) < HistoricalStamp(clock(i), i)
    decreases j
  {
    assert StepBelowDay(clock, j - 1);
    if i < j - 1 {
      StampDecreasing(clock, n, i, j - 1);
    }
  }

  /** The rows of offsets below `n` are all later than the timestamp of offset `m >= n`. */
  lemma {:induction false} HistoricalRunAbove(c: Coord, replies: nat -> WeatherReply, clock: nat -> int, n: nat, m: nat)
    requires ClockSteady(clock, m + 1)
    requires n <= m
    ensures forall k | 0 <= k < |HistoricalRun(c, replies, clock, n)| ::
              HistoricalRun(c, replies, clock, n)[k].timestamp > HistoricalStamp(clock(m), m)
    decreases n
  {
    if n > 0 {
      HistoricalRunAbove(c, replies, clock, n - 1, m);
      var day := HistoricalDay(c, replies(n - 1), n - 1, clock(n - 1));
      if day.Some? {
        StampDecreasing(clock, m + 1, n - 1, m);
        assert day.value.timestamp == HistoricalStamp(clock(n - 1), n - 1);
      }
    }
  }

  /**
    Under a steady clock the stored timestamps strictly decrease along the run
    and all lie before the first clock read.
   */
  lemma {:induction false} HistoricalStampsDecrease(c: Coord, replies: nat -> WeatherReply, clock: nat -> int, n: nat)
    requires ClockSteady(clock, n)
    ensures forall p, q | 0 <= p < q < |HistoricalRun(c, replies, clock, n)| ::
              HistoricalRun(c, replies, clock, n)[q].timestamp < HistoricalRun(c, replies, clock, n)[p].timestamp
    ensures forall k | 0 <= k < |HistoricalRun(c, replies, clock, n)| ::
              HistoricalRun(c, replies, clock, n)[k].timestamp < clock(0)
    decreases n
  {
    if n > 0 {
      assert ClockSteady(clock, n - 1);
      HistoricalStampsDecrease(c, replies, clock, n - 1);
      HistoricalRunAbove(c, replies, clock, n - 1, n - 1);
      var prefix := HistoricalRun(c, replies, clock, n - 1);
      var day := HistoricalDay(c, replies(n - 1), n - 1, clock(n - 1));
      if day.Some? {
        var rows := prefix + [day.value];
        assert HistoricalRun(c, replies, clock, n) == rows;
        assert day.value.timestamp == HistoricalStamp(clock(n - 1), n - 1);
        if n - 1 > 0 {
          StampDecreasing(clock, n, 0, n - 1);
        }
        forall p, q | 0 <= p < q < |rows| ensures rows[q].timestamp < rows[p].timestamp {
          if q == |prefix| {
            assert rows[p] == prefix[p] && rows[q] == day.value;
            assert prefix[p].timestamp > HistoricalStamp(clock(n - 1), n - 1);
          } else {
            assert rows[p] == prefix[p] && rows[q] == prefix[q];
            assert prefix[q].timestamp < prefix[p].timestamp;
          }
        }
        forall k | 0 <= k < |rows| ensures rows[k].timestamp < clock(0) {
          if k < |prefix| {
            assert rows[k] == prefix[k];
          }
        }
      }
    }
  }

  // ---------------------------------------------------------------------------
  // Summary and export

  predicate NoDuplicates(s: seq<string>) {
    forall i, j | 0 <= i < j < |s| :: s[i] != s[j]
  }

  /** The distinct values of `s`, each once, in order of first occurrence. */
  function Distinct(s: seq<string>): (r: seq<string>)
    ensures NoDuplicates(r)
    ensures forall x :: x in r <==> x in s
    decreases |s|
  {
    if |s| == 0 then []
    else
      var d := Distinct(s[..|s| - 1]);
      assert s == s[..|s| - 1] + [s[|s| - 1]];
      if s[|s| - 1] in d then d else d + [s[|s| - 1]]
  }

  /** The `city` column of the current table. */
  function CityColumn(rows: seq<CurrentRow>): (r: seq<string>)
    ensures |r| == |rows|
    ensures forall k | 0 <= k < |rows| :: r[k] == rows[k].city
  {
    seq(|rows|, k requires 0 <= k < |rows| => rows[k].city)
  }

  /** The dict `get_data_summary` returns. */
  datatype Summary = Summary(currentRecords: nat, historicalRecords: nat, cities: seq<string>, totalRecords: nat)

  /**
    `get_data_summary()`: the two row counts, their total, and the distinct
    cities of the current table (SQL leaves their order open; first occurrence
    here).
   */
  function DataSummary(s: Store): (r: Summary)
    ensures r.currentRecords == |s.current| && r.historicalRecords == |s.historical|
    ensures r.totalRecords == r.currentRecords + r.historicalRecords
    ensures NoDuplicates(r.cities)
    ensures forall city :: city in r.cities <==> exists k | 0 <= k < |s.current| :: s.current[k].city == city
  {
    var cities := Distinct(CityColumn(s.current));
    assert forall city :: city in CityColumn(s.current) <==>
                          exists k | 0 <= k < |s.current| :: s.current[k].city == city by {
      forall city | city in CityColumn(s.current)
        ensures exists k | 0 <= k < |s.current| :: s.current[k].city == city
      {
        var k :| 0 <= k < |CityColumn(s.current)| && CityColumn(s.current)[k] == city;
        assert s.current[k].city == city;
      }
    }
    Summary(|s.current|, |s.historical|, cities, |s.current| + |s.historical|)
  }

  const CurrentFileName: string := "current_weather.csv"
  const HistoricalFileName: string := "historical_weather.csv"

  /** `os.path.join(dir, name)` on POSIX, for a relative `name`. */
  function JoinPath(dir: string, name: string): (path: string)
    ensures |path| >= |dir| + |name|
    ensures path[..|dir|] == dir && path[|path| - |name|..] == name
  {
    if |dir| == 0 then name
    else if dir[|dir| - 1] == '/' then dir + name
    else dir + "/" + name
  }

  /** A CSV file `export_to_csv` writes: its path and the full table it holds. */
  datatype ExportedFile =
    | CurrentCsv(path: string, currentRows: seq<CurrentRow>)
    | HistoricalCsv(path: string, historicalRows: seq<HistoricalRow>)

  /** The files `export_to_csv(table, dir)` writes, in the order it writes them. */
  function ExportContents(s: Store, table: string, dir: string): (files: seq<ExportedFile>)
    ensures |files| == (if table in ["current", "both"] then 1 else 0) + (if table in ["historical", "both"] then 1 else 0)
    ensures table in ["current", "both"] ==> files[0] == CurrentCsv(JoinPath(dir, CurrentFileName), s.current)
    ensures table in ["historical", "both"] ==>
              files[|files| - 1] == HistoricalCsv(JoinPath(dir, HistoricalFileName), s.historical)
  {
    (if table in ["current", "both"] then [CurrentCsv(JoinPath(dir, CurrentFileName), s.current)] else [])
    + (if table in ["historical", "both"] then [HistoricalCsv(JoinPath(dir, HistoricalFileName), s.historical)] else [])
  }

  /** The list of paths `export_to_csv` returns. */
  function Paths(files: seq<ExportedFile>): (paths: seq<string>)
    ensures |paths| == |files|
    ensures forall k | 0 <= k < |files| :: paths[k] == files[k].path
  {
    seq(|files|, k requires 0 <= k < |files| => files[k].path)
  }

  /**
    The table argument selects the files: "current", "historical", both in
    that order for "both", none for anything else; every file holds its whole
    table.
   */
  lemma ExportSelection(s: Store, table: string, dir: string)
    ensures var paths := Paths(ExportContents(s, table, dir));
            && (table == "current" ==> paths == [JoinPath(dir, CurrentFileName)])
            && (table == "historical" ==> paths == [JoinPath(dir, HistoricalFileName)])
            && (table == "both" ==> paths == [JoinPath(dir, CurrentFileName), JoinPath(dir, HistoricalFileName)])
            && (table !in ["current", "historical", "both"] ==> paths == [])
    ensures forall f | f in ExportContents(s, table, dir) ::
              (f.CurrentCsv? ==> f.currentRows == s.current) &&
              (f.HistoricalCsv? ==> f.historicalRows == s.historical)
  {
  }
}
