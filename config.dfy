/**
  The environment-derived configuration (`Config` in config/config.py): the
  comma-separated city list, the integer settings with their defaults and the
  start-up check that an API key is present.
 */
module Config {
  import opened Wrappers

  /** The process environment once `.env` has been loaded: variable name to value. */
  type Env = map<string, string>

  const ApiKeyVar: string := "OPENWEATHER_API_KEY"
  const DatabasePathVar: string := "DATABASE_PATH"
  const CitiesVar: string := "CITIES"
  const IntervalVar: string := "COLLECTION_INTERVAL_HOURS"
  const HistoricalDaysVar: string := "HISTORICAL_DAYS"
  const ExportDirVar: string := "EXPORT_DIR"

  const DefaultDatabasePath: string := "weather_forecast.db"
  const DefaultCities: string := "New York,London,Tokyo,Paris,Sydney"
  const DefaultInterval: string := "1"
  const DefaultHistoricalDays: string := "30"
  const DefaultExportDir: string := "data"

  /** Why loading or validating the configuration fails. */
  datatype ConfigError =
    | InvalidInteger(variable: string, text: string)  // int() raised ValueError
    | MissingApiKey                                    // validate() raised ValueError

  /** The class attributes of `Config` (API_DELAY_SECONDS is not modelled). */
  datatype Settings = Settings(
    apiKey: Option<string>,
    databasePath: string,
    cities: seq<string>,
    collectionIntervalHours: int,
    historicalDays: int,
    exportDir: string)

  /** `os.getenv(name)`. */
  function GetEnv(env: Env, name: string): (r: Option<string>)
    ensures r.Some? <==> name in env
    ensures r.Some? ==> r.value == env[name]
  {
    if name in env then Some(env[name]) else None
  }

  /** `os.getenv(name, default)`. */
  function GetEnvOr(env: Env, name: string, default: string): (r: string)
    ensures r == GetEnv(env, name).GetOr(default)
    ensures name !in env ==> r == default
  {
    if name in env then env[name] else default
  }

  // ---------------------------------------------------------------------------
  // str.split(',') and ','.join

  /** Number of commas in `s`. */
  function CommaCount(s: string): nat
    decreases |s|
  {
    if |s| == 0 then 0 else (if s[0] == ',' then 1 else 0) + CommaCount(s[1..])
  }

  /** Python's `s.split(',')`: the maximal comma-free pieces, empty ones included, never trimmed. */
  function Split(s: string): (pieces: seq<string>)
    ensures |pieces| >= 1
    decreases |s|
  {
    if |s| == 0 then [""]
    else
      var rest := Split(s[1..]);
      if s[0] == ',' then [""] + rest
      else [[s[0]] + rest[0]] + rest[1..]
  }

  /** Python's `','.join(pieces)`. */
  function Join(pieces: seq<string>): string
    decreases |pieces|
  {
    if |pieces| == 0 then ""
    else if |pieces| == 1 then pieces[0]
    else pieces[0] + "," + Join(pieces[1..])
  }

  predicate CommaFree(p: string) {
    ',' !in p
  }

  /** No piece of a split contains the separator. */
  lemma {:induction false} SplitPiecesCommaFree(s: string)
    ensures forall k | 0 <= k < |Split(s)| :: CommaFree(Split(s)[k])
    decreases |s|
  {
    if |s| > 0 {
      SplitPiecesCommaFree(s[1..]);
      var rest := Split(s[1..]);
      if s[0] != ',' {
        assert CommaFree([s[0]] + rest[0]);
      }
    }
  }

  /** A split has one piece more than the string has commas. */
  lemma {:induction false} SplitCount(s: string)
    ensures |Split(s)| == CommaCount(s) + 1
    decreases |s|
  {
    if |s| > 0 {
      SplitCount(s[1..]);
    }
  }

  /** Joining a split with the separator gives the string back. */
  lemma {:induction false} JoinSplit(s: string)
    ensures Join(Split(s)) == s
    decreases |s|
  {
    if |s| > 0 {
      JoinSplit(s[1..]);
      var rest := Split(s[1..]);
      if s[0] == ',' {
        assert Split(s) == [""] + rest;
        assert ([""] + rest)[1..] == rest;
        assert s == [','] + s[1..];
      } else {
        var pieces := [[s[0]] + rest[0]] + rest[1..];
        assert Split(s) == pieces;
        if |rest| == 1 {
          assert s == [s[0]] + s[1..];
        } else {
          assert pieces[1..] == rest[1..];
          assert Join(rest) == rest[0] + "," + Join(rest[1..]);
          assert s == [s[0]] + s[1..];
        }
      }
    }
  }

  /** Splitting a comma-free string gives it back as the only piece. */
  lemma {:induction false} SplitCommaFree(a: string)
    requires CommaFree(a)
    ensures Split(a) == [a]
    decreases |a|
  {
    if |a| > 0 {
      assert CommaFree(a[1..]) by { assert forall k | 0 <= k < |a[1..]| :: a[1..][k] == a[k + 1]; }
      SplitCommaFree(a[1..]);
      assert [a[0]] + a[1..] == a;
    }
  }

  /** A comma-free prefix followed by a comma splits off as the first piece. */
  lemma {:induction false} SplitAfterPiece(a: string, rest: string)
    requires CommaFree(a)
    ensures Split(a + "," + rest) == [a] + Split(rest)
    decreases |a|
  {
    if |a| == 0 {
      assert a + "," + rest == [','] + rest;
      assert (a + "," + rest)[1..] == rest;
    } else {
      var s := a + "," + rest;
      assert s[1..] == a[1..] + "," + rest;
      assert CommaFree(a[1..]) by { assert forall k | 0 <= k < |a[1..]| :: a[1..][k] == a[k + 1]; }
      SplitAfterPiece(a[1..], rest);
      assert [a[0]] + a[1..] == a;
    }
  }

  /** Splitting the join of comma-free pieces gives the pieces back. */
  lemma {:induction false} SplitJoin(pieces: seq<string>)
    requires |pieces| >= 1
    requires forall k | 0 <= k < |pieces| :: CommaFree(pieces[k])
    ensures Split(Join(pieces)) == pieces
    decreases |pieces|
  {
    if |pieces| == 1 {
      SplitCommaFree(pieces[0]);
    } else {
      SplitJoin(pieces[1..]);
      SplitAfterPiece(pieces[0], Join(pieces[1..]));
      assert [pieces[0]] + pieces[1..] == pieces;
    }
  }

  /** The default city string yields the five default cities in order. */
  lemma DefaultCitiesSplit()
    ensures Split(DefaultCities) == ["New York", "London", "Tokyo", "Paris", "Sydney"]
  {
    var cities := ["New York", "London", "Tokyo", "Paris", "Sydney"];
    assert Join(cities) == DefaultCities;
    SplitJoin(cities);
  }

  /** Pieces are not trimmed: the blank after a comma stays in the next city name. */
  lemma SplitKeepsBlanks()
    ensures Split("A, B") == ["A", " B"]
  {
    SplitJoin(["A", " B"]);
    assert Join(["A", " B"]) == "A, B";
  }

  // ---------------------------------------------------------------------------
  // int()

  predicate IsDigit(c: char) {
    '0' <= c <= '9'
  }

  predicate AllDigits(s: string) {
    forall k | 0 <= k < |s| :: IsDigit(s[k])
  }

  /** The decimal value of a string of ASCII digits. */
  function DigitsValue(s: string): nat
    requires AllDigits(s)
    decreases |s|
  {
    if |s| == 0 then 0
    else DigitsValue(s[..|s| - 1]) * 10 + (s[|s| - 1] as int - '0' as int)
  }

  /**
    Python's `int(s)` on text: an optional sign followed by one or more ASCII
    digits; anything else raises ValueError (None here).
   */
  function ParseInt(s: string): (r: Option<int>)
    ensures r.Some? <==> (AllDigits(s) && |s| > 0) ||
                         (|s| > 1 && (s[0] == '-' || s[0] == '+') && AllDigits(s[1..]))
  {
    if |s| > 0 && (s[0] == '-' || s[0] == '+') then
      var digits := s[1..];
      if |digits| > 0 && AllDigits(digits) then
        var magnitude: int := DigitsValue(digits);
        Some(if s[0] == '-' then -magnitude else magnitude)
      else None
    else if |s| > 0 && AllDigits(s) then Some(DigitsValue(s))
    else None
  }

  /** Python's `str(n)` for a natural number. */
  function NatToString(n: nat): string
    decreases n
  {
    if n < 10 then [('0' as int + n) as char]
    else NatToString(n / 10) + [('0' as int + n % 10) as char]
  }

  /** Python's `str(n)`. */
  function IntToString(n: int): string {
    if n < 0 then "-" + NatToString(-n) else NatToString(n)
  }

  lemma {:induction false} NatToStringDigits(n: nat)
    ensures |NatToString(n)| > 0 && AllDigits(NatToString(n))
    ensures DigitsValue(NatToString(n)) == n
    decreases n
  {
    if n >= 10 {
      NatToStringDigits(n / 10);
      var s := NatToString(n);
      assert s[..|s| - 1] == NatToString(n / 10);
    }
  }

  /** `int(str(n)) == n`: the parser reads back every integer as Python prints it. */
  lemma ParseIntToString(n: int)
    ensures ParseInt(IntToString(n)) == Some(n)
  {
    var t := NatToString(if n < 0 then -n else n);
    NatToStringDigits(if n < 0 then -n else n);
    assert IsDigit(t[0]);
    if n < 0 {
      var s := "-" + t;
      assert s == IntToString(n);
      assert s[0] == '-' && s[1..] == t;
    } else {
      assert t == IntToString(n);
      assert t[0] != '-' && t[0] != '+';
    }
  }

  // ---------------------------------------------------------------------------
  // Loading and validation

  /**
    The class attributes as evaluated when config/config.py is imported. An
    integer variable that `int()` rejects makes the import raise.
   */
  function Load(env: Env): (r: Result<Settings, ConfigError>)
    ensures r.Success? <==> ParseInt(GetEnvOr(env, IntervalVar, DefaultInterval)).Some? &&
                            ParseInt(GetEnvOr(env, HistoricalDaysVar, DefaultHistoricalDays)).Some?
    ensures r.Success? ==> r.value.cities == Split(GetEnvOr(env, CitiesVar, DefaultCities))
    ensures r.Success? ==> r.value.apiKey == GetEnv(env, ApiKeyVar)
    ensures r.Success? ==> r.value.collectionIntervalHours == ParseInt(GetEnvOr(env, IntervalVar, DefaultInterval)).value
    ensures r.Success? ==> r.value.historicalDays == ParseInt(GetEnvOr(env, HistoricalDaysVar, DefaultHistoricalDays)).value
    ensures r.Success? ==> r.value.databasePath == GetEnvOr(env, DatabasePathVar, DefaultDatabasePath)
    ensures r.Success? ==> r.value.exportDir == GetEnvOr(env, ExportDirVar, DefaultExportDir)
  {
    var intervalText := GetEnvOr(env, IntervalVar, DefaultInterval);
    var daysText := GetEnvOr(env, HistoricalDaysVar, DefaultHistoricalDays);
    match (ParseInt(intervalText), ParseInt(daysText))
    case (None, _) => Failure(InvalidInteger(IntervalVar, intervalText))
    case (_, None) => Failure(InvalidInteger(HistoricalDaysVar, daysText))
    case (Some(hours), Some(days)) =>
      Success(Settings(
        GetEnv(env, ApiKeyVar),
        GetEnvOr(env, DatabasePathVar, DefaultDatabasePath),
        Split(GetEnvOr(env, CitiesVar, DefaultCities)),
        hours,
        days,
        GetEnvOr(env, ExportDirVar, DefaultExportDir)))
  }

  /** With none of the variables set, the defaults apply. */
  lemma LoadDefaults(env: Env)
    requires IntervalVar !in env && HistoricalDaysVar !in env && CitiesVar !in env
    ensures Load(env).Success?
    ensures Load(env).value.collectionIntervalHours == 1
    ensures Load(env).value.historicalDays == 30
    ensures Load(env).value.cities == ["New York", "London", "Tokyo", "Paris", "Sydney"]
  {
    ParseIntToString(1);
    ParseIntToString(30);
    assert IntToString(1) == DefaultInterval;
    assert IntToString(30) == DefaultHistoricalDays;
    DefaultCitiesSplit();
  }

  /** An interval written as Python prints an integer is read back unchanged. */
  lemma LoadInterval(env: Env, hours: int)
    requires IntervalVar in env && env[IntervalVar] == IntToString(hours)
    requires ParseInt(GetEnvOr(env, HistoricalDaysVar, DefaultHistoricalDays)).Some?
    ensures Load(env).Success? && Load(env).value.collectionIntervalHours == hours
  {
    ParseIntToString(hours);
  }

  /**
    `Config.validate`, the API-key part: it raises exactly when the key is
    absent or empty (the falsy strings).
   */
  function Validate(s: Settings): (r: Outcome<ConfigError>)
    ensures r.Pass? <==> exists key :: s.apiKey == Some(key) && |key| > 0
    ensures r.Fail? ==> r.error == MissingApiKey
  {
    match s.apiKey
    case None => Fail(MissingApiKey)
    case Some(key) => if key == "" then Fail(MissingApiKey) else Pass
  }
}
