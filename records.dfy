/**
  The records of the weather store and the per-record logic of
  src/data_collection/weather_collector.py: turning a geocoding hit into
  coordinates, a weather reply into a current row, and a reply plus a day
  offset into a synthetic historical row.

  Temperatures, coordinates and wind speeds are exact reals; the source's
  float rounding is not modelled. Timestamps are integer seconds.
 */
module Records {
  import opened Wrappers

  /** Seconds in `timedelta(days=1)`. */
  const DaySeconds: int := 86400

  /** A row of `city_coordinates`, and the dict `get_city_coordinates` returns. */
  datatype Coord = Coord(city: string, country: string, lat: real, lon: real)

  /** One element of the geocoder's JSON list; a field it lacks is None. */
  datatype GeoHit = GeoHit(name: Option<string>, country: Option<string>, lat: Option<real>, lon: Option<real>)

  /** The geocoding call: an HTTP or decoding error, or the decoded list. */
  datatype GeoReply = GeoError | GeoHits(hits: seq<GeoHit>)

  /** One element of the reply's `weather` list. */
  datatype WeatherEntry = WeatherEntry(main: Option<string>, description: Option<string>)

  /**
    The decoded body of the current-weather endpoint; a field the body lacks is
    None (a missing `weather` list is the empty list).
   */
  datatype Reading = Reading(
    dt: Option<int>,
    temp: Option<real>,
    feelsLike: Option<real>,
    humidity: Option<int>,
    pressure: Option<int>,
    windSpeed: Option<real>,
    windDeg: Option<int>,
    visibility: Option<int>,
    clouds: Option<int>,
    weather: seq<WeatherEntry>,
    sunrise: Option<int>,
    sunset: Option<int>)

  /** The current-weather call: an HTTP or decoding error, or the decoded body. */
  datatype WeatherReply = FetchError | Fetched(body: Reading)

  /** A row of `current_weather` (the auto-increment id is the row's position plus one). */
  datatype CurrentRow = CurrentRow(
    city: string,
    country: string,
    latitude: real,
    longitude: real,
    timestamp: int,
    temperature: real,
    feelsLike: real,
    humidity: int,
    pressure: int,
    windSpeed: real,
    windDirection: int,
    visibility: int,
    cloudCover: int,
    weatherMain: string,
    weatherDescription: string,
    sunrise: int,
    sunset: int)

  /** A row of `historical_weather`. */
  datatype HistoricalRow = HistoricalRow(
    city: string,
    latitude: real,
    longitude: real,
    timestamp: int,
    temperature: real,
    feelsLike: real,
    humidity: int,
    pressure: int,
    windSpeed: real,
    windDirection: int,
    cloudCover: int,
    weatherMain: string,
    weatherDescription: string)

  /** `data[0]` of a non-empty list: None when the list is empty (an IndexError). */
  function First<T>(s: seq<T>): (r: Option<T>)
    ensures r.Some? <==> |s| > 0
    ensures r.Some? ==> r.value == s[0]
  {
    if |s| == 0 then None else Some(s[0])
  }

  /** The coordinates built from a geocoding hit; None when indexing a field raises KeyError. */
  function HitCoord(h: GeoHit): (r: Option<Coord>)
    ensures r.Some? <==> h.name.Some? && h.country.Some? && h.lat.Some? && h.lon.Some?
    ensures r.Some? ==> r.value.city == h.name.value && r.value.country == h.country.value
    ensures r.Some? ==> r.value.lat == h.lat.value && r.value.lon == h.lon.value
  {
    var name :- h.name;
    var country :- h.country;
    var lat :- h.lat;
    var lon :- h.lon;
    Some(Coord(name, country, lat, lon))
  }

  /** The fields `collect_current_weather` indexes with `[...]` and so requires. */
  predicate HasCurrentFields(b: Reading) {
    && b.dt.Some? && b.temp.Some? && b.feelsLike.Some? && b.humidity.Some?
    && b.pressure.Some? && b.clouds.Some?
    && |b.weather| > 0 && b.weather[0].main.Some? && b.weather[0].description.Some?
    && b.sunrise.Some? && b.sunset.Some?
  }

  /**
    The `weather_data` dict of `collect_current_weather`: None (an exception)
    when the fetch failed or a required field is missing; wind speed, wind
    direction and visibility default to 0; the place comes from `c`.
   */
  function CurrentRowOf(c: Coord, reply: WeatherReply): (r: Option<CurrentRow>)
    ensures r.Some? <==> reply.Fetched? && HasCurrentFields(reply.body)
    ensures r.Some? ==> && r.value.city == c.city && r.value.country == c.country
                        && r.value.latitude == c.lat && r.value.longitude == c.lon
    ensures r.Some? ==> && r.value.windSpeed == reply.body.windSpeed.GetOr(0.0)
                        && r.value.windDirection == reply.body.windDeg.GetOr(0)
                        && r.value.visibility == reply.body.visibility.GetOr(0)
    ensures r.Some? ==> && r.value.timestamp == reply.body.dt.value
                        && r.value.temperature == reply.body.temp.value
                        && r.value.feelsLike == reply.body.feelsLike.value
                        && r.value.humidity == reply.body.humidity.value
                        && r.value.pressure == reply.body.pressure.value
                        && r.value.cloudCover == reply.body.clouds.value
                        && r.value.weatherMain == reply.body.weather[0].main.value
                        && r.value.weatherDescription == reply.body.weather[0].description.value
                        && r.value.sunrise == reply.body.sunrise.value
                        && r.value.sunset == reply.body.sunset.value
  {
    if reply.FetchError? then None
    else
      var b := reply.body;
      var dt :- b.dt;
      var temp :- b.temp;
      var feelsLike :- b.feelsLike;
      var humidity :- b.humidity;
      var pressure :- b.pressure;
      var clouds :- b.clouds;
      var entry :- First(b.weather);
      var main :- entry.main;
      var description :- entry.description;
      var sunrise :- b.sunrise;
      var sunset :- b.sunset;
      Some(CurrentRow(c.city, c.country, c.lat, c.lon, dt, temp, feelsLike, humidity, pressure,
                      b.windSpeed.GetOr(0.0), b.windDeg.GetOr(0), b.visibility.GetOr(0), clouds,
                      main, description, sunrise, sunset))
  }

  /** `max(lo, min(hi, x))`. */
  function Clamp(lo: int, hi: int, x: int): (r: int)
    requires lo <= hi
    ensures lo <= r <= hi
    ensures lo <= x <= hi ==> r == x
    ensures x < lo ==> r == lo
    ensures hi < x ==> r == hi
  {
    if x < lo then lo else if hi < x then hi else x
  }

  /** `datetime.now() - timedelta(days=i+1)`, the clock read as `now`. */
  function HistoricalStamp(now: int, i: nat): (stamp: int)
    ensures stamp + (i + 1) * DaySeconds == now
    ensures stamp <= now - DaySeconds
  {
    now - (i + 1) * DaySeconds
  }

  /** The fields the historical derivation indexes with `[...]` and so requires. */
  predicate HasHistoricalFields(b: Reading) {
    && b.temp.Some? && b.feelsLike.Some? && b.humidity.Some? && b.pressure.Some? && b.clouds.Some?
    && |b.weather| > 0 && b.weather[0].main.Some? && b.weather[0].description.Some?
  }

  /** The bounds every synthetic historical row satisfies, whatever reading it came from. */
  predicate InBounds(r: HistoricalRow) {
    && 0 <= r.humidity <= 100
    && 0 <= r.cloudCover <= 100
    && 0 <= r.windDirection < 360
    && r.windSpeed >= 0.0
  }

  /**
    The `historical_data` dict for day offset `i`: one current reading perturbed
    by the offset. None (an exception) when a required field is missing.
   */
  function DeriveHistorical(c: Coord, b: Reading, i: nat, now: int): (r: Option<HistoricalRow>)
    ensures r.Some? <==> HasHistoricalFields(b)
    ensures r.Some? ==> InBounds(r.value)
    ensures r.Some? ==> 0 <= r.value.pressure - b.pressure.value <= 4
    ensures r.Some? ==> && r.value.weatherMain == b.weather[0].main.value
                        && r.value.weatherDescription == b.weather[0].description.value
    ensures r.Some? ==> r.value.city == c.city && r.value.latitude == c.lat && r.value.longitude == c.lon
    ensures r.Some? ==> r.value.timestamp + (i + 1) * DaySeconds == now
    ensures r.Some? && 0 <= b.humidity.value && b.humidity.value + 9 <= 100 ==>
              r.value.humidity - b.humidity.value == i % 10
    ensures r.Some? && 0 <= b.clouds.value && b.clouds.value + 19 <= 100 ==>
              r.value.cloudCover - b.clouds.value == i % 20
    ensures r.Some? && b.windSpeed.GetOr(0.0) >= 0.0 ==>
              r.value.windSpeed == b.windSpeed.GetOr(0.0) + (i as real) * 0.05
  {
    var temp :- b.temp;
    var feelsLike :- b.feelsLike;
    var humidity :- b.humidity;
    var pressure :- b.pressure;
    var clouds :- b.clouds;
    var entry :- First(b.weather);
    var main :- entry.main;
    var description :- entry.description;
    var speed := b.windSpeed.GetOr(0.0) + (i as real) * 0.05;
    Some(HistoricalRow(
      c.city, c.lat, c.lon,
      HistoricalStamp(now, i),
      temp + (i as real) * 0.1,
      feelsLike + (i as real) * 0.1,
      Clamp(0, 100, humidity + i % 10),
      pressure + i % 5,
      if speed < 0.0 then 0.0 else speed,
      (b.windDeg.GetOr(0) + i * 2) % 360,
      Clamp(0, 100, clouds + i % 20),
      main,
      description))
  }

  /** A reply good enough for a current row is good enough for every historical day. */
  lemma CurrentFieldsSuffice(c: Coord, b: Reading, i: nat, now: int)
    requires HasCurrentFields(b)
    ensures DeriveHistorical(c, b, i, now).Some?
  {
  }
}
