/** `get_weather_prediction` (py/control.py:156-195): an optional check that
    the weather stays good enough for the next period. The HTTP request and
    the JSON decoding are not modelled: their outcome is a parameter. */
module Weather {
  import opened Wrappers
  import opened Numeric

  /** One entry of the forecast's `hourly` list (Unix time, cloud cover in %). */
  datatype Hour = Hour(dt: int, clouds: int)

  /** The forecast's `current` record (Unix times). */
  datatype Current = Current(dt: int, sunset: int)

  /** The decoded reply of the forecast service. */
  datatype Forecast = Forecast(current: Current, hourly: seq<Hour>)

  /** Index of the first hourly entry whose time is at or after `now`. */
  function FirstAtOrAfter(hourly: seq<Hour>, now: int): (r: Option<nat>)
    ensures r.Some? ==> r.value < |hourly| && now <= hourly[r.value].dt
    ensures r.Some? ==> forall j :: 0 <= j < r.value ==> hourly[j].dt < now
    ensures r.None? ==> forall j :: 0 <= j < |hourly| ==> hourly[j].dt < now
    ensures forall j :: 0 <= j < |hourly| && now <= hourly[j].dt ==> r.Some? && r.value <= j
  {
    if hourly == [] then None
    else if now <= hourly[0].dt then Some(0)
    else match FirstAtOrAfter(hourly[1..], now)
      case None => None
      case Some(i) => Some(i + 1)
  }

  /** `int((sunset - dt) / 60)`: whole minutes until sunset, truncated toward zero. */
  function SundownMinutes(c: Current): (m: int)
    ensures c.dt <= c.sunset ==> 0 <= m && 60 * m <= c.sunset - c.dt < 60 * (m + 1)
    ensures c.sunset < c.dt ==> m <= 0 && 60 * (m - 1) < c.sunset - c.dt <= 60 * m
  {
    Trunc((c.sunset - c.dt) as real / 60.0)
  }

  /** The gate's answer. `fetched` is `None` when the request, the decoding or
      a field lookup raised; every such failure, a disabled gate and a
      forecast without a current-or-later entry all admit. */
  function Prediction(enabled: bool, minimumOnTime: real, fetched: Option<Forecast>): (ok: bool)
    ensures !enabled || fetched.None? ==> ok
    ensures !ok ==> FirstAtOrAfter(fetched.value.hourly, fetched.value.current.dt).Some?
  {
    if !enabled || fetched.None? then true
    else
      var f := fetched.value;
      match FirstAtOrAfter(f.hourly, f.current.dt)
      case None => true
      case Some(i) => SundownMinutes(f.current) as real > 2.0 * minimumOnTime && f.hourly[i].clouds < 100
  }

  /** The query as the source runs it. `overThreshold` is accepted and has no
      influence on the answer. */
  method Predict(enabled: bool, minimumOnTime: real, overThreshold: bool, fetched: Option<Forecast>)
    returns (ok: bool)
    ensures ok == Prediction(enabled, minimumOnTime, fetched)
  {
    if !enabled {
      return true;
    }
    if fetched.None? {
      // the exception is caught, reported, and the gate admits
      return true;
    }
    var current := fetched.value.current;
    var hourly := fetched.value.hourly;
    var nextHour: Option<Hour> := None;
    var currentTime := current.dt;
    var i := 0;
    while i < |hourly|
      invariant 0 <= i <= |hourly|
      invariant forall j :: 0 <= j < i ==> hourly[j].dt < currentTime
      invariant nextHour.None?
    {
      var h := hourly[i];
      var hTime := h.dt;
      if hTime < currentTime {
        i := i + 1;
        continue;
      }
      if currentTime - hTime < 3600 {
        nextHour := Some(h);
        break;
      }
      // `if next_hour is None: return True` follows here in the source; the
      // test above holds for every entry at or after the current time, so
      // control never gets this far
      assert false;
    }
    var sundown := SundownMinutes(current);
    if nextHour.None? {
      // `next_hour['clouds']` raises on None; the gate admits
      return true;
    }
    var clouds := nextHour.value.clouds;
    ok := sundown as real > 2.0 * minimumOnTime;
    ok := ok && clouds < 100;
  }

  /** The gate refuses exactly when it is enabled, the forecast arrived, it
      has an entry at or after the current time, and the first such entry
      either comes too close to sunset (no more than two minimum-on periods
      left) or forecasts full cloud cover. */
  lemma RefusalIff(enabled: bool, minimumOnTime: real, fetched: Option<Forecast>)
    ensures !Prediction(enabled, minimumOnTime, fetched) <==>
      enabled && fetched.Some? &&
      exists i :: 0 <= i < |fetched.value.hourly| &&
        fetched.value.current.dt <= fetched.value.hourly[i].dt &&
        (forall j :: 0 <= j < i ==> fetched.value.hourly[j].dt < fetched.value.current.dt) &&
        (SundownMinutes(fetched.value.current) as real <= 2.0 * minimumOnTime || fetched.value.hourly[i].clouds >= 100)
  {
  }

  /** Fail-open cases: a disabled gate, a failed query, and a forecast whose
      entries all lie before the current time each admit. */
  lemma FailOpen(enabled: bool, minimumOnTime: real, fetched: Option<Forecast>)
    requires !enabled || fetched.None? ||
      forall j :: 0 <= j < |fetched.value.hourly| ==> fetched.value.hourly[j].dt < fetched.value.current.dt
    ensures Prediction(enabled, minimumOnTime, fetched)
  {
  }

  /** The "within the hour" test does not limit how far ahead the entry used
      may lie: a fully clouded forecast two hours ahead still refuses. */
  lemma DistantEntryStillDecides()
    ensures !Prediction(true, 1.0, Some(Forecast(Current(0, 36000), [Hour(7200, 100)])))
  {
  }

  /** Near sunset the gate refuses even under a clear sky: with a minimum-on
      time of one minute, sunset two minutes away refuses and three admits. */
  lemma SundownBoundary()
    ensures !Prediction(true, 1.0, Some(Forecast(Current(0, 179), [Hour(0, 0)])))
    ensures Prediction(true, 1.0, Some(Forecast(Current(0, 180), [Hour(0, 0)])))
  {
  }
}
