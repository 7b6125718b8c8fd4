/** The configuration constants at the head of py/control.py. */
module Settings {
  import opened Numeric

  /** Durations are in minutes, the threshold in Watt; `weatherEnabled` is
      `ow_appid is not None` (also false when the HTTP/JSON libraries are
      missing). */
  datatype Config = Config(
    threshold: int,
    interval: real,
    minimumOnTime: real,
    maximumOnTime: real,
    weatherEnabled: bool)

  /** The values the program ships with. */
  const Defaults := Config(1200, 0.2, 1.0, 5.0, true)

  /** `periods = int(maximum_on_time / minimum_on_time)`: the number of
      minimum-on periods the relay may stay on in a row. */
  function Periods(c: Config): (p: int)
    requires c.minimumOnTime > 0.0
    ensures 0.0 <= c.maximumOnTime ==> 0 <= p && p as real * c.minimumOnTime <= c.maximumOnTime
    ensures 0.0 <= c.maximumOnTime ==> c.maximumOnTime < (p + 1) as real * c.minimumOnTime
    ensures c.minimumOnTime <= c.maximumOnTime ==> 1 <= p
  {
    var q := c.maximumOnTime / c.minimumOnTime;
    assert c.maximumOnTime == q * c.minimumOnTime;
    var p := Trunc(q);
    assert 0.0 <= c.maximumOnTime ==> 0.0 <= q && c.maximumOnTime < (p + 1) as real * c.minimumOnTime by {
      if 0.0 <= c.maximumOnTime {
        if q < 0.0 { ScaleStrict(q, 0.0, c.minimumOnTime); }
        ScaleStrict(q, (p + 1) as real, c.minimumOnTime);
      }
    }
    p
  }

  lemma ScaleStrict(x: real, y: real, k: real)
    requires x < y && 0.0 < k
    ensures x * k < y * k
  {
  }

  /** With the shipped settings (1 and 5 minutes) the relay may stay on for
      five periods in a row. */
  lemma DefaultPeriods()
    ensures Periods(Defaults) == 5
  {
  }
}
