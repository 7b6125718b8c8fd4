/** The main program of py/control.py (lines 234-253): start-up, and one pass
    of the loop that ties threshold, power, weather and relay together. */
module Control {
  import opened Wrappers
  import opened Numeric
  import opened Settings
  import opened ScalingFactors
  import opened Threshold
  import opened Power
  import opened Weather
  import opened Switch

  /** What `log(power, thresh)` writes for a cycle (the time stamp aside). */
  datatype LogEntry = LogEntry(power: int, threshold: int)

  /** The controller was set up from `config`. */
  predicate ConfiguredBy(ctl: SwitchController, config: Config)
    reads ctl
  {
    config.minimumOnTime > 0.0 && ctl.periods == Periods(config)
    && ctl.minimumOnTime == config.minimumOnTime && ctl.interval == config.interval
  }

  /** Start-up: load the scaling factors, then `counter = 0` and
      `periods = int(maximum_on_time / minimum_on_time)`. */
  method Start(config: Config, dryRun: bool, lines: seq<string>, parse: string -> Option<real>)
    returns (ctl: SwitchController, table: ScalingTable)
    requires config.minimumOnTime > 0.0
    ensures fresh(ctl) && fresh(table)
    ensures ctl.Valid() && ConfiguredBy(ctl, config) && ctl.dryRun == dryRun && ctl.State() == Initial
    ensures table.factors == ParsedLines(lines[..LinesBeforeEof(lines)], parse)
  {
    table := new ScalingTable();
    table.Load(lines, parse);
    ctl := new SwitchController(Periods(config), dryRun, config.minimumOnTime, config.interval);
  }

  /** One pass of the main loop for day `yday`, given the outcome of the
      register read and of the forecast query. */
  method LoopBody(ctl: SwitchController, table: ScalingTable, config: Config, yday: DayOfYear,
                  regs: Option<seq<Word>>, fetched: Option<Forecast>)
    returns (entry: LogEntry, engaged: bool, dwell: real)
    requires ctl.Valid() && ConfiguredBy(ctl, config) && WellFormedReply(regs)
    modifies ctl
    ensures ctl.Valid()
    ensures entry == LogEntry(ReportedPower(regs), CurrentThreshold(config.threshold, table.factors, yday))
    ensures engaged == Eligible(old(ctl.counter), ctl.periods,
      CycleInput(entry.power, entry.threshold, Prediction(config.weatherEnabled, config.minimumOnTime, fetched)))
    ensures ctl.State() == Step(old(ctl.State()), ctl.periods, ctl.dryRun,
      CycleInput(entry.power, entry.threshold, Prediction(config.weatherEnabled, config.minimumOnTime, fetched)))
  {
    var thresh := CurrentThreshold(config.threshold, table.factors, yday);
    var power := ReportedPower(regs);
    var weatherOk := Predict(config.weatherEnabled, config.minimumOnTime, power > thresh, fetched);
    entry := LogEntry(power, thresh);
    engaged, dwell := ctl.Cycle(power, thresh, weatherOk);
  }

  /** A failed register read switches the relay off and clears the counter,
      provided the threshold cannot be negative (a non-negative base and no
      negative scaling factor). */
  lemma FailedReadDisengages(s: SwitchState, periods: int, dryRun: bool, base: int, factors: seq<real>,
                             yday: DayOfYear, weatherOk: bool)
    requires Consistent(s, periods, dryRun)
    requires 0 <= base && forall k :: 0 <= k < |factors| ==> 0.0 <= factors[k]
    ensures Step(s, periods, dryRun, CycleInput(ReportedPower(None), CurrentThreshold(base, factors, yday), weatherOk))
      == SwitchState(0, false)
  {
  }

  /** A negative factor in the file can make the threshold negative, and then
      even a failed read (0 W) counts as surplus and engages the relay. */
  lemma NegativeFactorEngagesOnFailedRead()
    ensures Step(Initial, 5, false, CycleInput(ReportedPower(None), CurrentThreshold(1200, [1.0, -1.0], 1), true))
      == SwitchState(1, true)
  {
  }

  /** When every line of the scaling file is non-empty and parses, day `yday`
      is scaled by the value on line `yday + 1` of the file (counting from 1),
      and a day past the end of the file by 1: the first line serves no day. */
  lemma DayUsesLineAfterIt(lines: seq<string>, parse: string -> Option<real>, yday: DayOfYear)
    requires forall k :: 0 <= k < |lines| ==> lines[k] != "" && parse(Strip(lines[k])).Some?
    ensures yday < |lines| ==>
      ScalingFactor(ParsedLines(lines[..LinesBeforeEof(lines)], parse), yday) == parse(Strip(lines[yday])).value
    ensures |lines| <= yday ==> ScalingFactor(ParsedLines(lines[..LinesBeforeEof(lines)], parse), yday) == 1.0
  {
    AllLinesRead(lines);
    ParsedLinesLength(lines, parse);
    if yday < |lines| {
      ParsedLinesLength(lines[..yday], parse);
      ParsedLineKept(lines, yday, parse);
    }
  }
}
