/**
 * What `graphFunc` in `piserv/graphing.py` puts on a chart before handing it
 * to the plotting library: the y-axis label, the (time, value) points in
 * time order, and the tick spacing of the time axis. Drawing is left to the
 * renderer; the `Plot` value is what it is asked to draw.
 */
module Chart {
  import opened Telemetry
  import opened StableSort
  import Query

  /** Windows shorter than this get minor ticks every four hours (two days, in seconds). */
  const TwoDays: int := 172800

  /** Windows shorter than this get a major tick every day (ten days, in seconds). */
  const TenDays: int := 864000

  const TemperatureLabel: string := "Temperature ($^{\\circ}$C)"

  /** Spacing of the major ticks on the time axis. */
  datatype MajorTicks = EveryDay | EveryFiveDays

  /** The tick locators installed on the time axis. */
  datatype Ticks = Ticks(minorEveryFourHours: bool, major: MajorTicks)

  /** What the renderer is asked to draw: label, x (times) and y (values) series, ticks. */
  datatype Plot = Plot(axisLabel: string, xs: seq<int>, ys: seq<int>, ticks: Ticks)

  /** The friendly name shown on the y axis and in the title. */
  function AxisLabel(sensorType: string): string {
    if sensorType == "temperature" then TemperatureLabel
    else if sensorType == "humidity" then "Humidity"
    else ""
  }

  /**
   * The two independent tests on `time_period`: under two days the minor
   * four-hour ticks are added, and the major tier is daily under ten days
   * and five-daily otherwise.
   */
  function TickTiers(timePeriod: int): (t: Ticks)
    ensures t.minorEveryFourHours <==> timePeriod < TwoDays
    ensures t.major == EveryDay <==> timePeriod < TenDays
    ensures t.major == EveryFiveDays <==> timePeriod >= TenDays
    ensures t.minorEveryFourHours ==> t.major == EveryDay
  {
    Ticks(timePeriod < TwoDays, if timePeriod < TenDays then EveryDay else EveryFiveDays)
  }

  function Point(r: Reading): (int, int) {
    (r.time, r.value)
  }

  function PointTime(p: (int, int)): int {
    p.0
  }

  function PointValue(p: (int, int)): int {
    p.1
  }

  /** The points of the chart: `sorted([(x["time"], x["value"]) for x in data], key=lambda x: x[0])`. */
  function Points(data: seq<Reading>): seq<(int, int)> {
    SortBy(Map(data, Point), PointTime)
  }

  /** The chart `graphFunc(data, sensor_type, time_period)` draws, or the reason it draws none. */
  function PlotOf(data: seq<Reading>, sensorType: string, timePeriod: int): (r: Result<Plot>)
    ensures r.Err? <==> sensorType !in AcceptedSensors
    ensures r.Err? ==> r.error == InvalidSensorType
    ensures r.Ok? ==> |r.value.xs| == |r.value.ys| == |data| && SortedBy(r.value.xs, x => x)
  {
    if sensorType !in AcceptedSensors then Err(InvalidSensorType)
    else
      var points := Points(data);
      Ok(Plot(AxisLabel(sensorType), Map(points, PointTime), Map(points, PointValue), TickTiers(timePeriod)))
  }

  /** Labels: temperature and humidity are named, the other accepted types get an empty label. */
  lemma PlotLabel(data: seq<Reading>, sensorType: string, timePeriod: int)
    requires sensorType in AcceptedSensors
    ensures PlotOf(data, sensorType, timePeriod).Ok?
    ensures var name := PlotOf(data, sensorType, timePeriod).value.axisLabel;
            && (sensorType == "temperature" ==> name == TemperatureLabel)
            && (sensorType == "humidity" ==> name == "Humidity")
            && (sensorType in {"pressure", "moisture"} ==> name == "")
  {
  }

  /**
   * The x and y series are the time and value columns of the input's readings
   * sorted by time (stably), so point i is reading i of that order.
   */
  lemma {:induction false} PlotFollowsSortedReadings(data: seq<Reading>, sensorType: string, timePeriod: int)
    requires sensorType in AcceptedSensors
    ensures var p := PlotOf(data, sensorType, timePeriod).value;
            var sorted := SortBy(data, Time);
            forall i :: 0 <= i < |data| ==> p.xs[i] == sorted[i].time && p.ys[i] == sorted[i].value
  {
    SortByMap(data, Point, Time, PointTime);
  }

  /** Each (x, y) point is one of the input's (time, value) pairs, each used as often as it occurs. */
  lemma PlotPointsArePermutation(data: seq<Reading>, sensorType: string, timePeriod: int)
    requires sensorType in AcceptedSensors
    ensures var p := PlotOf(data, sensorType, timePeriod).value;
            multiset(Map(data, Point)) == multiset(seq(|p.xs|, i requires 0 <= i < |p.xs| => (p.xs[i], p.ys[i])))
  {
    var p := PlotOf(data, sensorType, timePeriod).value;
    var zipped := seq(|p.xs|, i requires 0 <= i < |p.xs| => (p.xs[i], p.ys[i]));
    assert zipped == Points(data);
  }

  /** Readings already in time order are plotted in exactly that order. */
  lemma ChartOfSorted(rs: seq<Reading>, sensorType: string, timePeriod: int)
    requires sensorType in AcceptedSensors && SortedBy(rs, Time)
    ensures var p := PlotOf(rs, sensorType, timePeriod).value;
            p.xs == Map(rs, Time) && |p.ys| == |rs|
            && forall i :: 0 <= i < |rs| ==> p.ys[i] == rs[i].value
  {
    SortBySorted(rs, Time);
    PlotFollowsSortedReadings(rs, sensorType, timePeriod);
  }

  /**
   * Fed the result of a successful `dbQuery`, the chart plots the readings in
   * exactly the order the query returned them.
   */
  lemma ChartOfQuery(store: Store, ip: string, timePeriod: int, sensorType: string, now: int)
    requires Query.DbQuery(store, ip, timePeriod, sensorType, now).Ok?
    ensures var rs := Query.DbQuery(store, ip, timePeriod, sensorType, now).value;
            var p := PlotOf(rs, sensorType, timePeriod).value;
            p.xs == Map(rs, Time) && |p.ys| == |rs|
            && forall i :: 0 <= i < |rs| ==> p.ys[i] == rs[i].value
  {
    ChartOfSorted(Query.DbQuery(store, ip, timePeriod, sensorType, now).value, sensorType, timePeriod);
  }
}
