/**
 * The two entry points of `piserv/graphing.py` that change the image
 * directory: `graphFunc` and `heatMap`. Both refuse an unknown sensor type
 * before touching the directory; otherwise both empty it and, unless
 * `graphFunc` was given no readings, save exactly one figure, named by the
 * time stamp they return.
 */
module Graphing {
  import opened Telemetry
  import opened Images
  import Chart
  import Heatmap

  /**
   * `graphFunc(data, sensor_type, time_period)`, saving at time `stamp`.
   * The directory is emptied before the time stamps are converted to dates,
   * and converting an empty series raises: with no readings the call fails
   * after the clear, leaving no figure at all.
   */
  method GraphFunc(dir: ImageDir, data: seq<Reading>, sensorType: string, timePeriod: int, stamp: Stamp)
    returns (r: Result<Stamp>)
    modifies dir
    ensures sensorType !in AcceptedSensors ==>
              r == Err(InvalidSensorType) && dir.images == old(dir.images)
    ensures sensorType in AcceptedSensors && data == [] ==>
              r == Err(NoPoints) && dir.images == map[]
    ensures sensorType in AcceptedSensors && data != [] ==>
              && r == Ok(stamp)
              && dir.images == map[stamp := LineChart(Chart.PlotOf(data, sensorType, timePeriod).value)]
    ensures old(dir.SingleSlot()) ==> dir.SingleSlot()
  {
    var plot := Chart.PlotOf(data, sensorType, timePeriod);
    if plot.Err? {
      return Err(plot.error);
    }
    dir.RemoveAll();
    if data == [] {
      return Err(NoPoints);
    }
    dir.Save(stamp, LineChart(plot.value));
    r := Ok(stamp);
  }

  /**
   * `heatMap(sensor_type)`, saving at time `stamp`. `latest` is the list the
   * source builds and then leaves unused by the drawing.
   */
  method HeatMap(dir: ImageDir, store: Store, sensorType: string, now: int, stamp: Stamp)
    returns (r: Result<Stamp>, latest: seq<Heatmap.Entry>)
    modifies dir
    ensures sensorType !in AcceptedSensors ==>
              r == Err(InvalidSensorType) && latest == [] && dir.images == old(dir.images)
    ensures sensorType in AcceptedSensors ==>
              && r == Ok(stamp)
              && latest == Heatmap.LatestEntries(store, sensorType, now)
              && dir.images == map[stamp := GardenMap]
    ensures old(dir.SingleSlot()) ==> dir.SingleSlot()
  {
    if sensorType !in AcceptedSensors {
      return Err(InvalidSensorType), [];
    }
    dir.RemoveAll();
    latest := Heatmap.CollectLatest(store, sensorType, now);
    dir.Save(stamp, GardenMap);
    r := Ok(stamp);
  }
}
