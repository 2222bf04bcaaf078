/**
 * The data the telemetry service works on: sensor readings as they sit in the
 * `sensordata` database, one collection per sensor type, and the fixed
 * configuration of `piserv/graphing.py`.
 */
module Telemetry {

  /** The sensor types the service accepts (`ACCEPTED_SENSORS`). */
  const AcceptedSensors: seq<string> := ["temperature", "humidity", "pressure", "moisture"]

  /** The slave Pis whose latest readings make up the heatmap (`IP_ADDRESSES`). */
  const IpAddresses: seq<string> := ["192.168.0.10", "192.168.0.20", "192.168.0.30", "192.168.0.40", "192.168.0.50"]

  /**
   * One stored document. `time` is the POSIX time of capture, in whole
   * seconds; `id` is the digest the ingestion side computes, never checked.
   */
  datatype Reading = Reading(ipAddress: string, site: string, time: int, value: int, id: string)

  /** The sort key of `dbQuery`: `lambda x: x["time"]`. */
  function Time(r: Reading): int {
    r.time
  }

  /** The database: collection name (a sensor type) to its documents, in store order. */
  type Store = map<string, seq<Reading>>

  /** `mydb[sensor_type]`: a collection that was never written to reads as empty. */
  function Collection(store: Store, sensorType: string): seq<Reading> {
    if sensorType in store then store[sensorType] else []
  }

  /**
   * The failures of the service. `dbQuery`, `graphFunc` and `heatMap` return
   * the traceback text of the first two in place of a result; the third is
   * the exception `graphFunc` raises when asked to chart no readings.
   */
  datatype QueryError =
    | InvalidSensorType  // the sensor type is not in `ACCEPTED_SENSORS`
    | InsufficientData   // fewer than two readings matched
    | NoPoints           // the date conversion of an empty series raised

  datatype Result<T> = Ok(value: T) | Err(error: QueryError)
}
