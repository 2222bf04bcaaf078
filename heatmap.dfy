/**
 * The data-gathering loop of `heatMap` in `piserv/graphing.py`: for each
 * slave in `IP_ADDRESSES`, in order, query the last 72000 seconds and keep
 * the last element of what came back.
 *
 * The source does not handle a failed query: `dbQuery` then returns its
 * traceback text, and `data[-1]` takes that text's final character. The
 * model keeps that case visible as the `TracebackTail` entry.
 */
module Heatmap {
  import opened Telemetry
  import opened Query

  /** The look-back window of every heatmap query, in seconds (20 hours). */
  const HeatmapWindow: int := 72000

  /** One element of `latest`. */
  datatype Entry =
    | Latest(reading: Reading)  // the last reading of a successful query
    | TracebackTail             // the last character of a failed query's error text

  /** `data[-1]` for either kind of `dbQuery` result; indexing an empty list would raise. */
  function LastOf(data: Result<seq<Reading>>): Entry
    requires data.Ok? ==> data.value != []
  {
    match data
    case Ok(rs) => Latest(rs[|rs| - 1])
    case Err(_) => TracebackTail
  }

  /** The entry the loop appends for slave `ip`. */
  function EntryFor(store: Store, ip: string, sensorType: string, now: int): Entry {
    LastOf(DbQuery(store, ip, HeatmapWindow, sensorType, now))
  }

  /** The whole `latest` list: one entry per slave, in `IP_ADDRESSES` order. */
  function LatestEntries(store: Store, sensorType: string, now: int): (es: seq<Entry>)
    ensures |es| == |IpAddresses|
  {
    seq(|IpAddresses|, k requires 0 <= k < |IpAddresses| => EntryFor(store, IpAddresses[k], sensorType, now))
  }

  /** `for ip in IP_ADDRESSES: data = dbQuery(...); latest.append(data[-1])`. */
  method CollectLatest(store: Store, sensorType: string, now: int) returns (latest: seq<Entry>)
    ensures latest == LatestEntries(store, sensorType, now)
  {
    latest := [];
    for i := 0 to |IpAddresses|
      invariant |latest| == i
      invariant forall k :: 0 <= k < i ==> latest[k] == EntryFor(store, IpAddresses[k], sensorType, now)
    {
      var data := DbQuery(store, IpAddresses[i], HeatmapWindow, sensorType, now);
      assert data.Ok? ==> |data.value| >= 2;
      latest := latest + [LastOf(data)];
    }
  }

  /**
   * For an accepted sensor type, the entry of a slave is garbage exactly when
   * that slave has fewer than two readings in the window; otherwise it is
   * that slave's newest reading in the window.
   */
  lemma EntryForIsNewest(store: Store, ip: string, sensorType: string, now: int)
    requires sensorType in AcceptedSensors
    ensures var e := EntryFor(store, ip, sensorType, now);
            && (e == TracebackTail <==> |Window(store, ip, HeatmapWindow, sensorType, now)| < 2)
            && (e.Latest? ==>
                  && e.reading in Collection(store, sensorType)
                  && e.reading.ipAddress == ip
                  && e.reading.time > now - HeatmapWindow
                  && forall x :: Matches(x, ip, now - HeatmapWindow) && x in Collection(store, sensorType)
                                 ==> x.time <= e.reading.time)
  {
    var q := DbQuery(store, ip, HeatmapWindow, sensorType, now);
    if q.Ok? {
      var last := q.value[|q.value| - 1];
      assert EntryFor(store, ip, sensorType, now) == Latest(last);
      assert last in Collection(store, sensorType) && last.ipAddress == ip && last.time > now - HeatmapWindow;
      forall x | Matches(x, ip, now - HeatmapWindow) && x in Collection(store, sensorType)
        ensures x.time <= last.time
      {
        LastIsNewest(store, ip, HeatmapWindow, sensorType, now, x);
      }
    } else {
      assert EntryFor(store, ip, sensorType, now) == TracebackTail;
    }
  }

  /** The same, for the k-th entry of the heatmap's `latest` list and slave `IP_ADDRESSES[k]`. */
  lemma HeatmapEntry(store: Store, sensorType: string, now: int, k: int)
    requires sensorType in AcceptedSensors && 0 <= k < |IpAddresses|
    ensures var e := LatestEntries(store, sensorType, now)[k];
            var ip := IpAddresses[k];
            && (e == TracebackTail <==> |Window(store, ip, HeatmapWindow, sensorType, now)| < 2)
            && (e.Latest? ==>
                  && e.reading in Collection(store, sensorType)
                  && e.reading.ipAddress == ip
                  && e.reading.time > now - HeatmapWindow
                  && forall x :: Matches(x, ip, now - HeatmapWindow) && x in Collection(store, sensorType)
                                 ==> x.time <= e.reading.time)
  {
    EntryForIsNewest(store, IpAddresses[k], sensorType, now);
  }

  /** When every slave has at least two readings in the window, no entry is garbage. */
  lemma AllQueriesSucceed(store: Store, sensorType: string, now: int)
    requires sensorType in AcceptedSensors
    requires forall ip :: ip in IpAddresses ==> |Window(store, ip, HeatmapWindow, sensorType, now)| >= 2
    ensures forall k :: 0 <= k < |IpAddresses| ==> LatestEntries(store, sensorType, now)[k].Latest?
  {
    forall k | 0 <= k < |IpAddresses|
      ensures LatestEntries(store, sensorType, now)[k].Latest?
    {
      HeatmapEntry(store, sensorType, now, k);
    }
  }
}
