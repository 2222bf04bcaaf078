# Garden telemetry service: query, chart, heatmap and device dispatch

This project models two parts of a garden-monitoring system built from
Raspberry Pis:

- **The graphing service** (`piserv/graphing.py`). Sensor readings sit in a
  document database, with one collection per sensor type.
  - `dbQuery` returns one slave Pi's readings from the last `time_period`
    seconds, ordered by time. It fails when the sensor type is unknown or
    when fewer than two readings match.
  - `graphFunc` turns such a list into a line chart. Given no readings, it
    fails after it has emptied the image directory.
  - `heatMap` collects the latest reading of every slave and draws the
    garden map.
  - Both drawing functions empty the `images/` directory first and save one
    figure, named by the POSIX time at which it was saved.
- **The master API** (`master.py`).
  - A constant table `DEVICES` maps the hex form of each device's UTF-8
    friendly name to its address and allowed HTTP methods.
  - `/api/device/<uid>` answers 404 for an unknown device, 400 for a method
    the device does not allow, and 200 with the device record otherwise.
  - `/` always answers 403.

How the model is laid out:

- The database is a value (`Telemetry.Store`: a collection name maps to its
  documents, in store order).
- The clock reading `now` and the save stamp are parameters.
- `dbQuery` is a pure function, `Query.DbQuery`.
- Python's stable `sorted` is a generic stable insertion sort,
  `StableSort.SortBy`. It is specified independently as "ordered by key,
  and for each key value the elements keep their input order", and those
  two facts are proved to determine it uniquely.
- The image directory is a class whose field the two drawing entry points
  update in place.
- The device keys are computed from the friendly names by a UTF-8 encoder
  and a lowercase hex encoder. Both have proved left inverses, so distinct
  names give distinct keys.

Three behaviours of the code that the model keeps as they are:

- **A failed slave query in `heatMap` is not skipped.** The loop appends
  `data[-1]` of whatever `dbQuery` returned. For a failure that is the last
  character of the traceback text. The model keeps that entry as the
  explicit `Heatmap.TracebackTail` case.
- **The empty-label fallback never sees an unknown type.** `graphFunc`
  refuses unknown sensor types before it computes a label. Only
  "pressure" and "moisture" reach the empty label.
- **Readings with equal times keep store order.** The sort key is the time
  alone, and no secondary key is used.

## Model

| member | source | states |
|---|---|---|
| Query.DbQuery | piserv/graphing.py:19-83 | An unknown sensor type gives the invalid-sensor error whatever the store holds. The insufficient-data error comes exactly when the type is accepted and fewer than two readings match. Success comes exactly when the type is accepted and at least two match. A success holds at least two readings, sorted by time, each stored in that sensor's collection, from that slave, and strictly newer than `now - time_period`. |
| Query.Find | piserv/graphing.py:51-61 | `find(query)` returns only stored documents that match the slave and time bound, and every matching stored document is returned. |
| Query.FindCounts | piserv/graphing.py:59-61 | Each matching document appears in the result as often as it is stored; a non-matching one never appears. |
| Query.InvalidSensorIgnoresStore | piserv/graphing.py:34-38 | The sensor check comes before any database access: for an unknown type two different stores give the same answer. |
| Query.DbQueryExact | piserv/graphing.py:51-77 | A successful result is a permutation of the matching documents, with each document's multiplicity equal to its stored multiplicity. |
| Query.DbQueryComplete | piserv/graphing.py:51-77 | Every stored reading of the slave inside the window is in a successful result. |
| Query.DbQueryStable | piserv/graphing.py:76 | Readings with equal time keep the order in which the store returned them. |
| Query.LastIsNewest | piserv/graphing.py:76-77 | The last element of a successful result is at least as new as every matching stored reading. |
| StableSort.SortBy | piserv/graphing.py:76 | The sort returns a permutation of its input, of the same length, ordered non-decreasingly by the key. |
| StableSort.SortByStable | piserv/graphing.py:76 | The sort is stable: for every key value, the elements with that key keep their input order. |
| StableSort.SortByUnique | piserv/graphing.py:76 | Any sequence ordered by the key that keeps every key class in input order is exactly the sort's result. |
| StableSort.SortByMap | piserv/graphing.py:174-175 | Projecting through a key-preserving map and then sorting equals sorting and then projecting. |
| StableSort.SortBySorted | piserv/graphing.py:175 | Sorting an already ordered sequence leaves it unchanged. |
| Chart.TickTiers | piserv/graphing.py:200-208 | Four-hourly minor ticks are added exactly when the window is under 172800 s. Major ticks are daily exactly when the window is under 864000 s and five-daily otherwise. So minor ticks only ever come with daily major ticks. |
| Chart.PlotOf | piserv/graphing.py:151-177 | The chart is refused with the invalid-sensor error exactly when the type is not accepted. Otherwise the x and y series have one entry per input reading and the x series is non-decreasing. |
| Chart.PlotLabel | piserv/graphing.py:158-166 | Temperature gets "Temperature ($^{\circ}$C)", humidity gets "Humidity", and pressure and moisture get the empty label. |
| Chart.PlotFollowsSortedReadings | piserv/graphing.py:174-177 | Point i of the chart is the time and value of reading i after a stable sort of the input by time. |
| Chart.PlotPointsArePermutation | piserv/graphing.py:174-177 | The plotted (x, y) pairs are a permutation of the input's (time, value) pairs. |
| Chart.ChartOfSorted | piserv/graphing.py:174-177 | Readings already in time order are plotted in that order: x is their times and y their values. |
| Chart.ChartOfQuery | piserv/graphing.py:76-77 | Charting a successful `dbQuery` result plots its readings in exactly the order returned. |
| Heatmap.LatestEntries | piserv/graphing.py:110-113 | `latest` has one entry per address in `IP_ADDRESSES`. |
| Heatmap.CollectLatest | piserv/graphing.py:110-113 | The loop's list is, entry by entry and in address order, the last element of each slave's 72000-second query. |
| Heatmap.EntryForIsNewest | piserv/graphing.py:112-113 | For an accepted type, a slave's entry is the traceback garbage exactly when it has fewer than two readings in the last 72000 s. Otherwise the entry is a stored reading of that slave inside the window, and no matching reading is newer. |
| Heatmap.HeatmapEntry | piserv/graphing.py:110-113 | Entry k of `latest` has the properties above for the slave `IP_ADDRESSES[k]`. |
| Heatmap.AllQueriesSucceed | piserv/graphing.py:110-113 | If every slave has two or more readings in the window, no entry of `latest` is garbage. |
| Images.ImageDir.RemoveAll | piserv/graphing.py:171 | `rm -f images/*` leaves the directory empty. |
| Images.ImageDir.Save | piserv/graphing.py:223 | Saving under a stamp sets that file to the figure, replaces any file of that name and leaves the others as they were. |
| Graphing.GraphFunc | piserv/graphing.py:137-226 | An unknown type returns the error and leaves the directory untouched. An accepted type with no readings fails after the directory has been emptied, because the date conversion of an empty series raises, and leaves the directory empty. Otherwise the directory ends up holding exactly one file, the chart of the data under the returned stamp. A directory holding at most one file keeps that property. |
| Graphing.HeatMap | piserv/graphing.py:85-135 | An unknown type returns the error before the directory is cleared or any query runs. Otherwise `latest` is the per-slave list above and the directory holds exactly the garden map under the returned stamp. A directory holding at most one file keeps that property. |
| DeviceKeys.Utf8Char | master.py:12 | One character encodes to between one and four bytes. |
| DeviceKeys.Utf8 | master.py:12 | `str.encode()` yields at least one and at most four bytes per character. |
| DeviceKeys.Utf8CharDecodes | master.py:12 | The lead byte of one character's encoding announces the encoding's length, and the bytes decode back to the character's code point. |
| DeviceKeys.Utf8RoundTrip | master.py:12 | Decoding the UTF-8 encoding of any string gives the string back. |
| DeviceKeys.Hex | master.py:12 | `bytes.hex()` writes exactly two characters per byte. |
| DeviceKeys.HexIsLowercase | master.py:12 | Every character of the hex form is one of `0123456789abcdef`. |
| DeviceKeys.UnhexHex | master.py:12 | Reading the hex form back gives the original bytes. |
| DeviceKeys.DeviceKeyShape | master.py:11-24 | A device key is lowercase hex, 2 to 8 characters per character of the name, and decodes back to the name. |
| DeviceKeys.DeviceKeyInjective | master.py:11-24 | Distinct friendly names have distinct keys. |
| Master.DevicesTable | master.py:11-24 | The table has exactly the keys of "carrot patch", "front lawn" and "duck pond", each mapped to its own address and method list. |
| Master.HelloWorld | master.py:43-49 | The root route always answers 403 with an HTML page. |
| Master.GetDevice | master.py:51-72 | The status is 200, 400 or 404. It is 404 exactly for an unregistered key, with "Device not found", whatever the method. It is 400 exactly for a registered key and a method outside its list, with "Request type not valid", the allowed methods and the request method. It is 200 exactly when the method is allowed, with the device record. |
| Master.RegisteredAnswers | master.py:65-72 | A registered device answers 200 with its record for an allowed method and 400 with its method list otherwise. |
| Master.DuckPondOnlyGet | master.py:20-23 | "duck pond" answers GET with 200 and its record, and POST with 400 listing only GET. |
| Master.GardenDevicesGetAndPost | master.py:12-19 | "carrot patch" and "front lawn" answer both GET and POST with 200 and their records. |

## Left out

- The database connection: opening and closing the Mongo client and choosing
  `db_ip` are left out. The store is a value passed in, and a missing
  collection reads as empty.
- Mongo's `find` gives no order guarantee. The model returns documents in
  store order. Stability is proved relative to that order, whatever it is.
- The clock: `datetime.now()` is a parameter. One `now` is used for all five
  heatmap queries, although the source reads the clock once per query.
- Time stamps and values are floats in the source and integers here.
  Fractional save stamps, and rounding in `now - time_period`, are not
  modelled.
- Drawing: the model does not cover figure sizes, fonts, date formatting,
  `plt.cla`, the garden base image, or the pixels written.
  - A chart is described by its label, series and tick tiers.
  - A heatmap is a fixed `GardenMap` figure, since the source builds
    `latest` but never draws it.
  - There is no colour mapping to model.
- Shell and file-system effects: `rm -f images/*` and `savefig` act on one
  in-memory map. Concurrent writers, and two saves within one clock tick,
  are not modelled.
- The `print` logging is left out, and so is the text of tracebacks. An
  error is a tag, and in the heatmap only the fact that the entry is garbage
  is kept, not which character it is.
- Flask: routing, `make_response` and `jsonify` serialisation are left out.
  So is the 405 that Flask sends, before `get_device` runs, for methods other
  than GET, POST and the automatic HEAD and OPTIONS. `GetDevice` is the view
  function applied to any method string.
- DeviceKeys.DeviceKeyShape: the concrete hex strings of the three keys
  (such as `6475636b20706f6e64`) are not computed. The table is characterised
  through the key function and its injectivity instead.
- The rest of the repository is not part of this model:
  - `piserv/app.py` (including its two-argument `graphFunc` call);
  - `piserv/sensors.py` and `piserv/perform_readings.py` (hardware polling);
  - `piserv/data/generate_fake_data.py`.
