/**
 * `dbQuery` of `piserv/graphing.py`: validate the sensor type, fetch the
 * slave's readings newer than `now - time_period`, demand at least two of
 * them, and return them ordered by time. The clock reading `now` is a
 * parameter and the database a value, so the query is a pure function.
 */
module Query {
  import opened Telemetry
  import opened StableSort

  /** The query document `{"ip_address": ip, "time": {"$gt": lowerBound}}`. */
  predicate Matches(r: Reading, ip: string, lowerBound: int) {
    r.ipAddress == ip && r.time > lowerBound
  }

  /** `collection.find(query)`: the matching documents, in store order. */
  function Find(c: seq<Reading>, ip: string, lowerBound: int): (r: seq<Reading>)
    ensures |r| <= |c|
    ensures forall i :: 0 <= i < |r| ==> r[i] in c && Matches(r[i], ip, lowerBound)
    ensures forall i :: 0 <= i < |c| && Matches(c[i], ip, lowerBound) ==> c[i] in r
  {
    if c == [] then []
    else (if Matches(c[0], ip, lowerBound) then [c[0]] else []) + Find(c[1..], ip, lowerBound)
  }

  /** `find` returns every matching document as often as it is stored, and nothing else. */
  lemma {:induction false} FindCounts(c: seq<Reading>, ip: string, lowerBound: int, x: Reading)
    ensures multiset(Find(c, ip, lowerBound))[x] == if Matches(x, ip, lowerBound) then multiset(c)[x] else 0
  {
    if c != [] {
      FindCounts(c[1..], ip, lowerBound, x);
      var head := if Matches(c[0], ip, lowerBound) then [c[0]] else [];
      assert multiset(Find(c, ip, lowerBound)) == multiset(head) + multiset(Find(c[1..], ip, lowerBound));
      assert c == [c[0]] + c[1..];
      assert multiset(c) == multiset([c[0]]) + multiset(c[1..]);
    }
  }

  /** The readings `dbQuery` selects before sorting, for the given clock reading. */
  function Window(store: Store, ip: string, timePeriod: int, sensorType: string, now: int): seq<Reading> {
    Find(Collection(store, sensorType), ip, now - timePeriod)
  }

  /**
   * `dbQuery(db_ip, slave_ip_address, time_period, sensor_type)` with the
   * database contents and the current time made explicit.
   */
  function DbQuery(store: Store, ip: string, timePeriod: int, sensorType: string, now: int): (r: Result<seq<Reading>>)
    ensures sensorType !in AcceptedSensors ==> r == Err(InvalidSensorType)
    ensures (r == Err(InsufficientData))
              <==> (sensorType in AcceptedSensors && |Window(store, ip, timePeriod, sensorType, now)| < 2)
    ensures r.Ok? <==> sensorType in AcceptedSensors && |Window(store, ip, timePeriod, sensorType, now)| >= 2
    ensures r.Ok? ==> |r.value| >= 2 && SortedBy(r.value, Time)
    ensures r.Ok? ==> forall i :: 0 <= i < |r.value| ==>
                        r.value[i] in Collection(store, sensorType)
                        && r.value[i].ipAddress == ip && r.value[i].time > now - timePeriod
  {
    if sensorType !in AcceptedSensors then Err(InvalidSensorType)
    else
      var found := Window(store, ip, timePeriod, sensorType, now);
      if |found| > 1 then
        SortByMembers(found, Time);
        Ok(SortBy(found, Time))
      else Err(InsufficientData)
  }

  /** An unknown sensor type is refused whatever the database holds: the store is never consulted. */
  lemma InvalidSensorIgnoresStore(s1: Store, s2: Store, ip: string, timePeriod: int, sensorType: string, now: int)
    requires sensorType !in AcceptedSensors
    ensures DbQuery(s1, ip, timePeriod, sensorType, now) == DbQuery(s2, ip, timePeriod, sensorType, now)
  {
  }

  /**
   * A successful query returns exactly the matching documents of the
   * collection, each as often as it is stored: a permutation of the window.
   */
  lemma DbQueryExact(store: Store, ip: string, timePeriod: int, sensorType: string, now: int)
    requires DbQuery(store, ip, timePeriod, sensorType, now).Ok?
    ensures var rs := DbQuery(store, ip, timePeriod, sensorType, now).value;
            multiset(rs) == multiset(Window(store, ip, timePeriod, sensorType, now))
            && forall x :: multiset(rs)[x] ==
                 if Matches(x, ip, now - timePeriod) then multiset(Collection(store, sensorType))[x] else 0
  {
    forall x {
      FindCounts(Collection(store, sensorType), ip, now - timePeriod, x);
    }
  }

  /** Every stored reading of the slave inside the window is in a successful result. */
  lemma DbQueryComplete(store: Store, ip: string, timePeriod: int, sensorType: string, now: int, x: Reading)
    requires DbQuery(store, ip, timePeriod, sensorType, now).Ok?
    requires x in Collection(store, sensorType) && x.ipAddress == ip && x.time > now - timePeriod
    ensures x in DbQuery(store, ip, timePeriod, sensorType, now).value
  {
    DbQueryExact(store, ip, timePeriod, sensorType, now);
    assert multiset(DbQuery(store, ip, timePeriod, sensorType, now).value)[x] > 0;
  }

  /**
   * Python's sort is stable: readings with the same time keep the order in
   * which the store returned them.
   */
  lemma DbQueryStable(store: Store, ip: string, timePeriod: int, sensorType: string, now: int, t: int)
    requires DbQuery(store, ip, timePeriod, sensorType, now).Ok?
    ensures WithKey(DbQuery(store, ip, timePeriod, sensorType, now).value, Time, t)
            == WithKey(Window(store, ip, timePeriod, sensorType, now), Time, t)
  {
    SortByStable(Window(store, ip, timePeriod, sensorType, now), Time, t);
  }

  /** The newest matching reading is the last one of a successful result. */
  lemma {:induction false} LastIsNewest(store: Store, ip: string, timePeriod: int, sensorType: string, now: int, x: Reading)
    requires DbQuery(store, ip, timePeriod, sensorType, now).Ok?
    requires x in Collection(store, sensorType) && x.ipAddress == ip && x.time > now - timePeriod
    ensures var rs := DbQuery(store, ip, timePeriod, sensorType, now).value;
            x.time <= rs[|rs| - 1].time
  {
    var rs := DbQuery(store, ip, timePeriod, sensorType, now).value;
    DbQueryComplete(store, ip, timePeriod, sensorType, now, x);
    var j :| 0 <= j < |rs| && rs[j] == x;
    assert j < |rs| - 1 ==> Time(rs[j]) <= Time(rs[|rs| - 1]);
  }
}
