/** The current fatigue-history query (`FirebaseManager.getFatigueLevels`
    under Model/Firebase): records grouped by hour, later values of an hour
    capped at 100 in the sum, shown over a nine-hour window that starts at
    the configurable `xAxisStartHour`. */
module FirebaseManager {
  import opened Base
  import opened HourlyObservations
  import opened AppModel

  /** Width of the chart window, in hours. */
  const WindowHours: int := 9

  /** The end of the window. `lowerBound` is `xAxisStartHour`. */
  function UpperBound(startTime: int, endTime: int, now: int, lowerBound: int, hourNow: int): (u: int)
    ensures startTime > now ==> u == lowerBound
    ensures startTime <= now && endTime > now ==> u == Min(lowerBound + WindowHours, hourNow + 1)
    ensures startTime <= now && endTime <= now ==> u == lowerBound + WindowHours
  {
    if startTime > now then lowerBound
    else if endTime > now then Min(lowerBound + WindowHours, hourNow + 1)
    else lowerBound + WindowHours
  }

  /** The peer the completion handler builds from a successful query: the
      device id, its first name, and the observations of the window. */
  function QueriedPeer(deviceId: string, groupFirstNames: Option<map<string, string>>, records: seq<Record>,
                       startTime: int, endTime: int, xAxisStartHour: int, now: int, hourNow: int): (p: Peer)
    ensures p.id == deviceId
    ensures groupFirstNames.Some? && deviceId in groupFirstNames.value ==> p.firstName == groupFirstNames.value[deviceId]
    ensures groupFirstNames.None? || deviceId !in groupFirstNames.value ==> p.firstName == "Unknown"
    ensures |p.observations| == Max(0, UpperBound(startTime, endTime, now, xAxisStartHour, hourNow) - xAxisStartHour)
    ensures forall i :: 0 <= i < |p.observations| ==>
              p.observations[i] == ObservationAt(CapLater, records, xAxisStartHour + i)
  {
    var obs := WindowObservations(CapLater, records, xAxisStartHour, UpperBound(startTime, endTime, now, xAxisStartHour, hourNow));
    Peer(deviceId, FirstNameOf(groupFirstNames, deviceId), obs)
  }

  /** `getFatigueLevels` at call time: `crew` is cleared before the query is
      sent. The peer is appended later, by `FatigueLevelsReceived`, when the
      query returns. */
  method GetFatigueLevels(modelData: ModelData)
    modifies modelData
    ensures modelData.crew == []
    ensures modelData.fatigueLevel == old(modelData.fatigueLevel) && modelData.lastResetDay == old(modelData.lastResetDay)
  {
    modelData.crew := [];
  }

  /** The completion handler of the query: on success the peer is appended to
      whatever `crew` holds when the result arrives; on error `crew` is kept.
      `groupFirstNames` is the map read at call time; `xAxisStartHour`, `now`
      and `hourNow` are read when the handler runs; `query` is the query
      result (`None` on error). */
  method FatigueLevelsReceived(
    modelData: ModelData, deviceId: string, startTime: int, endTime: int,
    groupFirstNames: Option<map<string, string>>, xAxisStartHour: int, now: int, hourNow: int,
    query: Option<seq<Record>>)
    modifies modelData
    ensures modelData.fatigueLevel == old(modelData.fatigueLevel) && modelData.lastResetDay == old(modelData.lastResetDay)
    ensures query.None? ==> modelData.crew == old(modelData.crew)
    ensures query.Some? ==>
              modelData.crew == old(modelData.crew)
                                + [QueriedPeer(deviceId, groupFirstNames, query.value, startTime, endTime, xAxisStartHour, now, hourNow)]
  {
    if query.None? {
      return;
    }
    var names := groupFirstNames.GetOr(map[]);
    var firstName := if deviceId in names then names[deviceId] else "Unknown";
    var range, avg := BucketByHour(CapLater, query.value);
    var lowerBound := xAxisStartHour;
    var upperBound := UpperBound(startTime, endTime, now, lowerBound, hourNow);
    var observations := BuildObservations(lowerBound, upperBound, range, avg);
    BuiltIsWindow(CapLater, query.value, range, avg, lowerBound, upperBound, observations);
    modelData.crew := modelData.crew + [Peer(deviceId, firstName, observations)];
  }

  /** `updateCrew` for two members: the crew is cleared, both queries are
      sent, and both results arrive afterwards, in either order. Each
      successful result adds its own peer; neither clear removes the other's. */
  method UpdateCrewOfTwo(
    modelData: ModelData, first: string, second: string, firstFirst: bool,
    startTime: int, endTime: int, groupFirstNames: Option<map<string, string>>,
    xAxisStartHour: int, now: int, hourNow: int,
    firstQuery: Option<seq<Record>>, secondQuery: Option<seq<Record>>)
    modifies modelData
    ensures var a := if firstQuery.Some? then [QueriedPeer(first, groupFirstNames, firstQuery.value, startTime, endTime, xAxisStartHour, now, hourNow)] else [];
            var b := if secondQuery.Some? then [QueriedPeer(second, groupFirstNames, secondQuery.value, startTime, endTime, xAxisStartHour, now, hourNow)] else [];
            modelData.crew == if firstFirst then a + b else b + a
  {
    modelData.crew := [];
    GetFatigueLevels(modelData);
    GetFatigueLevels(modelData);
    if firstFirst {
      FatigueLevelsReceived(modelData, first, startTime, endTime, groupFirstNames, xAxisStartHour, now, hourNow, firstQuery);
      FatigueLevelsReceived(modelData, second, startTime, endTime, groupFirstNames, xAxisStartHour, now, hourNow, secondQuery);
    } else {
      FatigueLevelsReceived(modelData, second, startTime, endTime, groupFirstNames, xAxisStartHour, now, hourNow, secondQuery);
      FatigueLevelsReceived(modelData, first, startTime, endTime, groupFirstNames, xAxisStartHour, now, hourNow, firstQuery);
    }
  }

  // ---------------------------------------------------------------------
  // Properties

  /** The cap applies only to values after the first of an hour: [50, 150]
      averages 75, but [150, 50] averages 100. */
  lemma CapOrderQuirk()
    ensures ObservationAt(CapLater, [Record(10, Some(50)), Record(10, Some(150))], 10).avgFatigueLevel == 75
    ensures ObservationAt(CapLater, [Record(10, Some(150)), Record(10, Some(50))], 10).avgFatigueLevel == 100
  {
    var a := [Record(10, Some(50)), Record(10, Some(150))];
    var b := [Record(10, Some(150)), Record(10, Some(50))];
    assert a[..1] == [Record(10, Some(50))] && a[..1][..0] == [];
    assert b[..1] == [Record(10, Some(150))] && b[..1][..0] == [];
    assert HourLevels(a, 10) == [Some(50), Some(150)];
    assert HourLevels(b, 10) == [Some(150), Some(50)];
    assert LaterSum(CapLater, [Some(150)]) == 100;
    assert LaterSum(CapLater, [Some(50)]) == 50;
  }

  /** Each later value adds at most 100 to the hour's sum, whatever was stored. */
  lemma {:induction false} CappedTermsBounded(levels: seq<Option<int>>)
    ensures LaterSum(CapLater, levels) <= SumCap * |levels|
  {
    if levels != [] {
      CappedTermsBounded(levels[1..]);
    }
  }

  /** The window: empty for a range starting in the future, the full nine hours
      for a range that has ended, and for today's range at most nine hours,
      none of them after the current hour. */
  lemma WindowCases(records: seq<Record>, startTime: int, endTime: int, now: int, lower: int, hourNow: int)
    ensures var obs := WindowObservations(CapLater, records, lower, UpperBound(startTime, endTime, now, lower, hourNow));
            && (startTime > now ==> obs == [])
            && (startTime <= now && endTime <= now ==> |obs| == WindowHours)
            && (startTime <= now && endTime > now ==>
                  |obs| <= WindowHours && forall i :: 0 <= i < |obs| ==> obs[i].hourFromMidnight <= hourNow)
  {
  }
}
