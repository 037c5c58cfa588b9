/** The older fatigue-history query (`FirebaseManager.getFatigueLevels`
    under Model): the same bucketing loop with every value summed raw, shown
    over the fixed window of hours 9..<18. */
module LegacyFirebaseManager {
  import opened Base
  import opened HourlyObservations
  import opened AppModel

  /** First hour of the fixed window. */
  const FirstHour: int := 9
  /** End (exclusive) of the fixed window. */
  const EndHour: int := 18

  /** The end of the window. */
  function UpperBound(startTime: int, endTime: int, now: int, hourNow: int): (u: int)
    ensures startTime > now ==> u == FirstHour
    ensures startTime <= now && endTime > now ==> u == Min(EndHour, hourNow + 1)
    ensures startTime <= now && endTime <= now ==> u == EndHour
  {
    if startTime > now then FirstHour
    else if endTime > now then Min(EndHour, hourNow + 1)
    else EndHour
  }

  /** The peer the completion handler builds from a successful query: the
      device id, its first name, and the uncapped observations of hours
      9..<upper. */
  function QueriedPeer(deviceId: string, groupFirstNames: Option<map<string, string>>, records: seq<Record>,
                       startTime: int, endTime: int, now: int, hourNow: int): (p: Peer)
    ensures p.id == deviceId
    ensures groupFirstNames.Some? && deviceId in groupFirstNames.value ==> p.firstName == groupFirstNames.value[deviceId]
    ensures groupFirstNames.None? || deviceId !in groupFirstNames.value ==> p.firstName == "Unknown"
    ensures |p.observations| == Max(0, UpperBound(startTime, endTime, now, hourNow) - FirstHour)
    ensures forall i :: 0 <= i < |p.observations| ==>
              p.observations[i] == ObservationAt(Uncapped, records, FirstHour + i)
  {
    var obs := WindowObservations(Uncapped, records, FirstHour, UpperBound(startTime, endTime, now, hourNow));
    Peer(deviceId, FirstNameOf(groupFirstNames, deviceId), obs)
  }

  /** `getFatigueLevels` at call time: `crew` is cleared before the query is
      sent; the peer is appended later, by `FatigueLevelsReceived`. */
  method GetFatigueLevels(modelData: ModelData)
    modifies modelData
    ensures modelData.crew == []
    ensures modelData.fatigueLevel == old(modelData.fatigueLevel) && modelData.lastResetDay == old(modelData.lastResetDay)
  {
    modelData.crew := [];
  }

  /** The completion handler of the query: on success the peer is appended to
      whatever `crew` holds when the result arrives; on error `crew` is kept. */
  method FatigueLevelsReceived(
    modelData: ModelData, deviceId: string, startTime: int, endTime: int,
    groupFirstNames: Option<map<string, string>>, now: int, hourNow: int,
    query: Option<seq<Record>>)
    modifies modelData
    ensures modelData.fatigueLevel == old(modelData.fatigueLevel) && modelData.lastResetDay == old(modelData.lastResetDay)
    ensures query.None? ==> modelData.crew == old(modelData.crew)
    ensures query.Some? ==>
              modelData.crew == old(modelData.crew) + [QueriedPeer(deviceId, groupFirstNames, query.value, startTime, endTime, now, hourNow)]
  {
    if query.None? {
      return;
    }
    var names := groupFirstNames.GetOr(map[]);
    var firstName := if deviceId in names then names[deviceId] else "Unknown";
    var range, avg := BucketByHour(Uncapped, query.value);
    var upperBound := UpperBound(startTime, endTime, now, hourNow);
    var observations := BuildObservations(FirstHour, upperBound, range, avg);
    BuiltIsWindow(Uncapped, query.value, range, avg, FirstHour, upperBound, observations);
    modelData.crew := modelData.crew + [Peer(deviceId, firstName, observations)];
  }

  // ---------------------------------------------------------------------
  // Properties

  /** Without the cap an hour's sum does not depend on the order of its
      levels: the first value enters raw, as every later one does. */
  lemma HourSumOrderFree(a: seq<Option<int>>, b: seq<Option<int>>)
    requires a != [] && multiset(a) == multiset(b)
    ensures b != [] && HourSum(Uncapped, a) == HourSum(Uncapped, b)
  {
    assert a[0] in multiset(b);
    assert a == [a[0]] + a[1..] && b == [b[0]] + b[1..];
    LaterSumOrderFree(Uncapped, a, b);
  }

  /** The older query's observation of every hour is the same for any order
      of the records: range, sum and count are all order-free. */
  lemma UncappedOrderFree(a: seq<Record>, b: seq<Record>, h: int)
    requires multiset(a) == multiset(b)
    ensures ObservationAt(Uncapped, a, h) == ObservationAt(Uncapped, b, h)
  {
    var la, lb := HourLevels(a, h), HourLevels(b, h);
    HourLevelsOrderFree(a, b, h);
    assert |la| == |multiset(la)| == |multiset(lb)| == |lb|;
    if la != [] {
      HourSumOrderFree(la, lb);
      MinMaxRawOrderFree(la, lb);
    }
  }

  /** Without the cap the order of the records does not matter: [150, 50]
      and [50, 150] both average 100. */
  lemma NoCapOrder()
    ensures ObservationAt(Uncapped, [Record(10, Some(50)), Record(10, Some(150))], 10).avgFatigueLevel == 100
    ensures ObservationAt(Uncapped, [Record(10, Some(150)), Record(10, Some(50))], 10).avgFatigueLevel == 100
  {
    var a := [Record(10, Some(50)), Record(10, Some(150))];
    var b := [Record(10, Some(150)), Record(10, Some(50))];
    assert a[..1] == [Record(10, Some(50))] && a[..1][..0] == [];
    assert b[..1] == [Record(10, Some(150))] && b[..1][..0] == [];
    assert HourLevels(a, 10) == [Some(50), Some(150)];
    assert HourLevels(b, 10) == [Some(150), Some(50)];
    assert LaterSum(Uncapped, [Some(150)]) == 150;
    assert LaterSum(Uncapped, [Some(50)]) == 50;
  }

  /** A missing value counts -1 in the sum, so an hour whose only record has
      no level, or whose levels sum below zero, shows the placeholder. */
  lemma MissingOnly(h: int)
    ensures ObservationAt(Uncapped, [Record(h, None)], h) == Placeholder(h)
  {
    assert [Record(h, None)][..0] == [];
    assert HourLevels([Record(h, None)], h) == [None];
  }

  /** The window: empty for a future range, hours 9..<18 for a past one, and
      for today at most those hours and none after the current hour. */
  lemma WindowCases(records: seq<Record>, startTime: int, endTime: int, now: int, hourNow: int)
    ensures var obs := WindowObservations(Uncapped, records, FirstHour, UpperBound(startTime, endTime, now, hourNow));
            && (startTime > now ==> obs == [])
            && (startTime <= now && endTime <= now ==> |obs| == EndHour - FirstHour)
            && (startTime <= now && endTime > now ==>
                  |obs| <= EndHour - FirstHour && forall i :: 0 <= i < |obs| ==> obs[i].hourFromMidnight <= hourNow)
            && forall i :: 0 <= i < |obs| ==> FirstHour <= obs[i].hourFromMidnight < EndHour
  {
  }
}
