/** The hourly chart data shared by both versions of the fatigue-history
    query: the records read from the store, the `Peer.Observation` values
    produced for each hour, and the loop that lays the observations out over
    the window of hours. */
module HourlyObservations {
  import opened Base

  /** One stored fatigue record: the local hour of its timestamp and its
      `fatigue_level` field, which may be missing or not an integer. */
  datatype Record = Record(hour: int, fatigueLevel: Option<int>)

  /** `Peer.Observation`: the hour, the range `rangeLower..<rangeUpper` and the
      average (an integer quotient converted to `Double` in the source). */
  datatype Observation = Observation(hourFromMidnight: int, rangeLower: int, rangeUpper: int, avgFatigueLevel: int)

  /** `Peer` as the query builds it: device id, first name and observations. */
  datatype Peer = Peer(id: string, firstName: string, observations: seq<Observation>)

  /** The peer's first name: the persisted name of the device, else "Unknown". */
  function FirstNameOf(groupFirstNames: Option<map<string, string>>, deviceId: string): string {
    var names := groupFirstNames.GetOr(map[]);
    if deviceId in names then names[deviceId] else "Unknown"
  }

  /** The observation of an hour without usable data: range `0..<0`, average 0. */
  function Placeholder(h: int): Observation {
    Observation(h, 0, 0, 0)
  }

  /** A level as the range and the first sum term read it: missing is -1. */
  function Raw(level: Option<int>): int {
    level.GetOr(-1)
  }

  /** The levels of the records of hour `h`, in record order. */
  function HourLevels(records: seq<Record>, h: int): seq<Option<int>> {
    if records == [] then []
    else
      var last := records[|records| - 1];
      HourLevels(records[..|records| - 1], h) + (if last.hour == h then [last.fatigueLevel] else [])
  }

  function MinRaw(levels: seq<Option<int>>): int
    requires levels != []
  {
    if |levels| == 1 then Raw(levels[0]) else Min(MinRaw(levels[..|levels| - 1]), Raw(levels[|levels| - 1]))
  }

  function MaxRaw(levels: seq<Option<int>>): int
    requires levels != []
  {
    if |levels| == 1 then Raw(levels[0]) else Max(MaxRaw(levels[..|levels| - 1]), Raw(levels[|levels| - 1]))
  }

  /** The observation of hour `h` given its levels and its sum: min..<max and
      the truncated average when there are levels and the sum is not
      negative, the placeholder otherwise. */
  function ObservationOf(h: int, levels: seq<Option<int>>, sum: int): Observation {
    if levels != [] && sum >= 0 then Observation(h, MinRaw(levels), MaxRaw(levels), sum / |levels|)
    else Placeholder(h)
  }

  /** The dictionaries `range` (hour to (min, max)) and `avg` (hour to (sum,
      count)) as the bucketing loops leave them: the same hours, a positive
      count, and min <= max. */
  ghost predicate WellFormed(range: map<int, (int, int)>, avg: map<int, (int, int)>) {
    && (forall h :: h in range <==> h in avg)
    && (forall h :: h in avg ==> avg[h].1 > 0)
    && (forall h :: h in range ==> range[h].0 <= range[h].1)
  }

  /** One step of the observation loop: hour `h` read back from the
      dictionaries, with (-1, -1) for an hour that is not there. */
  function FromBuckets(h: int, range: map<int, (int, int)>, avg: map<int, (int, int)>): Observation
    requires WellFormed(range, avg)
  {
    var (sum, count) := if h in avg then avg[h] else (-1, -1);
    var (lo, hi) := if h in range then range[h] else (-1, -1);
    if sum >= 0 then Observation(h, lo, hi, sum / count) else Placeholder(h)
  }

  /** The loop `for hr in lower..<upper`, guarded by `upper >= lower`: one
      observation per hour of the window, in ascending order. */
  method BuildObservations(lower: int, upper: int, range: map<int, (int, int)>, avg: map<int, (int, int)>)
    returns (obs: seq<Observation>)
    requires WellFormed(range, avg)
    ensures |obs| == Max(0, upper - lower)
    ensures forall i :: 0 <= i < |obs| ==> obs[i] == FromBuckets(lower + i, range, avg)
  {
    obs := [];
    if upper >= lower {
      var hr := lower;
      while hr < upper
        invariant lower <= hr <= upper
        invariant |obs| == hr - lower
        invariant forall i :: 0 <= i < |obs| ==> obs[i] == FromBuckets(lower + i, range, avg)
      {
        var (curSum, curCount) := if hr in avg then avg[hr] else (-1, -1);
        var (curMin, curMax) := if hr in range then range[hr] else (-1, -1);
        if curSum >= 0 {
          obs := obs + [Observation(hr, curMin, curMax, curSum / curCount)];
        } else {
          obs := obs + [Placeholder(hr)];
        }
        hr := hr + 1;
      }
    }
  }

  // ---------------------------------------------------------------------
  // Properties of the reference definitions

  lemma {:induction false} HourLevelsEmpty(records: seq<Record>, h: int)
    ensures HourLevels(records, h) == [] <==> forall i :: 0 <= i < |records| ==> records[i].hour != h
  {
    if records != [] {
      var p := records[..|records| - 1];
      HourLevelsEmpty(p, h);
      assert forall i :: 0 <= i < |p| ==> p[i] == records[i];
    }
  }

  /** HourLevels of a prefix extended by one record. */
  lemma HourLevelsSnoc(records: seq<Record>, r: Record, h: int)
    ensures HourLevels(records + [r], h) == HourLevels(records, h) + (if r.hour == h then [r.fatigueLevel] else [])
  {
    assert (records + [r])[..|records|] == records;
  }

  /** MinRaw and MaxRaw are the least and the greatest raw level. */
  lemma {:induction false} MinMaxRawBounds(levels: seq<Option<int>>)
    requires levels != []
    ensures forall j :: 0 <= j < |levels| ==> MinRaw(levels) <= Raw(levels[j]) <= MaxRaw(levels)
    ensures exists j :: 0 <= j < |levels| && MinRaw(levels) == Raw(levels[j])
    ensures exists j :: 0 <= j < |levels| && MaxRaw(levels) == Raw(levels[j])
  {
    if |levels| > 1 {
      var p := levels[..|levels| - 1];
      MinMaxRawBounds(p);
      assert forall j :: 0 <= j < |p| ==> p[j] == levels[j];
      var n := |levels| - 1;
      if Raw(levels[n]) < MinRaw(p) {
        assert MinRaw(levels) == Raw(levels[n]);
      } else {
        var j :| 0 <= j < |p| && MinRaw(p) == Raw(p[j]);
        assert MinRaw(levels) == Raw(levels[j]);
      }
      if Raw(levels[n]) > MaxRaw(p) {
        assert MaxRaw(levels) == Raw(levels[n]);
      } else {
        var j :| 0 <= j < |p| && MaxRaw(p) == Raw(p[j]);
        assert MaxRaw(levels) == Raw(levels[j]);
      }
    } else {
      assert MinRaw(levels) == Raw(levels[0]) == MaxRaw(levels);
    }
  }

  lemma MinRawSnoc(levels: seq<Option<int>>, x: Option<int>)
    requires levels != []
    ensures MinRaw(levels + [x]) == Min(MinRaw(levels), Raw(x))
    ensures MaxRaw(levels + [x]) == Max(MaxRaw(levels), Raw(x))
  {
    assert (levels + [x])[..|levels|] == levels;
  }

  lemma MinRawSingle(x: Option<int>)
    ensures MinRaw([x]) == Raw(x) && MaxRaw([x]) == Raw(x)
  {
  }

  // ---------------------------------------------------------------------
  // The bucketing loop, shared by both versions of the query

  /** How a value after the first of an hour enters the hour's sum: capped at
      100 with a missing value read as 100 (current query), or raw with a
      missing value read as -1 (older query). The first value of an hour is
      raw in both. */
  datatype SumRule = CapLater | Uncapped

  /** Later values of an hour are capped at this by the current query. */
  const SumCap: int := 100

  function Later(rule: SumRule, level: Option<int>): (r: int)
    ensures rule == CapLater ==> r <= SumCap && (level.None? ==> r == SumCap)
                                 && (level.Some? && level.value <= SumCap ==> r == level.value)
                                 && (level.Some? && level.value > SumCap ==> r == SumCap)
    ensures rule == Uncapped ==> r == Raw(level)
  {
    match rule
    case CapLater => Min(level.GetOr(SumCap), SumCap)
    case Uncapped => Raw(level)
  }

  function LaterSum(rule: SumRule, levels: seq<Option<int>>): int {
    if levels == [] then 0 else Later(rule, levels[0]) + LaterSum(rule, levels[1..])
  }

  /** The hour's sum: the first record's value raw, every later one by the rule. */
  function HourSum(rule: SumRule, levels: seq<Option<int>>): (r: int)
    requires levels != []
    ensures rule == Uncapped ==> r == LaterSum(Uncapped, levels)
    ensures (forall j :: 0 <= j < |levels| ==> Present(levels[j])) ==> r >= 0
  {
    LaterSumNonNegative(rule, levels[1..]);
    assert (forall j :: 0 <= j < |levels| ==> Present(levels[j])) ==>
             forall j :: 0 <= j < |levels[1..]| ==> Present(levels[1..][j]);
    Raw(levels[0]) + LaterSum(rule, levels[1..])
  }

  /** A level that is there and not negative. */
  predicate Present(level: Option<int>) {
    level.Some? && level.value >= 0
  }

  lemma {:induction false} LaterSumNonNegative(rule: SumRule, levels: seq<Option<int>>)
    ensures (forall j :: 0 <= j < |levels| ==> Present(levels[j])) ==> LaterSum(rule, levels) >= 0
  {
    if levels != [] {
      LaterSumNonNegative(rule, levels[1..]);
      assert (forall j :: 0 <= j < |levels| ==> Present(levels[j])) ==>
               forall j :: 0 <= j < |levels[1..]| ==> Present(levels[1..][j]);
    }
  }

  /** The observation the query produces for hour `h` of `records`. */
  function ObservationAt(rule: SumRule, records: seq<Record>, h: int): (o: Observation)
    ensures o.hourFromMidnight == h
    ensures o.rangeLower <= o.rangeUpper && o.avgFatigueLevel >= 0
    ensures (forall i :: 0 <= i < |records| ==> records[i].hour != h) ==> o == Placeholder(h)
  {
    var levels := HourLevels(records, h);
    HourLevelsEmpty(records, h);
    if levels == [] then ObservationOf(h, levels, -1)
    else
      MinMaxRawBounds(levels);
      ObservationOf(h, levels, HourSum(rule, levels))
  }

  /** The observations of hours `lower..<upper` of `records`. */
  function WindowObservations(rule: SumRule, records: seq<Record>, lower: int, upper: int): (obs: seq<Observation>)
    ensures |obs| == Max(0, upper - lower)
    ensures forall i :: 0 <= i < |obs| ==> obs[i].hourFromMidnight == lower + i
  {
    var obs := seq(Max(0, upper - lower), i => ObservationAt(rule, records, lower + i));
    assert forall i :: 0 <= i < |obs| ==> obs[i] == ObservationAt(rule, records, lower + i);
    obs
  }

  /** The dictionaries hold, for every hour with records and for no other,
      the min and max raw level, the hour's sum and its record count. */
  ghost predicate Bucketed(rule: SumRule, records: seq<Record>, range: map<int, (int, int)>, avg: map<int, (int, int)>) {
    && (forall h :: h in range <==> HourLevels(records, h) != [])
    && (forall h :: h in avg <==> h in range)
    && (forall h :: h in range ==>
          var levels := HourLevels(records, h);
          levels != [] && range[h] == (MinRaw(levels), MaxRaw(levels)) && avg[h] == (HourSum(rule, levels), |levels|))
  }

  /** The dictionaries `range` and `avg` after the first loop has read
      `records`: a new hour starts at (level, level) and (level, 1); a known
      hour widens its range by the raw level and adds the later value. */
  function Buckets(rule: SumRule, records: seq<Record>): (b: (map<int, (int, int)>, map<int, (int, int)>))
    ensures b.0.Keys == b.1.Keys
    ensures forall h :: h in b.1 ==> 0 < b.1[h].1 <= |records|
  {
    if records == [] then (map[], map[])
    else
      var (range, avg) := Buckets(rule, records[..|records| - 1]);
      var r := records[|records| - 1];
      if r.hour !in range then
        (range[r.hour := (Raw(r.fatigueLevel), Raw(r.fatigueLevel))], avg[r.hour := (Raw(r.fatigueLevel), 1)])
      else
        var (curMin, curMax) := range[r.hour];
        var (curSum, curCount) := if r.hour in avg then avg[r.hour] else (-1, -1);
        (range[r.hour := (Min(curMin, Raw(r.fatigueLevel)), Max(curMax, Raw(r.fatigueLevel)))],
         avg[r.hour := (curSum + Later(rule, r.fatigueLevel), curCount + 1)])
  }

  /** The first loop of the query: fills `range` and `avg` record by record. */
  method BucketByHour(rule: SumRule, records: seq<Record>) returns (range: map<int, (int, int)>, avg: map<int, (int, int)>)
    ensures (range, avg) == Buckets(rule, records)
    ensures Bucketed(rule, records, range, avg) && WellFormed(range, avg)
  {
    range, avg := map[], map[];
    var i := 0;
    while i < |records|
      invariant 0 <= i <= |records|
      invariant (range, avg) == Buckets(rule, records[..i])
    {
      var hourOfDay := records[i].hour;
      var fatigueLevel := records[i].fatigueLevel;
      assert records[..i + 1][..i] == records[..i];
      if hourOfDay !in range {
        range := range[hourOfDay := (fatigueLevel.GetOr(-1), fatigueLevel.GetOr(-1))];
        avg := avg[hourOfDay := (fatigueLevel.GetOr(-1), 1)];
      } else {
        var (curMin, curMax) := range[hourOfDay];
        range := range[hourOfDay := (Min(curMin, fatigueLevel.GetOr(-1)), Max(curMax, fatigueLevel.GetOr(-1)))];
        var (curSum, curCount) := if hourOfDay in avg then avg[hourOfDay] else (-1, -1);
        var term := match rule
          case CapLater => Min(fatigueLevel.GetOr(100), 100)
          case Uncapped => fatigueLevel.GetOr(-1);
        avg := avg[hourOfDay := (curSum + term, curCount + 1)];
      }
      i := i + 1;
    }
    assert records[..|records|] == records;
    BucketsBucketed(rule, records);
  }

  lemma {:induction false} LaterSumSnoc(rule: SumRule, levels: seq<Option<int>>, x: Option<int>)
    ensures LaterSum(rule, levels + [x]) == LaterSum(rule, levels) + Later(rule, x)
  {
    if levels != [] {
      assert (levels + [x])[1..] == levels[1..] + [x];
      LaterSumSnoc(rule, levels[1..], x);
    } else {
      assert [x][1..] == [];
    }
  }

  lemma HourSumSnoc(rule: SumRule, levels: seq<Option<int>>, x: Option<int>)
    requires levels != []
    ensures HourSum(rule, levels + [x]) == HourSum(rule, levels) + Later(rule, x)
  {
    assert (levels + [x])[1..] == levels[1..] + [x];
    LaterSumSnoc(rule, levels[1..], x);
  }

  /** Hour `h` of the dictionaries: present exactly when the hour has records,
      and then its min and max raw level, its sum and its record count. */
  lemma {:induction false} BucketsAt(rule: SumRule, records: seq<Record>, h: int)
    ensures var (range, avg) := Buckets(rule, records);
            var levels := HourLevels(records, h);
            && (h in range <==> levels != [])
            && (h in avg <==> h in range)
            && (h in range ==> range[h] == (MinRaw(levels), MaxRaw(levels)) && avg[h] == (HourSum(rule, levels), |levels|))
  {
    if records != [] {
      var p := records[..|records| - 1];
      var r := records[|records| - 1];
      assert records == p + [r];
      BucketsAt(rule, p, h);
      HourLevelsSnoc(p, r, h);
      var levels := HourLevels(p, h);
      if r.hour == h && levels != [] {
        MinRawSnoc(levels, r.fatigueLevel);
        HourSumSnoc(rule, levels, r.fatigueLevel);
      } else if r.hour == h {
        assert HourLevels(records, h) == [r.fatigueLevel];
        assert [r.fatigueLevel][1..] == [];
        MinRawSingle(r.fatigueLevel);
      } else {
        assert HourLevels(records, h) == levels;
      }
    }
  }

  /** The dictionaries of `Buckets` are the bucketing of the records. */
  lemma BucketsBucketed(rule: SumRule, records: seq<Record>)
    ensures Bucketed(rule, records, Buckets(rule, records).0, Buckets(rule, records).1)
    ensures WellFormed(Buckets(rule, records).0, Buckets(rule, records).1)
  {
    var (range, avg) := Buckets(rule, records);
    forall h
      ensures (h in range <==> HourLevels(records, h) != [])
      ensures (h in avg <==> h in range)
      ensures h in range ==>
                var levels := HourLevels(records, h);
                levels != [] && range[h] == (MinRaw(levels), MaxRaw(levels)) && avg[h] == (HourSum(rule, levels), |levels|)
      ensures h in avg ==> avg[h].1 > 0
      ensures h in range ==> range[h].0 <= range[h].1
    {
      BucketsAt(rule, records, h);
      if h in range {
        MinMaxRawBounds(HourLevels(records, h));
      }
    }
  }

  /** Reading an hour back from the dictionaries gives that hour's observation. */
  lemma FromBucketsIsObservation(rule: SumRule, records: seq<Record>, range: map<int, (int, int)>, avg: map<int, (int, int)>, h: int)
    requires Bucketed(rule, records, range, avg) && WellFormed(range, avg)
    ensures FromBuckets(h, range, avg) == ObservationAt(rule, records, h)
  {
  }

  /** The observation loop over the bucketed records is the window of observations. */
  lemma BuiltIsWindow(rule: SumRule, records: seq<Record>, range: map<int, (int, int)>, avg: map<int, (int, int)>,
                      lower: int, upper: int, obs: seq<Observation>)
    requires Bucketed(rule, records, range, avg) && WellFormed(range, avg)
    requires |obs| == Max(0, upper - lower)
    requires forall i :: 0 <= i < |obs| ==> obs[i] == FromBuckets(lower + i, range, avg)
    ensures obs == WindowObservations(rule, records, lower, upper)
  {
    forall i | 0 <= i < |obs|
      ensures obs[i] == WindowObservations(rule, records, lower, upper)[i]
    {
      FromBucketsIsObservation(rule, records, range, avg, lower + i);
    }
  }

  /** An hour with records and a non-negative sum shows the least and the
      greatest raw level of the hour as its range and the truncated mean of
      the summed values over the record count; any other hour is the placeholder. */
  lemma ObservationMeaning(rule: SumRule, records: seq<Record>, h: int)
    ensures var levels := HourLevels(records, h);
            var o := ObservationAt(rule, records, h);
            && o.hourFromMidnight == h
            && (levels != [] && HourSum(rule, levels) >= 0 ==>
                  && (forall j :: 0 <= j < |levels| ==> o.rangeLower <= Raw(levels[j]) <= o.rangeUpper)
                  && (exists j :: 0 <= j < |levels| && o.rangeLower == Raw(levels[j]))
                  && (exists j :: 0 <= j < |levels| && o.rangeUpper == Raw(levels[j]))
                  && o.avgFatigueLevel * |levels| <= HourSum(rule, levels) < (o.avgFatigueLevel + 1) * |levels|)
            && (!(levels != [] && HourSum(rule, levels) >= 0) ==> o == Placeholder(h))
  {
    var levels := HourLevels(records, h);
    if levels != [] {
      MinMaxRawBounds(levels);
      if HourSum(rule, levels) >= 0 {
        MeanBounds(HourSum(rule, levels), |levels|);
      }
    }
  }

  // ---------------------------------------------------------------------
  // Order of the records

  lemma {:induction false} LaterSumAppend(rule: SumRule, a: seq<Option<int>>, b: seq<Option<int>>)
    ensures LaterSum(rule, a + b) == LaterSum(rule, a) + LaterSum(rule, b)
  {
    if a != [] {
      assert (a + b)[0] == a[0];
      assert (a + b)[1..] == a[1..] + b;
      LaterSumAppend(rule, a[1..], b);
    } else {
      assert a + b == b;
    }
  }

  /** Taking out the element at `j` takes one copy of it out of the multiset. */
  lemma RemoveAt<T>(b: seq<T>, j: int)
    requires 0 <= j < |b|
    ensures multiset(b[..j] + b[j + 1..]) == multiset(b) - multiset{b[j]}
  {
    assert b == b[..j] + [b[j]] + b[j + 1..];
  }

  lemma LaterSumRemoveAt(rule: SumRule, b: seq<Option<int>>, j: int)
    requires 0 <= j < |b|
    ensures LaterSum(rule, b) == Later(rule, b[j]) + LaterSum(rule, b[..j] + b[j + 1..])
  {
    assert b == b[..j] + ([b[j]] + b[j + 1..]);
    LaterSumAppend(rule, b[..j], [b[j]] + b[j + 1..]);
    LaterSumAppend(rule, b[..j], b[j + 1..]);
    assert ([b[j]] + b[j + 1..])[1..] == b[j + 1..];
  }

  /** The later terms are summed without regard to their order. */
  lemma {:induction false} LaterSumOrderFree(rule: SumRule, a: seq<Option<int>>, b: seq<Option<int>>)
    requires multiset(a) == multiset(b)
    ensures LaterSum(rule, a) == LaterSum(rule, b)
    decreases |a|
  {
    if a == [] {
      assert |multiset(b)| == 0;
    } else {
      var x := a[0];
      assert x in multiset(b);
      var j :| 0 <= j < |b| && b[j] == x;
      var restA, restB := a[1..], b[..j] + b[j + 1..];
      RemoveAt(a, 0);
      RemoveAt(b, j);
      assert a[..0] + a[1..] == restA;
      assert multiset(restA) == multiset(restB);
      LaterSumOrderFree(rule, restA, restB);
      LaterSumRemoveAt(rule, b, j);
      assert LaterSum(rule, a) == Later(rule, x) + LaterSum(rule, restA);
    }
  }

  lemma {:induction false} HourLevelsAppend(a: seq<Record>, b: seq<Record>, h: int)
    ensures HourLevels(a + b, h) == HourLevels(a, h) + HourLevels(b, h)
    decreases |b|
  {
    if b == [] {
      assert a + b == a;
    } else {
      var p := b[..|b| - 1];
      var r := b[|b| - 1];
      assert a + b == (a + p) + [r];
      assert b == p + [r];
      HourLevelsAppend(a, p, h);
      HourLevelsSnoc(a + p, r, h);
      HourLevelsSnoc(p, r, h);
    }
  }

  lemma HourLevelsRemoveAt(b: seq<Record>, j: int, h: int)
    requires 0 <= j < |b|
    ensures multiset(HourLevels(b, h))
            == multiset(HourLevels(b[..j] + b[j + 1..], h)) + multiset(if b[j].hour == h then [b[j].fatigueLevel] else [])
  {
    assert b == (b[..j] + [b[j]]) + b[j + 1..];
    HourLevelsAppend(b[..j] + [b[j]], b[j + 1..], h);
    HourLevelsSnoc(b[..j], b[j], h);
    HourLevelsAppend(b[..j], b[j + 1..], h);
  }

  /** Reordering the records reorders each hour's levels and nothing more. */
  lemma {:induction false} HourLevelsOrderFree(a: seq<Record>, b: seq<Record>, h: int)
    requires multiset(a) == multiset(b)
    ensures multiset(HourLevels(a, h)) == multiset(HourLevels(b, h))
    decreases |a|
  {
    if a == [] {
      assert |multiset(b)| == 0;
    } else {
      var p, r := a[..|a| - 1], a[|a| - 1];
      assert a == p + [r];
      assert r in multiset(b);
      var j :| 0 <= j < |b| && b[j] == r;
      var rest := b[..j] + b[j + 1..];
      RemoveAt(b, j);
      assert multiset(a) == multiset(p) + multiset{r};
      assert multiset(p) == multiset(rest);
      HourLevelsOrderFree(p, rest, h);
      HourLevelsSnoc(p, r, h);
      HourLevelsRemoveAt(b, j, h);
    }
  }

  /** The least and the greatest raw level do not depend on the order. */
  lemma MinMaxRawOrderFree(a: seq<Option<int>>, b: seq<Option<int>>)
    requires a != [] && multiset(a) == multiset(b)
    ensures b != [] && MinRaw(a) == MinRaw(b) && MaxRaw(a) == MaxRaw(b)
  {
    assert a[0] in multiset(b);
    MinMaxRawBounds(a);
    MinMaxRawBounds(b);
    var i :| 0 <= i < |a| && MinRaw(a) == Raw(a[i]);
    var j :| 0 <= j < |b| && MinRaw(b) == Raw(b[j]);
    assert a[i] in multiset(b) && b[j] in multiset(a);
    var k :| 0 <= k < |a| && MaxRaw(a) == Raw(a[k]);
    var l :| 0 <= l < |b| && MaxRaw(b) == Raw(b[l]);
    assert a[k] in multiset(b) && b[l] in multiset(a);
  }

  lemma MeanBounds(sum: int, n: int)
    requires sum >= 0 && n > 0
    ensures (sum / n) * n <= sum < (sum / n + 1) * n
  {
  }
}
