/** The heart-rate sample buffer, the work-capacity fatigue estimator and the
    rate limiter for fatigue warnings of the wristband view controller.

    The behaviour is stated twice: once as pure transition functions over an
    `Estimator` value (each returning the new value and the side effects in
    order), and once as the class `ViewController`, whose methods update its
    fields in place and are proved to follow those functions. The properties
    the controller promises are lemmas about the functions. */
module FatigueEstimator {
  import opened Base

  /** The rate-limit constant as written; the source labels it "in minutes". */
  const MaxFrequency: int := 3 * 60
  /** Minimum spacing of two fatigue warnings, in seconds: 3 * 60 * 60. */
  const RateLimitSeconds: int := MaxFrequency * 60
  /** A sample further than this from the current average is an outlier. */
  const OutlierDistance: int := 30
  /** An assessment runs when a sample is more than this many seconds newer
      than the last assessment. */
  const AssessmentInterval: int := 60
  /** A fatigue score above this is offered to the rate limiter. */
  const FatigueWarningThreshold: int := 0
  /** A warning carries the score capped at this value. */
  const WarningCap: int := 100

  /** The per-session constants: the four calibration integers of the user
      profile and the age-derived maximum heart rate. */
  datatype Calibration = Calibration(
    restHr: int,
    hrReserveCp: int,
    kValue: int,
    totalAwc: int,
    maxHeartRate: int)
  {
    /** Both divisions of an assessment have a non-zero divisor. */
    predicate Valid() {
      maxHeartRate != restHr && totalAwc != 0
    }
  }

  /** Defaults of the profile loader before the stored profile arrives. */
  const DefaultRestHr: int := 65
  const DefaultHrReserveCp: int := 16
  const DefaultKValue: int := 15
  const DefaultTotalAwc: int := 200

  /** The calibration the profile loader starts from, for the age-derived
      maximum heart rate; usable exactly when that maximum is not the resting rate. */
  function DefaultCalibration(maxHeartRate: int): (c: Calibration)
    ensures c.maxHeartRate == maxHeartRate && c.totalAwc > 0
    ensures c.Valid() <==> maxHeartRate != DefaultRestHr
  {
    Calibration(DefaultRestHr, DefaultHrReserveCp, DefaultKValue, DefaultTotalAwc, maxHeartRate)
  }

  /** First name and group id read from the persisted settings when a warning
      is sent ("ERROR" when a setting is absent). */
  datatype Sender = Sender(firstName: string, groupId: string)

  /** Side effects of the estimator, in the order the source performs them:
      uploads to the document store, UI callbacks and the group notification. */
  datatype Event =
    | HeartRateUploaded(heartRate: int, timestamp: int)
    | HeartRateShown(heartRate: int)
    | FatigueLevelShown(fatigueLevel: int)
    | FatigueLevelUploaded(fatigueLevel: int, timestamp: int)
    | WarningNotified(firstName: string, fatigueLevel: int, groupId: string)
    | WarningUploaded(fatigueLevel: int, timestamp: int)

  /** The mutable part of the controller; `lastWarningSent` is the persisted
      time of the last fatigue warning. */
  datatype Estimator = Estimator(
    heartRates: seq<int>,
    lastUpdateTime: int,
    awcExp: int,
    lastWarningSent: int)

  datatype Outcome = Outcome(state: Estimator, events: seq<Event>)

  /** `reduce(0, +)`, a left fold. */
  function Sum(s: seq<int>): int {
    if s == [] then 0 else Sum(s[..|s| - 1]) + s[|s| - 1]
  }

  function MinOf(s: seq<int>): int
    requires s != []
  {
    if |s| == 1 then s[0] else Min(MinOf(s[..|s| - 1]), s[|s| - 1])
  }

  function MaxOf(s: seq<int>): int
    requires s != []
  {
    if |s| == 1 then s[0] else Max(MaxOf(s[..|s| - 1]), s[|s| - 1])
  }

  /** The buffer average: 0 for an empty buffer, otherwise the sum divided by
      the count, truncating toward zero. */
  function AverageOf(s: seq<int>): (r: int)
    ensures s == [] ==> r == 0
    ensures s != [] && Sum(s) >= 0 ==> r * |s| <= Sum(s) < (r + 1) * |s|
  {
    if s == [] then 0
    else
      var q := Quot(Sum(s), |s|);
      if Sum(s) >= 0 then QuotOfNonNegative(Sum(s), |s|); q else q
  }

  /** Heart-rate reserve, in percent, truncated toward zero: 0 at the resting
      rate, 100 at the maximum, and between them the truncated share of the
      reserve `maxHeartRate - restHr`. */
  function Hrr(c: Calibration, avg: int): (r: int)
    requires c.Valid()
    ensures var d := c.maxHeartRate - c.restHr;
            d > 0 && avg >= c.restHr ==> r >= 0 && r * d <= (avg - c.restHr) * 100 < (r + 1) * d
    ensures c.maxHeartRate > c.restHr && avg <= c.restHr ==> r <= 0
    ensures avg == c.maxHeartRate ==> r == 100
  {
    var d := c.maxHeartRate - c.restHr;
    var n := (avg - c.restHr) * 100;
    if avg == c.maxHeartRate then
      assert n == d * 100;
      ScaledQuot(d);
      Quot(n, d)
    else if n >= 0 && d > 0 then
      QuotOfNonNegative(n, d);
      Quot(n, d)
    else Quot(n, d)
  }

  /** A quotient of `d * 100` by `d` is exactly 100. */
  lemma ScaledQuot(d: int)
    requires d != 0
    ensures Quot(d * 100, d) == 100
  {
    var m: nat := Abs(d);
    assert Abs(d * 100) == m * 100;
    var q, r := (m * 100) / m, (m * 100) % m;
    assert m * 100 == m * q + r && 0 <= r < m;
    assert m * (100 - q) == r;
    if q < 100 {
      MulMonotone(m, 1, 100 - q);
      assert false;
    } else if q > 100 {
      MulMonotone(m, 100 - q, -1);
      assert false;
    }
  }

  /** The single work-capacity update: the same `kValue` above and below
      critical power, clamped at zero. */
  function NextAwc(c: Calibration, awc: int, hrr: int): (r: int)
    ensures r >= 0
    ensures r >= awc + c.kValue * (hrr - c.hrReserveCp)
    ensures r == 0 || r == awc + c.kValue * (hrr - c.hrReserveCp)
  {
    Max(awc + c.kValue * (hrr - c.hrReserveCp), 0)
  }

  /** The fatigue score: `awcExp` as a percentage of the total capacity,
      truncated toward zero and not capped. */
  function FatigueScore(c: Calibration, awc: int): (r: int)
    requires c.Valid()
    ensures awc >= 0 && c.totalAwc > 0 ==>
              r >= 0 && r * c.totalAwc <= awc * 100 < (r + 1) * c.totalAwc
  {
    var q := Quot(awc * 100, c.totalAwc);
    if awc >= 0 && c.totalAwc > 0 then QuotOfNonNegative(awc * 100, c.totalAwc); q else q
  }

  /** Whether the rate limiter lets a warning through at `now`. */
  predicate WarningAllowed(lastSent: int, now: int) {
    !(now < lastSent + RateLimitSeconds)
  }

  /** `uploadFatigueHighlight`: suppressed during the cooldown, otherwise the
      send time is recorded and one notification and one warning record go out. */
  function Highlight(s: Estimator, sender: Sender, level: int, now: int): (o: Outcome)
    ensures o.state == s.(lastWarningSent := o.state.lastWarningSent)
    ensures o.events == [] <==> now < s.lastWarningSent + RateLimitSeconds
    ensures o.events == [] ==> o.state == s
    ensures o.events != [] ==> |o.events| == 2 && o.state.lastWarningSent == now >= s.lastWarningSent + RateLimitSeconds
  {
    if !WarningAllowed(s.lastWarningSent, now) then Outcome(s, [])
    else Outcome(s.(lastWarningSent := now),
                 [WarningNotified(sender.firstName, level, sender.groupId), WarningUploaded(level, now)])
  }

  /** `assessFatigue` at time `now`. */
  function Assess(c: Calibration, sender: Sender, s: Estimator, now: int): (o: Outcome)
    requires c.Valid()
    ensures o.state.lastUpdateTime == now && o.state.lastWarningSent >= s.lastWarningSent
    ensures o.events == [] <==> AverageOf(s.heartRates) == 0
    ensures AverageOf(s.heartRates) == 0 ==> o.state.heartRates == s.heartRates && o.state.awcExp == s.awcExp
    ensures AverageOf(s.heartRates) != 0 ==> o.state.heartRates == [] && o.state.awcExp >= 0 && 3 <= |o.events| <= 5
  {
    var s1 := s.(lastUpdateTime := now);
    var avg := AverageOf(s.heartRates);
    if avg == 0 then Outcome(s1, [])
    else
      var awc := NextAwc(c, s.awcExp, Hrr(c, avg));
      var fatigue := FatigueScore(c, awc);
      var s2 := s1.(awcExp := awc, heartRates := []);
      var reported := [HeartRateShown(avg), FatigueLevelShown(fatigue), FatigueLevelUploaded(fatigue, now)];
      if fatigue > FatigueWarningThreshold then
        var h := Highlight(s2, sender, Min(fatigue, WarningCap), now);
        Outcome(h.state, reported + h.events)
      else Outcome(s2, reported)
  }

  /** Whether a heart rate that passed the maximum check joins the buffer.
      A buffer averaging 0 takes any rate; with a buffer of positive rates
      the average is non-zero, and an accepted rate lies within 30 of the
      buffer's range. */
  predicate Accepted(buffer: seq<int>, hr: int)
    ensures buffer == [] ==> Accepted(buffer, hr)
    ensures AverageOf(buffer) == 0 ==> Accepted(buffer, hr)
    ensures buffer != [] && MinOf(buffer) > 0 ==>
              AverageOf(buffer) != 0
              && (Accepted(buffer, hr) ==> MinOf(buffer) - OutlierDistance < hr < MaxOf(buffer) + OutlierDistance)
  {
    var avg := AverageOf(buffer);
    var near := avg == 0 || (avg != 0 && Abs(hr - avg) < OutlierDistance);
    if buffer == [] then near else AverageWithinRange(buffer); near
  }

  /** The sample-acceptance part of `didReceiveIBI` for a heart rate received
      with sample time `timestamp` at wall-clock time `now`. */
  function Receive(c: Calibration, sender: Sender, s: Estimator, hr: int, timestamp: int, now: int): (o: Outcome)
    requires c.Valid()
    ensures o.state.lastWarningSent >= s.lastWarningSent
    ensures s.awcExp >= 0 ==> o.state.awcExp >= 0
    ensures o.state.heartRates in {s.heartRates, s.heartRates + [hr], []}
    ensures |o.events| <= 6
  {
    if hr > c.maxHeartRate then Outcome(s, [])
    else
      var accepted := Accepted(s.heartRates, hr);
      var s1 := if accepted then s.(heartRates := s.heartRates + [hr]) else s;
      var uploaded := if accepted then [HeartRateUploaded(hr, timestamp)] else [];
      if timestamp - s.lastUpdateTime > AssessmentInterval then
        var o := Assess(c, sender, s1, now);
        Outcome(o.state, uploaded + o.events)
      else Outcome(s1, uploaded)
  }

  /** One sample from the wristband: heart rate, its timestamp and the clock. */
  datatype Sample = Sample(heartRate: int, timestamp: int, now: int)

  /** A session: the samples delivered one after another. */
  function Run(c: Calibration, sender: Sender, s: Estimator, samples: seq<Sample>): (o: Outcome)
    requires c.Valid()
    ensures o.state.lastWarningSent >= s.lastWarningSent
    ensures |o.events| <= 6 * |samples|
    decreases |samples|
  {
    if samples == [] then Outcome(s, [])
    else
      var o := Receive(c, sender, s, samples[0].heartRate, samples[0].timestamp, samples[0].now);
      var rest := Run(c, sender, o.state, samples[1..]);
      Outcome(rest.state, o.events + rest.events)
  }

  /** The timestamps of the warning records among `events`, in order. */
  function WarningTimes(events: seq<Event>): seq<int> {
    if events == [] then []
    else (if events[0].WarningUploaded? then [events[0].timestamp] else []) + WarningTimes(events[1..])
  }

  /** Every time is at least `RateLimitSeconds` after the one before it, the
      first at least that long after `last`. */
  predicate Spaced(last: int, times: seq<int>)
    decreases |times|
  {
    times == [] || (times[0] >= last + RateLimitSeconds && Spaced(times[0], times[1..]))
  }

  // ---------------------------------------------------------------------
  // The controller object

  class ViewController {
    var heartRates: seq<int>
    var lastUpdateTime: int
    var awcExp: int
    var maxHeartRate: int
    var restHr: int
    var hrReserveCp: int
    var kValue: int
    var totalAwc: int
    /** Persisted setting `lastFatigueWarningSent`. */
    var lastFatigueWarningSent: int
    /** Persisted settings `userFirstName` and `userGroupId`. */
    var userFirstName: Option<string>
    var userGroupId: Option<string>
    /** Everything uploaded, shown or sent so far, in order. */
    ghost var events: seq<Event>

    function Cal(): Calibration
      reads this
    {
      Calibration(restHr, hrReserveCp, kValue, totalAwc, maxHeartRate)
    }

    function State(): Estimator
      reads this
    {
      Estimator(heartRates, lastUpdateTime, awcExp, lastFatigueWarningSent)
    }

    function CurrentSender(): Sender
      reads this
    {
      Sender(userFirstName.GetOr("ERROR"), userGroupId.GetOr("ERROR"))
    }

    ghost predicate Valid()
      reads this
    {
      Cal().Valid() && awcExp >= 0
    }

    /** A fresh controller: empty buffer, no assessment yet, nothing spent. */
    constructor (cal: Calibration, lastSent: int, firstName: Option<string>, groupId: Option<string>)
      requires cal.Valid()
      ensures Valid()
      ensures Cal() == cal && State() == Estimator([], 0, 0, lastSent)
      ensures userFirstName == firstName && userGroupId == groupId && events == []
    {
      heartRates := [];
      lastUpdateTime := 0;
      awcExp := 0;
      maxHeartRate := cal.maxHeartRate;
      restHr := cal.restHr;
      hrReserveCp := cal.hrReserveCp;
      kValue := cal.kValue;
      totalAwc := cal.totalAwc;
      lastFatigueWarningSent := lastSent;
      userFirstName := firstName;
      userGroupId := groupId;
      events := [];
    }

    method UploadFatigueHighlight(fatigueLevel: int, now: int)
      requires Valid()
      modifies this
      ensures Valid()
      ensures Cal() == old(Cal()) && userFirstName == old(userFirstName) && userGroupId == old(userGroupId)
      ensures var o := Highlight(old(State()), old(CurrentSender()), fatigueLevel, now);
              State() == o.state && events == old(events) + o.events
    {
      if now < lastFatigueWarningSent + MaxFrequency * 60 {
        return;
      } else {
        lastFatigueWarningSent := now;
      }
      var firstName := userFirstName.GetOr("ERROR");
      var groupId := userGroupId.GetOr("ERROR");
      events := events + [WarningNotified(firstName, fatigueLevel, groupId)];
      events := events + [WarningUploaded(fatigueLevel, now)];
    }

    method AssessFatigue(now: int)
      requires Valid()
      modifies this
      ensures Valid()
      ensures Cal() == old(Cal()) && userFirstName == old(userFirstName) && userGroupId == old(userGroupId)
      ensures var o := Assess(old(Cal()), old(CurrentSender()), old(State()), now);
              State() == o.state && events == old(events) + o.events
    {
      lastUpdateTime := now;
      var avgHR := AverageOf(heartRates);
      if avgHR == 0 {
        return;
      }
      var hrr := Quot((avgHR - restHr) * 100, maxHeartRate - restHr);
      awcExp := Max(awcExp + kValue * (hrr - hrReserveCp), 0);
      var fatigue := Quot(awcExp * 100, totalAwc);
      events := events + [HeartRateShown(avgHR), FatigueLevelShown(fatigue)];
      events := events + [FatigueLevelUploaded(fatigue, now)];
      heartRates := [];
      if fatigue > FatigueWarningThreshold {
        UploadFatigueHighlight(Min(fatigue, WarningCap), now);
      }
    }

    method DidReceiveIBI(heartRate: int, timestamp: int, now: int)
      requires Valid()
      modifies this
      ensures Valid()
      ensures Cal() == old(Cal()) && userFirstName == old(userFirstName) && userGroupId == old(userGroupId)
      ensures var o := Receive(old(Cal()), old(CurrentSender()), old(State()), heartRate, timestamp, now);
              State() == o.state && events == old(events) + o.events
    {
      if heartRate > maxHeartRate {
        return;
      }
      var avgHR := AverageOf(heartRates);
      if avgHR == 0 || (avgHR != 0 && Abs(heartRate - avgHR) < OutlierDistance) {
        heartRates := heartRates + [heartRate];
        events := events + [HeartRateUploaded(heartRate, timestamp)];
      }
      if timestamp - lastUpdateTime > AssessmentInterval {
        AssessFatigue(now);
      }
    }
  }

  // ---------------------------------------------------------------------
  // Properties

  lemma {:induction false} SumBounds(s: seq<int>)
    requires s != []
    ensures |s| * MinOf(s) <= Sum(s) <= |s| * MaxOf(s)
  {
    if |s| > 1 {
      var p := s[..|s| - 1];
      var x := s[|s| - 1];
      SumBounds(p);
      assert Sum(s) == Sum(p) + x;
      assert MinOf(s) == Min(MinOf(p), x) && MaxOf(s) == Max(MaxOf(p), x);
      BoundStep(|p|, Sum(p), x, MinOf(p), MaxOf(p), MinOf(s), MaxOf(s));
    }
  }

  /** One more element between `lo` and `hi` keeps the sum between `n * lo` and `n * hi`. */
  lemma BoundStep(n: nat, sum: int, x: int, loP: int, hiP: int, lo: int, hi: int)
    requires n * loP <= sum <= n * hiP
    requires lo <= loP && lo <= x && hiP <= hi && x <= hi
    ensures (n + 1) * lo <= sum + x <= (n + 1) * hi
  {
    MulMonotone(n, lo, loP);
    MulMonotone(n, hiP, hi);
    assert (n + 1) * lo == n * lo + lo;
    assert (n + 1) * hi == n * hi + hi;
  }

  lemma MulMonotone(n: nat, a: int, b: int)
    requires a <= b
    ensures n * a <= n * b
  {
  }

  lemma FloorDivBounds(t: int, n: int, lo: int, hi: int)
    requires n > 0 && n * lo <= t <= n * hi
    ensures lo <= t / n <= hi
  {
    var q, r := t / n, t % n;
    assert t == n * q + r && 0 <= r < n;
    if q > hi {
      MulMonotone(n, hi + 1, q);
      assert false;
    }
    if q < lo {
      MulMonotone(n, q + 1, lo);
      assert false;
    }
  }

  lemma QuotBounds(t: int, n: int, lo: int, hi: int)
    requires n > 0 && n * lo <= t <= n * hi
    ensures lo <= Quot(t, n) <= hi
  {
    if t >= 0 {
      QuotOfNonNegative(t, n);
      FloorDivBounds(t, n, lo, hi);
    } else {
      assert n * (-hi) <= -t <= n * (-lo);
      FloorDivBounds(-t, n, -hi, -lo);
      assert Quot(t, n) == -((-t) / n);
    }
  }

  /** A non-empty buffer's average lies between its smallest and largest sample. */
  lemma AverageWithinRange(s: seq<int>)
    requires s != []
    ensures MinOf(s) <= AverageOf(s) <= MaxOf(s)
  {
    SumBounds(s);
    QuotBounds(Sum(s), |s|, MinOf(s), MaxOf(s));
  }

  /** A heart rate above the maximum is dropped before the buffer and before
      the assessment-time check: nothing changes and nothing is emitted. */
  lemma TooHighIgnored(c: Calibration, sender: Sender, s: Estimator, hr: int, timestamp: int, now: int)
    requires c.Valid() && hr > c.maxHeartRate
    ensures Receive(c, sender, s, hr, timestamp, now) == Outcome(s, [])
  {
  }

  /** Without an assessment, the buffer gains the sample exactly when it is
      accepted and the sample upload is the only effect. */
  lemma BufferingWithoutAssessment(c: Calibration, sender: Sender, s: Estimator, hr: int, timestamp: int, now: int)
    requires c.Valid() && hr <= c.maxHeartRate
    requires timestamp - s.lastUpdateTime <= AssessmentInterval
    ensures var o := Receive(c, sender, s, hr, timestamp, now);
            && o.state.awcExp == s.awcExp
            && o.state.lastUpdateTime == s.lastUpdateTime
            && o.state.lastWarningSent == s.lastWarningSent
            && (Accepted(s.heartRates, hr) <==> o.state.heartRates == s.heartRates + [hr])
            && (!Accepted(s.heartRates, hr) ==> o.state.heartRates == s.heartRates && o.events == [])
            && (Accepted(s.heartRates, hr) ==> o.events == [HeartRateUploaded(hr, timestamp)])
  {
    if !Accepted(s.heartRates, hr) {
      assert |s.heartRates + [hr]| != |s.heartRates|;
    }
  }

  /** An assessment runs exactly when the sample passed the maximum check and
      is more than a minute newer than the last assessment, also when the
      sample itself was rejected as an outlier; it stamps `now`. */
  lemma AssessmentTrigger(c: Calibration, sender: Sender, s: Estimator, hr: int, timestamp: int, now: int)
    requires c.Valid() && now != s.lastUpdateTime
    ensures var o := Receive(c, sender, s, hr, timestamp, now);
            (o.state.lastUpdateTime == now) <==>
              (hr <= c.maxHeartRate && timestamp - s.lastUpdateTime > AssessmentInterval)
  {
  }

  /** An assessment of a buffer averaging 0 only records the time. */
  lemma EmptyAssessment(c: Calibration, sender: Sender, s: Estimator, now: int)
    requires c.Valid() && AverageOf(s.heartRates) == 0
    ensures Assess(c, sender, s, now) == Outcome(s.(lastUpdateTime := now), [])
  {
  }

  /** What a non-empty assessment does: the accumulator takes the single
      update, the score is reported and uploaded once, the buffer is emptied,
      and a capped warning is offered to the rate limiter iff the score is positive. */
  lemma AssessmentEffects(c: Calibration, sender: Sender, s: Estimator, now: int)
    requires c.Valid() && AverageOf(s.heartRates) != 0
    ensures var avg := AverageOf(s.heartRates);
            var awc := NextAwc(c, s.awcExp, Hrr(c, avg));
            var fatigue := FatigueScore(c, awc);
            var o := Assess(c, sender, s, now);
            && o.state.awcExp == awc && o.state.heartRates == [] && o.state.lastUpdateTime == now
            && o.events[..3] == [HeartRateShown(avg), FatigueLevelShown(fatigue), FatigueLevelUploaded(fatigue, now)]
            && (fatigue > 0 && WarningAllowed(s.lastWarningSent, now) ==>
                  o.events[3..] == [WarningNotified(sender.firstName, Min(fatigue, 100), sender.groupId),
                                    WarningUploaded(Min(fatigue, 100), now)]
                  && o.state.lastWarningSent == now)
            && (!(fatigue > 0 && WarningAllowed(s.lastWarningSent, now)) ==>
                  |o.events| == 3 && o.state.lastWarningSent == s.lastWarningSent)
  {
  }

  /** The accumulator is never negative after any sequence of samples. */
  lemma {:induction false} AwcNeverNegative(c: Calibration, sender: Sender, s: Estimator, samples: seq<Sample>)
    requires c.Valid() && s.awcExp >= 0
    ensures Run(c, sender, s, samples).state.awcExp >= 0
    decreases |samples|
  {
    if samples != [] {
      var o := Receive(c, sender, s, samples[0].heartRate, samples[0].timestamp, samples[0].now);
      AwcNeverNegative(c, sender, o.state, samples[1..]);
    }
  }

  lemma {:induction false} WarningTimesAppend(a: seq<Event>, b: seq<Event>)
    ensures WarningTimes(a + b) == WarningTimes(a) + WarningTimes(b)
  {
    if a != [] {
      assert (a + b)[0] == a[0];
      assert (a + b)[1..] == a[1..] + b;
      WarningTimesAppend(a[1..], b);
    } else {
      assert a + b == b;
    }
  }

  lemma {:induction false} NoWarningTimes(events: seq<Event>)
    requires forall i :: 0 <= i < |events| ==> !events[i].WarningUploaded?
    ensures WarningTimes(events) == []
  {
    if events != [] {
      NoWarningTimes(events[1..]);
    }
  }

  /** A step from `before` to `o` sends at most one warning; when it sends
      one, the recorded send time is that warning's time and lies a full
      interval after the previous one; otherwise the recorded time is kept. */
  predicate WarningStep(before: Estimator, o: Outcome) {
    || (WarningTimes(o.events) == [] && o.state.lastWarningSent == before.lastWarningSent)
    || (WarningTimes(o.events) == [o.state.lastWarningSent]
        && o.state.lastWarningSent >= before.lastWarningSent + RateLimitSeconds)
  }

  lemma HighlightWarning(s: Estimator, sender: Sender, level: int, now: int)
    ensures WarningStep(s, Highlight(s, sender, level, now))
  {
    var h := Highlight(s, sender, level, now);
    if WarningAllowed(s.lastWarningSent, now) {
      assert h.events[1..] == [WarningUploaded(level, now)];
      assert WarningTimes(h.events[1..]) == [now];
    }
  }

  lemma AssessWarning(c: Calibration, sender: Sender, s: Estimator, now: int)
    requires c.Valid()
    ensures WarningStep(s, Assess(c, sender, s, now))
  {
    var avg := AverageOf(s.heartRates);
    if avg != 0 {
      var awc := NextAwc(c, s.awcExp, Hrr(c, avg));
      var fatigue := FatigueScore(c, awc);
      var s2 := s.(lastUpdateTime := now, awcExp := awc, heartRates := []);
      var reported := [HeartRateShown(avg), FatigueLevelShown(fatigue), FatigueLevelUploaded(fatigue, now)];
      NoWarningTimes(reported);
      if fatigue > FatigueWarningThreshold {
        var h := Highlight(s2, sender, Min(fatigue, WarningCap), now);
        HighlightWarning(s2, sender, Min(fatigue, WarningCap), now);
        WarningTimesAppend(reported, h.events);
      }
    }
  }

  lemma ReceiveWarning(c: Calibration, sender: Sender, s: Estimator, hr: int, timestamp: int, now: int)
    requires c.Valid()
    ensures WarningStep(s, Receive(c, sender, s, hr, timestamp, now))
  {
    if hr <= c.maxHeartRate {
      var accepted := Accepted(s.heartRates, hr);
      var s1 := if accepted then s.(heartRates := s.heartRates + [hr]) else s;
      var uploaded := if accepted then [HeartRateUploaded(hr, timestamp)] else [];
      NoWarningTimes(uploaded);
      if timestamp - s.lastUpdateTime > AssessmentInterval {
        AssessWarning(c, sender, s1, now);
        WarningTimesAppend(uploaded, Assess(c, sender, s1, now).events);
      }
    }
  }

  /** Rate limiting over a whole session: consecutive warnings are at least
      `RateLimitSeconds` apart, the first one that long after the persisted
      send time, and the persisted time ends as the last warning's. */
  lemma {:induction false} WarningsSpaced(c: Calibration, sender: Sender, s: Estimator, samples: seq<Sample>)
    requires c.Valid()
    ensures var o := Run(c, sender, s, samples);
            var times := WarningTimes(o.events);
            && Spaced(s.lastWarningSent, times)
            && o.state.lastWarningSent == (if times == [] then s.lastWarningSent else times[|times| - 1])
    decreases |samples|
  {
    if samples != [] {
      var x := samples[0];
      var o1 := Receive(c, sender, s, x.heartRate, x.timestamp, x.now);
      ReceiveWarning(c, sender, s, x.heartRate, x.timestamp, x.now);
      WarningsSpaced(c, sender, o1.state, samples[1..]);
      var rest := Run(c, sender, o1.state, samples[1..]);
      assert Run(c, sender, s, samples) == Outcome(rest.state, o1.events + rest.events);
      WarningTimesAppend(o1.events, rest.events);
      var t1, t2 := WarningTimes(o1.events), WarningTimes(rest.events);
      if t1 != [] {
        assert (t1 + t2)[0] == o1.state.lastWarningSent;
        assert (t1 + t2)[1..] == t2;
      } else {
        assert t1 + t2 == t2;
      }
    }
  }

  /** A second warning one second short of the interval is suppressed; one
      exactly the interval later is sent. */
  lemma RateLimitScenario(s: Estimator, sender: Sender, level: int, t: int)
    requires WarningAllowed(s.lastWarningSent, t)
    ensures var first := Highlight(s, sender, level, t);
            && |first.events| == 2
            && Highlight(first.state, sender, level, t + RateLimitSeconds - 1).events == []
            && |Highlight(first.state, sender, level, t + RateLimitSeconds).events| == 2
  {
  }

  /** Worked example with the loader's default calibration (rest 65,
      critical power 16, k 15, total 200) and maximum 187: an average of 140
      gives HRR 61, an accumulator of 675 and a score of 337; a following
      average of 65 gives HRR 0 and, with the single update formula, an
      accumulator of 435 and a score of 217. */
  lemma TwoCycleScenario(sender: Sender)
    ensures var c := DefaultCalibration(187);
            var s0 := Estimator([140], 0, 0, 0);
            var o1 := Assess(c, sender, s0, 100);
            var o2 := Assess(c, sender, o1.state.(heartRates := [65]), 200);
            && Hrr(c, 140) == 61 && o1.state.awcExp == 675 && o1.events[1] == FatigueLevelShown(337)
            && Hrr(c, 65) == 0 && o2.state.awcExp == 435 && o2.events[1] == FatigueLevelShown(217)
  {
    var c := DefaultCalibration(187);
    assert Sum([140]) == 140;
    assert Sum([65]) == 65;
    assert Hrr(c, 140) == 61;
    assert FatigueScore(c, 675) == 337;
    assert FatigueScore(c, 435) == 217;
  }
}
