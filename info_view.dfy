/** The text and the risk band `InfoView` shows for the current heart rate
    and fatigue level. */
module InfoView {
  import opened Base

  /** The decimal digit character of `d`. */
  function DigitChar(d: int): char
    requires 0 <= d < 10
  {
    "0123456789"[d]
  }

  function DigitValue(c: char): int {
    if '0' <= c <= '9' then c as int - '0' as int else 0
  }

  predicate IsDigits(s: string) {
    s != [] && forall i :: 0 <= i < |s| ==> '0' <= s[i] <= '9'
  }

  /** Swift's `String(n)` for a non-negative `n`. */
  function NatToString(n: nat): string
    decreases n
  {
    if n < 10 then [DigitChar(n)] else NatToString(n / 10) + [DigitChar(n % 10)]
  }

  /** Swift's `String(n)` for any `Int`. */
  function IntToString(n: int): string {
    if n < 0 then "-" + NatToString(-n) else NatToString(n)
  }

  /** The value of a string of decimal digits. */
  function DigitsValue(s: string): int {
    if s == [] then 0 else DigitsValue(s[..|s| - 1]) * 10 + DigitValue(s[|s| - 1])
  }

  /** Reading back the decimal rendering of `n` gives `n`. */
  lemma {:induction false} NatToStringRoundTrip(n: nat)
    ensures IsDigits(NatToString(n))
    ensures DigitsValue(NatToString(n)) == n
    decreases n
  {
    if n >= 10 {
      NatToStringRoundTrip(n / 10);
      var s := NatToString(n / 10);
      assert (s + [DigitChar(n % 10)])[..|s|] == s;
    }
  }

  /** The display cap of the fatigue level. */
  const DisplayCap: int := 100

  /** `fatigueLevelDisplay`: "100" above 100, the decimal of the level
      otherwise; a known level never takes more than three digits. */
  function FatigueLevelDisplay(fatigueLevel: int): (s: string)
    ensures fatigueLevel >= 0 ==> 1 <= |s| <= 3
  {
    if fatigueLevel > DisplayCap then "100"
    else if fatigueLevel >= 0 then NatToStringLength(fatigueLevel); IntToString(fatigueLevel)
    else IntToString(fatigueLevel)
  }

  lemma NatToStringLength(n: nat)
    requires n < 1000
    ensures 1 <= |NatToString(n)| <= 3
  {
    if n >= 10 {
      assert |NatToString(n / 10)| <= 2 by {
        if n / 10 >= 10 {
          assert n / 10 / 10 < 10;
        }
      }
    }
  }

  /** The displayed number of a non-negative level is the level capped at 100. */
  lemma DisplayIsCapped(fatigueLevel: int)
    requires fatigueLevel >= 0
    ensures IsDigits(FatigueLevelDisplay(fatigueLevel))
    ensures DigitsValue(FatigueLevelDisplay(fatigueLevel)) == Min(fatigueLevel, DisplayCap)
  {
    NatToStringRoundTrip(Min(fatigueLevel, DisplayCap));
    assert NatToString(100) == "100";
  }

  /** The fatigue text: "--" for a negative level (nothing known yet),
      otherwise the capped display. */
  function FatigueText(fatigueLevel: int): (s: string)
    ensures fatigueLevel < 0 <==> s == "--"
  {
    NatToStringRoundTrip(Min(Abs(fatigueLevel), DisplayCap));
    if fatigueLevel < 0 then "--" else FatigueLevelDisplay(fatigueLevel)
  }

  /** The "%" suffix is shown exactly for a known (non-negative) level,
      that is exactly when the fatigue text is a number. */
  predicate ShowsPercent(fatigueLevel: int)
    ensures ShowsPercent(fatigueLevel) <==> FatigueText(fatigueLevel) != "--"
  {
    fatigueLevel >= 0
  }

  /** The heart-rate text: "--" for 0, the decimal otherwise. */
  function HeartRateText(heartRate: int): (s: string)
    ensures heartRate == 0 <==> s == "--"
  {
    NatToStringDigits(Abs(heartRate));
    var digits := NatToString(Abs(heartRate));
    assert digits[0] != '-';
    assert heartRate < 0 ==> ("-" + digits)[1] == digits[0];
    if heartRate == 0 then "--" else IntToString(heartRate)
  }

  lemma NatToStringDigits(n: nat)
    ensures IsDigits(NatToString(n))
  {
    NatToStringRoundTrip(n);
  }

  /** The fatigue risk band under the fatigue text. */
  datatype Band = Low | Moderate | High | Critical

  /** Below 40 Low, below 70 Moderate, below 90 High, otherwise Critical. The
      uncapped level is compared, and a negative level reads Low. */
  function FatigueBand(fatigueLevel: int): (b: Band)
    ensures b == Low <==> fatigueLevel < 40
    ensures b == Moderate <==> 40 <= fatigueLevel < 70
    ensures b == High <==> 70 <= fatigueLevel < 90
    ensures b == Critical <==> fatigueLevel >= 90
  {
    if fatigueLevel < 40 then Low
    else if fatigueLevel < 70 then Moderate
    else if fatigueLevel < 90 then High
    else Critical
  }

  function Severity(b: Band): nat {
    match b
    case Low => 0
    case Moderate => 1
    case High => 2
    case Critical => 3
  }

  /** A higher level never shows a lower band. */
  lemma BandMonotone(a: int, b: int)
    requires a <= b
    ensures Severity(FatigueBand(a)) <= Severity(FatigueBand(b))
  {
  }

  /** A level shown as "100" is always in the Critical band. */
  lemma CappedIsCritical(fatigueLevel: int)
    requires fatigueLevel >= DisplayCap
    ensures FatigueText(fatigueLevel) == "100" && FatigueBand(fatigueLevel) == Critical
  {
    assert NatToString(100) == "100";
  }
}
