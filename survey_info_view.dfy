/** The decisions of `SurveyInfoView`: the eight-bar response indicator and
    what the screen offers below it. */
module SurveyInfoView {
  import opened Base

  /** Surveys allowed per day, and bars drawn. */
  const MaxDaily: int := 8
  /** Surveys required per day. */
  const RequiredDaily: int := 5

  /** A bar of the indicator: a response given (green), a required one still
      missing (red), an optional one still missing (gray). */
  datatype Bar = Filled | Required | Optional

  function BarAt(index: int, todaysResponses: int): (b: Bar)
    ensures b == Filled <==> index < todaysResponses
    ensures b == Optional <==> index >= todaysResponses && index >= RequiredDaily
    ensures b == Required <==> index >= todaysResponses && index < RequiredDaily
  {
    if index < todaysResponses then Filled
    else if index >= RequiredDaily then Optional
    else Required
  }

  /** The indicator: one bar per index 0..<8. */
  function Bars(todaysResponses: int): (bars: seq<Bar>)
    ensures |bars| == MaxDaily
    ensures forall i :: 0 <= i < |bars| ==> (bars[i] == Filled <==> i < todaysResponses)
  {
    seq(MaxDaily, i => BarAt(i, todaysResponses))
  }

  function Count(bars: seq<Bar>, b: Bar): nat {
    if bars == [] then 0 else (if bars[0] == b then 1 else 0) + Count(bars[1..], b)
  }

  /** The bars of indices `k..<8` are filled or not as the count says. */
  lemma {:induction false} CountFrom(k: nat, todaysResponses: int)
    requires k <= MaxDaily
    ensures Count(Bars(todaysResponses)[k..], Filled) == Clamp(todaysResponses - k, 0, MaxDaily - k)
    ensures Count(Bars(todaysResponses)[k..], Required) == Max(0, RequiredDaily - Max(k, todaysResponses))
    decreases MaxDaily - k
  {
    var bars := Bars(todaysResponses);
    if k < MaxDaily {
      assert bars[k..][1..] == bars[k + 1..];
      CountFrom(k + 1, todaysResponses);
    } else {
      assert bars[k..] == [];
    }
  }

  function Clamp(x: int, lo: int, hi: int): int
    requires lo <= hi
  {
    if x < lo then lo else if x > hi then hi else x
  }

  /** The number of green bars is the number of responses, at most 8, and the
      red bars are the required responses still missing. */
  lemma FilledCount(todaysResponses: int)
    ensures Count(Bars(todaysResponses), Filled) == Clamp(todaysResponses, 0, MaxDaily)
    ensures Count(Bars(todaysResponses), Required) == RequiredDaily - Clamp(todaysResponses, 0, RequiredDaily)
  {
    CountFrom(0, todaysResponses);
    assert Bars(todaysResponses)[0..] == Bars(todaysResponses);
  }

  /** What the screen shows below the indicator. */
  datatype Offer = MaxReached | ReturnAt | ContinueToSurvey | ReadDetails

  /** Eight responses end the day; otherwise the spacing decides first, then
      whether the details were read. */
  function SurveyOffer(todaysResponses: int, timePassed: bool, continueButtonEnabled: bool): (o: Offer)
    ensures o == MaxReached <==> todaysResponses >= MaxDaily
    ensures o == ReturnAt <==> todaysResponses < MaxDaily && !timePassed
    ensures o == ContinueToSurvey <==> todaysResponses < MaxDaily && timePassed && continueButtonEnabled
    ensures o == ReadDetails <==> todaysResponses < MaxDaily && timePassed && !continueButtonEnabled
  {
    if todaysResponses < MaxDaily then
      if !timePassed then ReturnAt
      else if continueButtonEnabled then ContinueToSurvey
      else ReadDetails
    else MaxReached
  }

  /** The screen's persisted flag `continueButtonEnabled` (`userReadSurveyDetails`). */
  class SurveyInfoScreen {
    var continueButtonEnabled: bool

    constructor (stored: bool)
      ensures continueButtonEnabled == stored
    {
      continueButtonEnabled := stored;
    }

    /** Tapping Details enables the continue button; nothing disables it. */
    method TapDetails()
      modifies this
      ensures continueButtonEnabled
    {
      continueButtonEnabled := true;
    }

    /** What the screen offers: never the read-details prompt once the
        button is enabled, and the survey only once it is. */
    function Offer(todaysResponses: int, timePassed: bool): (o: Offer)
      reads this
      ensures continueButtonEnabled ==> o != ReadDetails
      ensures o == ContinueToSurvey ==> continueButtonEnabled && timePassed && todaysResponses < MaxDaily
      ensures !continueButtonEnabled && timePassed && todaysResponses < MaxDaily ==> o == ReadDetails
    {
      SurveyOffer(todaysResponses, timePassed, continueButtonEnabled)
    }
  }

  /** Once Details was tapped, the screen never asks to read them again. */
  lemma NoPromptAfterDetails(todaysResponses: int, timePassed: bool)
    ensures SurveyOffer(todaysResponses, timePassed, true) != ReadDetails
  {
  }
}
