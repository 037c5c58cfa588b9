/** `SurveyDetailsView`: five pages of survey information paged by a back
    and a forward button, and on the last page the way into the survey. */
module SurveyDetailsView {
  import SurveyInfoView
  import SurveyManager

  const TotalPages: int := 5

  /** What a page shows: one of the five information pages, or the error text. */
  datatype PageContent = Page(title: string) | ErrorText

  /** The page shown for `page`; only indices 1..5 have content. */
  function ContentOf(page: int): (c: PageContent)
    ensures c.ErrorText? <==> !(1 <= page <= TotalPages)
  {
    if page == 1 then Page("Welcome to the Fatigue Survey!")
    else if page == 2 then Page("Minimum 5 surveys per day")
    else if page == 3 then Page("Rate your fatigue level")
    else if page == 4 then Page("ROF scale examples")
    else if page == 5 then Page("Let's begin!")
    else ErrorText
  }

  /** The control at the right of the page counter. */
  datatype NextControl = NextPage | SurveyLink | NextTime | NotAvailable

  /** Before the last page a forward button; on it, the survey link when a
      survey is allowed now, the next-time button when only the spacing
      forbids it, and "N/A" once eight responses are in. */
  function NextControlOf(page: int, todaysResponses: int, timePassed: bool): (n: NextControl)
    ensures n == NextPage <==> page + 1 <= TotalPages
    ensures n == SurveyLink <==> page + 1 > TotalPages && todaysResponses < SurveyInfoView.MaxDaily && timePassed
    ensures n == NextTime <==> page + 1 > TotalPages && todaysResponses < SurveyInfoView.MaxDaily && !timePassed
    ensures n == NotAvailable <==> page + 1 > TotalPages && todaysResponses >= SurveyInfoView.MaxDaily
  {
    if page + 1 > TotalPages then
      if todaysResponses < SurveyInfoView.MaxDaily && timePassed then SurveyLink
      else if todaysResponses < SurveyInfoView.MaxDaily then NextTime
      else NotAvailable
    else NextPage
  }

  /** The `page` state of the view. */
  class SurveyDetailsScreen {
    var page: int

    predicate Valid()
      reads this
    {
      1 <= page <= TotalPages
    }

    constructor ()
      ensures page == 1 && Valid()
    {
      page := 1;
    }

    /** The back button, disabled when `page - 1 < 1`. */
    method Back()
      requires Valid()
      modifies this
      ensures Valid()
      ensures page == if old(page) - 1 < 1 then old(page) else old(page) - 1
    {
      if !(page - 1 < 1) {
        page := page - 1;
      }
    }

    /** The forward button, shown only while `page + 1 <= totalPages`. */
    method Forward()
      requires Valid()
      modifies this
      ensures Valid()
      ensures page == if old(page) + 1 <= TotalPages then old(page) + 1 else old(page)
    {
      if page + 1 <= TotalPages {
        page := page + 1;
      }
    }

    function Content(): PageContent
      reads this
    {
      ContentOf(page)
    }
  }

  // ---------------------------------------------------------------------
  // Properties

  /** The error text is never shown by a screen in a valid state. */
  lemma NoErrorPage(page: int)
    requires 1 <= page <= TotalPages
    ensures ContentOf(page).Page?
  {
  }

  /** Four forward taps from the first page reach the last page, and four
      back taps from there return to the first. */
  method WalkThrough(screen: SurveyDetailsScreen)
    requires screen.Valid() && screen.page == 1
    modifies screen
    ensures screen.page == 1
  {
    screen.Forward();
    screen.Forward();
    screen.Forward();
    screen.Forward();
    assert screen.page == TotalPages;
    assert NextControlOf(screen.page, 0, true) == SurveyLink;
    screen.Forward();
    assert screen.page == TotalPages;
    screen.Back();
    screen.Back();
    screen.Back();
    screen.Back();
    screen.Back();
  }

  /** On the last page the details screen and the info screen agree: the
      survey link appears exactly when the info screen, with the details
      read, offers to continue. */
  lemma LastPageAgreesWithInfo(todaysResponses: int, timePassed: bool)
    ensures NextControlOf(TotalPages, todaysResponses, timePassed) == SurveyLink
            <==> SurveyInfoView.SurveyOffer(todaysResponses, timePassed, true) == SurveyInfoView.ContinueToSurvey
    ensures NextControlOf(TotalPages, todaysResponses, timePassed) == NotAvailable
            <==> SurveyInfoView.SurveyOffer(todaysResponses, timePassed, true) == SurveyInfoView.MaxReached
  {
  }

  /** Right after a survey is stored at `now`, the last page shows the
      next-time button or "N/A", never the survey link. */
  lemma NoLinkRightAfterSurvey(stamps: seq<int>, now: int, todayMidnight: int)
    ensures var after := stamps + [now];
            NextControlOf(TotalPages, SurveyManager.CountToday(after, todayMidnight), SurveyManager.SufficientTimePassed(after, now)) != SurveyLink
  {
    SurveyManager.GateAfterAdd(stamps, now, now);
  }
}
