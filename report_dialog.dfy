/** The dialog for reporting a flag: a notice on step 1, then a form with a reason, an
    explanation and an e-mail address, checked by a schema before it is submitted. The
    e-mail check belongs to the schema library and is a parameter here. */
module ReportDialog {
  import opened DialogSteps

  datatype ReportValues = ReportValues(reportType: string, explanation: string, email: string)

  const Defaults: ReportValues := ReportValues("incorrect", "", "")

  const ReportTypes: seq<string> := ["incorrect", "inappropriate", "personal", "other"]

  const MinExplanation: nat := 10
  const MaxExplanation: nat := 500

  /** One complaint of the schema, in the order of the schema's keys. */
  datatype Issue = BadReportType | ExplanationTooShort | ExplanationTooLong | BadEmail

  /** The messages the schema gives; the reason check has the library's own message. */
  function Message(i: Issue): string {
    match i
    case BadReportType => "Invalid enum value"
    case ExplanationTooShort => "Please provide at least 10 characters of explanation"
    case ExplanationTooLong => "Explanation must be less than 500 characters"
    case BadEmail => "Please enter a valid email address"
  }

  /** Each issue has a message of its own, so the message shown names the broken rule. */
  lemma MessagesDistinct(i: Issue, j: Issue)
    requires i != j
    ensures Message(i) != Message(j)
  {
  }

  /** `reportSchema.safeParse(values)`: the issues found, an empty list when it succeeds. */
  function Issues(v: ReportValues, isEmail: string -> bool): seq<Issue> {
    (if v.reportType in ReportTypes then [] else [BadReportType])
    + (if |v.explanation| < MinExplanation then [ExplanationTooShort] else [])
    + (if |v.explanation| > MaxExplanation then [ExplanationTooLong] else [])
    + (if isEmail(v.email) then [] else [BadEmail])
  }

  predicate Accepts(v: ReportValues, isEmail: string -> bool) {
    Issues(v, isEmail) == []
  }

  /** Each issue is raised exactly when its field breaks its rule. */
  lemma IssuesIff(v: ReportValues, isEmail: string -> bool)
    ensures BadReportType in Issues(v, isEmail) <==> v.reportType !in ReportTypes
    ensures ExplanationTooShort in Issues(v, isEmail) <==> |v.explanation| < 10
    ensures ExplanationTooLong in Issues(v, isEmail) <==> |v.explanation| > 500
    ensures BadEmail in Issues(v, isEmail) <==> !isEmail(v.email)
  {
  }

  /** The schema accepts exactly a listed reason, an explanation of 10 to 500 characters
      (both bounds included) and an address the e-mail check accepts. */
  lemma AcceptsIff(v: ReportValues, isEmail: string -> bool)
    ensures Accepts(v, isEmail) <==>
      v.reportType in ReportTypes && 10 <= |v.explanation| <= 500 && isEmail(v.email)
  {
    IssuesIff(v, isEmail);
    if !Accepts(v, isEmail) {
      var i := Issues(v, isEmail)[0];
      assert i in Issues(v, isEmail);
    }
  }

  /** The default values are rejected whatever the e-mail check says. */
  lemma DefaultsRejected(isEmail: string -> bool)
    ensures !Accepts(Defaults, isEmail)
    ensures ExplanationTooShort in Issues(Defaults, isEmail)
  {
  }

  /** The message of the upper bound says "less than 500", yet an explanation of exactly 500
      characters raises no issue. */
  lemma LimitMessageAdmitsLimit(v: ReportValues, isEmail: string -> bool)
    requires |v.explanation| == MaxExplanation
    ensures Message(ExplanationTooLong) == "Explanation must be less than 500 characters"
    ensures ExplanationTooLong !in Issues(v, isEmail) && ExplanationTooShort !in Issues(v, isEmail)
  {
    IssuesIff(v, isEmail);
  }

  /** Submitting accepted values and cancelling end in the same state, the mounted one; a
      second submit or cancel changes nothing. */
  lemma SubmitAndCloseReset(s: DialogState<ReportValues>, isEmail: string -> bool)
    requires Accepts(s.values, isEmail)
    ensures AfterSubmit(s, Defaults, v => Accepts(v, isEmail)) == AfterClose(s, Defaults) == Closed(Defaults)
    ensures AfterClose(Closed(Defaults), Defaults) == Closed(Defaults)
    ensures AfterSubmit(Closed(Defaults), Defaults, v => Accepts(v, isEmail)) == Closed(Defaults)
  {
    CloseAndSubmitAgree(s, Defaults, v => Accepts(v, isEmail));
  }

  /** From the mounted state, every sequence of actions keeps `step` in {1, 2}. */
  lemma StepStaysInRange(es: seq<DialogEvent<ReportValues>>, isEmail: string -> bool)
    ensures var s := Run(Closed(Defaults), es, Defaults, v => Accepts(v, isEmail)); s.step == 1 || s.step == 2
  {
    RunKeepsStepInRange(Closed(Defaults), es, Defaults, v => Accepts(v, isEmail));
  }

  datatype Field = ReportType | Explanation | Email

  function With(v: ReportValues, f: Field, x: string): (r: ReportValues)
    ensures f == ReportType ==> r == ReportValues(x, v.explanation, v.email)
    ensures f == Explanation ==> r == ReportValues(v.reportType, x, v.email)
    ensures f == Email ==> r == ReportValues(v.reportType, v.explanation, x)
  {
    match f
    case ReportType => v.(reportType := x)
    case Explanation => v.(explanation := x)
    case Email => v.(email := x)
  }

  /** The `ReportDialog` component. */
  class Component {
    var open: bool
    var step: int
    var values: ReportValues

    function State(): DialogState<ReportValues>
      reads this
    {
      DialogState(open, step, values)
    }

    constructor ()
      ensures State() == Closed(Defaults)
    {
      open, step, values := false, 1, Defaults;
    }

    method HandleOpenChange(o: bool)
      modifies this
      ensures State() == AfterOpenChange(old(State()), o)
    {
      open := o;
    }

    method HandleContinue()
      modifies this
      ensures State() == AfterContinue(old(State()))
      ensures step == 2
    {
      step := 2;
    }

    method HandleBack()
      modifies this
      ensures State() == AfterBack(old(State()))
      ensures step == 1
    {
      step := 1;
    }

    method HandleChange(f: Field, x: string)
      modifies this
      ensures State() == AfterEdit(old(State()), With(old(values), f, x))
    {
      values := With(values, f, x);
    }

    method HandleClose()
      modifies this
      ensures State() == AfterClose(old(State()), Defaults)
      ensures State() == Closed(Defaults)
    {
      open := false;
      step := 1;
      values := Defaults;
    }

    /** `handleReportSubmit`, which the form calls once the schema has accepted the values. */
    method HandleReportSubmit()
      modifies this
      ensures State() == Closed(Defaults)
    {
      open := false;
      step := 1;
      values := Defaults;
    }

    /** The form's submit event: the schema first, the handler only if it finds nothing. */
    method SubmitForm(isEmail: string -> bool) returns (issues: seq<Issue>)
      modifies this
      ensures issues == Issues(old(values), isEmail)
      ensures State() == AfterSubmit(old(State()), Defaults, v => Accepts(v, isEmail))
    {
      issues := Issues(values, isEmail);
      if issues == [] {
        HandleReportSubmit();
      }
    }
  }
}
