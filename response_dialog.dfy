/** The dialog in which a company representative responds to a flag: a notice on step 1,
    then a form with a name, a title, a company e-mail address and the response, checked by a
    schema before it is submitted. The e-mail check belongs to the schema library and is a
    parameter here. */
module ResponseDialog {
  import opened DialogSteps

  datatype ResponseValues = ResponseValues(response: string, email: string, name: string, title: string)

  const Defaults: ResponseValues := ResponseValues("", "", "", "")

  /** One complaint of the schema, in the order of the schema's keys. */
  datatype Issue =
    | ResponseTooShort | ResponseTooLong
    | BadEmail
    | NameTooShort | NameTooLong
    | TitleTooShort | TitleTooLong

  function Message(i: Issue): string {
    match i
    case ResponseTooShort => "Please provide at least 20 characters in your response"
    case ResponseTooLong => "Response must be less than 1000 characters"
    case BadEmail => "Please enter a valid email address"
    case NameTooShort => "Please enter your name"
    case NameTooLong => "Name must be less than 100 characters"
    case TitleTooShort => "Please enter your title"
    case TitleTooLong => "Title must be less than 100 characters"
  }

  /** Each issue has a message of its own, so the message shown names the broken rule. */
  lemma MessagesDistinct(i: Issue, j: Issue)
    requires i != j
    ensures Message(i) != Message(j)
  {
  }

  /** The issues of one string checked against inclusive length bounds. */
  function LengthIssues(s: string, min: nat, max: nat, short: Issue, long: Issue): seq<Issue> {
    (if |s| < min then [short] else []) + (if |s| > max then [long] else [])
  }

  lemma LengthIssuesIff(s: string, min: nat, max: nat, short: Issue, long: Issue)
    requires min <= max && short != long
    ensures short in LengthIssues(s, min, max, short, long) <==> |s| < min
    ensures long in LengthIssues(s, min, max, short, long) <==> |s| > max
    ensures forall i :: i in LengthIssues(s, min, max, short, long) ==> i == short || i == long
  {
  }

  /** `responseSchema.safeParse(values)`: the issues found, an empty list when it succeeds. */
  function Issues(v: ResponseValues, isEmail: string -> bool): seq<Issue> {
    LengthIssues(v.response, 20, 1000, ResponseTooShort, ResponseTooLong)
    + (if isEmail(v.email) then [] else [BadEmail])
    + LengthIssues(v.name, 2, 100, NameTooShort, NameTooLong)
    + LengthIssues(v.title, 2, 100, TitleTooShort, TitleTooLong)
  }

  predicate Accepts(v: ResponseValues, isEmail: string -> bool) {
    Issues(v, isEmail) == []
  }

  /** Which part of the issue list can hold a given issue. */
  lemma IssuesSplit(v: ResponseValues, isEmail: string -> bool, x: Issue)
    ensures x in Issues(v, isEmail) <==>
      x in LengthIssues(v.response, 20, 1000, ResponseTooShort, ResponseTooLong)
      || (x == BadEmail && !isEmail(v.email))
      || x in LengthIssues(v.name, 2, 100, NameTooShort, NameTooLong)
      || x in LengthIssues(v.title, 2, 100, TitleTooShort, TitleTooLong)
  {
  }

  /** Each issue is raised exactly when its field breaks its rule. */
  lemma IssuesIff(v: ResponseValues, isEmail: string -> bool)
    ensures ResponseTooShort in Issues(v, isEmail) <==> |v.response| < 20
    ensures ResponseTooLong in Issues(v, isEmail) <==> |v.response| > 1000
    ensures BadEmail in Issues(v, isEmail) <==> !isEmail(v.email)
    ensures NameTooShort in Issues(v, isEmail) <==> |v.name| < 2
    ensures NameTooLong in Issues(v, isEmail) <==> |v.name| > 100
    ensures TitleTooShort in Issues(v, isEmail) <==> |v.title| < 2
    ensures TitleTooLong in Issues(v, isEmail) <==> |v.title| > 100
  {
    LengthIssuesIff(v.response, 20, 1000, ResponseTooShort, ResponseTooLong);
    LengthIssuesIff(v.name, 2, 100, NameTooShort, NameTooLong);
    LengthIssuesIff(v.title, 2, 100, TitleTooShort, TitleTooLong);
    IssuesSplit(v, isEmail, ResponseTooShort);
    IssuesSplit(v, isEmail, ResponseTooLong);
    IssuesSplit(v, isEmail, BadEmail);
    IssuesSplit(v, isEmail, NameTooShort);
    IssuesSplit(v, isEmail, NameTooLong);
    IssuesSplit(v, isEmail, TitleTooShort);
    IssuesSplit(v, isEmail, TitleTooLong);
  }

  /** The schema accepts exactly a response of 20 to 1000 characters, an address the e-mail
      check accepts, and a name and a title of 2 to 100 characters each, bounds included. */
  lemma AcceptsIff(v: ResponseValues, isEmail: string -> bool)
    ensures Accepts(v, isEmail) <==>
      20 <= |v.response| <= 1000 && isEmail(v.email)
      && 2 <= |v.name| <= 100 && 2 <= |v.title| <= 100
  {
    IssuesIff(v, isEmail);
    if !Accepts(v, isEmail) {
      var i := Issues(v, isEmail)[0];
      assert i in Issues(v, isEmail);
    }
  }

  /** The all-empty defaults are rejected whatever the e-mail check says. */
  lemma DefaultsRejected(isEmail: string -> bool)
    ensures !Accepts(Defaults, isEmail)
    ensures ResponseTooShort in Issues(Defaults, isEmail)
    ensures NameTooShort in Issues(Defaults, isEmail) && TitleTooShort in Issues(Defaults, isEmail)
  {
    IssuesIff(Defaults, isEmail);
  }

  /** The messages of the upper bounds say "less than", yet a response of exactly 1000
      characters and a name and a title of exactly 100 raise no issue. */
  lemma LimitMessagesAdmitLimits(v: ResponseValues, isEmail: string -> bool)
    requires |v.response| == 1000 && |v.name| == 100 && |v.title| == 100
    ensures Message(ResponseTooLong) == "Response must be less than 1000 characters"
    ensures Message(NameTooLong) == "Name must be less than 100 characters"
    ensures Message(TitleTooLong) == "Title must be less than 100 characters"
    ensures ResponseTooLong !in Issues(v, isEmail)
    ensures NameTooLong !in Issues(v, isEmail) && TitleTooLong !in Issues(v, isEmail)
  {
    IssuesIff(v, isEmail);
  }

  /** Submitting accepted values and cancelling end in the same state, the mounted one; a
      second submit or cancel changes nothing. */
  lemma SubmitAndCloseReset(s: DialogState<ResponseValues>, isEmail: string -> bool)
    requires Accepts(s.values, isEmail)
    ensures AfterSubmit(s, Defaults, v => Accepts(v, isEmail)) == AfterClose(s, Defaults) == Closed(Defaults)
    ensures AfterClose(Closed(Defaults), Defaults) == Closed(Defaults)
    ensures AfterSubmit(Closed(Defaults), Defaults, v => Accepts(v, isEmail)) == Closed(Defaults)
  {
    CloseAndSubmitAgree(s, Defaults, v => Accepts(v, isEmail));
  }

  /** From the mounted state, every sequence of actions keeps `step` in {1, 2}. */
  lemma StepStaysInRange(es: seq<DialogEvent<ResponseValues>>, isEmail: string -> bool)
    ensures var s := Run(Closed(Defaults), es, Defaults, v => Accepts(v, isEmail)); s.step == 1 || s.step == 2
  {
    RunKeepsStepInRange(Closed(Defaults), es, Defaults, v => Accepts(v, isEmail));
  }

  datatype Field = Response | Email | Name | Title

  function With(v: ResponseValues, f: Field, x: string): (r: ResponseValues)
    ensures f == Response ==> r == ResponseValues(x, v.email, v.name, v.title)
    ensures f == Email ==> r == ResponseValues(v.response, x, v.name, v.title)
    ensures f == Name ==> r == ResponseValues(v.response, v.email, x, v.title)
    ensures f == Title ==> r == ResponseValues(v.response, v.email, v.name, x)
  {
    match f
    case Response => v.(response := x)
    case Email => v.(email := x)
    case Name => v.(name := x)
    case Title => v.(title := x)
  }

  /** The `ResponseDialog` component. */
  class Component {
    var open: bool
    var step: int
    var values: ResponseValues

    function State(): DialogState<ResponseValues>
      reads this
    {
      DialogState(open, step, values)
    }

    constructor ()
      ensures State() == Closed(Defaults)
    {
      open, step, values := false, 1, Defaults;
    }

    method HandleOpenChange(o: bool)
      modifies this
      ensures State() == AfterOpenChange(old(State()), o)
    {
      open := o;
    }

    method HandleContinue()
      modifies this
      ensures State() == AfterContinue(old(State()))
      ensures step == 2
    {
      step := 2;
    }

    method HandleBack()
      modifies this
      ensures State() == AfterBack(old(State()))
      ensures step == 1
    {
      step := 1;
    }

    method HandleChange(f: Field, x: string)
      modifies this
      ensures State() == AfterEdit(old(State()), With(old(values), f, x))
    {
      values := With(values, f, x);
    }

    method HandleClose()
      modifies this
      ensures State() == AfterClose(old(State()), Defaults)
      ensures State() == Closed(Defaults)
    {
      open := false;
      step := 1;
      values := Defaults;
    }

    /** `handleResponseSubmit`, which the form calls once the schema has accepted the values. */
    method HandleResponseSubmit()
      modifies this
      ensures State() == Closed(Defaults)
    {
      open := false;
      step := 1;
      values := Defaults;
    }

    /** The form's submit event: the schema first, the handler only if it finds nothing. */
    method SubmitForm(isEmail: string -> bool) returns (issues: seq<Issue>)
      modifies this
      ensures issues == Issues(old(values), isEmail)
      ensures State() == AfterSubmit(old(State()), Defaults, v => Accepts(v, isEmail))
    {
      issues := Issues(values, isEmail);
      if issues == [] {
        HandleResponseSubmit();
      }
    }
  }
}
