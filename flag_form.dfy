/** The three-step submission wizard. Step 1 asks for the company, the role, the date range
    and at least one violation; step 2 for the narrative; step 3 for optional names and quotes
    and the consent. Continue is guarded by the current step's validity, Back is not
    guarded, and a successful submit resets the whole form.

    The transitions are first given as functions on a value of the wizard's state; the
    component class, whose handlers update its fields in place, is proved against them. */
module FlagForm {

  /** The seven text fields of the form, named by the `id` of their input element. */
  datatype Field = Company | Role | DateRange | Narrative | Names | Quotes | Consent

  datatype FormData = FormData(
    company: string,
    role: string,
    dateRange: string,
    narrative: string,
    names: string,
    quotes: string,
    consent: string)

  const EmptyForm: FormData := FormData("", "", "", "", "", "", "")

  function Get(d: FormData, f: Field): string {
    match f
    case Company => d.company
    case Role => d.role
    case DateRange => d.dateRange
    case Narrative => d.narrative
    case Names => d.names
    case Quotes => d.quotes
    case Consent => d.consent
  }

  /** `{ ...prev, [id]: value }`: the named field takes the new value, all others are kept. */
  function With(d: FormData, f: Field, v: string): (r: FormData)
    ensures Get(r, f) == v
    ensures forall g :: g != f ==> Get(r, g) == Get(d, g)
  {
    match f
    case Company => d.(company := v)
    case Role => d.(role := v)
    case DateRange => d.(dateRange := v)
    case Narrative => d.(narrative := v)
    case Names => d.(names := v)
    case Quotes => d.(quotes := v)
    case Consent => d.(consent := v)
  }

  /** Two forms that agree on every field are the same form. */
  lemma FormDataExtensional(a: FormData, b: FormData)
    requires forall g :: Get(a, g) == Get(b, g)
    ensures a == b
  {
    assert Get(a, Company) == Get(b, Company) && Get(a, Role) == Get(b, Role);
    assert Get(a, DateRange) == Get(b, DateRange) && Get(a, Narrative) == Get(b, Narrative);
    assert Get(a, Names) == Get(b, Names) && Get(a, Quotes) == Get(b, Quotes);
    assert Get(a, Consent) == Get(b, Consent);
  }

  /** Writing a field's own value back changes nothing; the last of two writes to one field wins. */
  lemma WithLaws(d: FormData, f: Field, v: string, w: string)
    ensures With(d, f, Get(d, f)) == d
    ensures With(With(d, f, v), f, w) == With(d, f, w)
  {
    FormDataExtensional(With(d, f, Get(d, f)), d);
    FormDataExtensional(With(With(d, f, v), f, w), With(d, f, w));
  }

  /** The violation checkboxes: the id recorded when ticked, and the label shown. */
  datatype ViolationOption = ViolationOption(id: string, caption: string)

  const ViolationOptions: seq<ViolationOption> := [
    ViolationOption("ghosting", "Ghosting"),
    ViolationOption("unpaid", "Unpaid Challenge"),
    ViolationOption("misleading", "Misleading Role"),
    ViolationOption("revoked", "Offer Revoked"),
    ViolationOption("disrespectful", "Disrespectful Behavior"),
    ViolationOption("other", "Other")
  ]

  lemma ViolationOptionIdsDistinct()
    ensures forall i, j :: 0 <= i < j < |ViolationOptions| ==> ViolationOptions[i].id != ViolationOptions[j].id
  {
  }

  predicate NoDuplicates(s: seq<string>) {
    forall i, j :: 0 <= i < j < |s| ==> s[i] != s[j]
  }

  /** `a` is `b` with some entries left out, the rest in their order. */
  predicate IsSubsequence(a: seq<string>, b: seq<string>)
    decreases |b|
  {
    if a == [] then true
    else if b == [] then false
    else if a[0] == b[0] then IsSubsequence(a[1..], b[1..])
    else IsSubsequence(a, b[1..])
  }

  /** `prev.filter(x => x !== v)`. */
  function RemoveAll(s: seq<string>, v: string): (r: seq<string>)
    ensures v !in r
    ensures forall x :: x != v ==> multiset(r)[x] == multiset(s)[x]
    ensures IsSubsequence(r, s)
  {
    if s == [] then []
    else
      var rest := RemoveAll(s[1..], v);
      assert s == [s[0]] + s[1..];
      if s[0] == v then rest
      else
        assert ([s[0]] + rest)[1..] == rest;
        [s[0]] + rest
  }

  /** A list without `v` is left as it is. */
  lemma {:induction false} RemoveAllAbsent(s: seq<string>, v: string)
    requires v !in s
    ensures RemoveAll(s, v) == s
  {
    if s != [] {
      RemoveAllAbsent(s[1..], v);
    }
  }

  /** Removing `v` from `s + [v]` gives back `s`, when `s` has no `v`. */
  lemma {:induction false} RemoveAllAppended(s: seq<string>, v: string)
    requires v !in s
    ensures RemoveAll(s + [v], v) == s
  {
    if s == [] {
      assert [] + [v] == [v];
      assert [v][1..] == [];
    } else {
      assert (s + [v])[1..] == s[1..] + [v];
      RemoveAllAppended(s[1..], v);
    }
  }

  lemma {:induction false} RemoveAllKeepsNoDuplicates(s: seq<string>, v: string)
    requires NoDuplicates(s)
    ensures NoDuplicates(RemoveAll(s, v))
  {
    if s != [] {
      assert NoDuplicates(s[1..]);
      RemoveAllKeepsNoDuplicates(s[1..], v);
      var rest := RemoveAll(s[1..], v);
      if s[0] != v {
        assert multiset(rest)[s[0]] == multiset(s[1..])[s[0]] == 0;
        assert s[0] !in rest;
      }
    }
  }

  /** `handleViolationToggle`: drop every occurrence of a selected violation, append an
      unselected one at the end. */
  function Toggle(s: seq<string>, v: string): (r: seq<string>)
    ensures v in r <==> v !in s
    ensures forall x :: x != v ==> (x in r <==> x in s)
    ensures v !in s ==> r == s + [v]
    ensures v in s ==> IsSubsequence(r, s) && forall x :: x != v ==> multiset(r)[x] == multiset(s)[x]
  {
    if v in s then
      var r := RemoveAll(s, v);
      assert forall x :: x != v ==> (x in r <==> multiset(r)[x] > 0);
      r
    else s + [v]
  }

  /** Toggling a violation that was not selected, twice, gives back the same list. */
  lemma ToggleTwiceAbsent(s: seq<string>, v: string)
    requires v !in s
    ensures Toggle(Toggle(s, v), v) == s
  {
    RemoveAllAppended(s, v);
  }

  /** Toggling twice always gives back the same set of selected violations. */
  lemma ToggleTwiceSameSelection(s: seq<string>, v: string)
    ensures forall x :: x in Toggle(Toggle(s, v), v) <==> x in s
  {
  }

  /** A violation selected once, in last place, is also given back in place. */
  lemma ToggleTwiceLastSelected(s: seq<string>, v: string)
    requires v !in s
    ensures Toggle(Toggle(s + [v], v), v) == s + [v]
  {
    RemoveAllAppended(s, v);
  }

  /** In general a selected violation is removed everywhere and comes back once, at the end. */
  lemma ToggleTwiceSelected(s: seq<string>, v: string)
    requires v in s
    ensures Toggle(Toggle(s, v), v) == RemoveAll(s, v) + [v]
  {
  }

  /** The order can change: a selected violation that is not last comes back at the end. */
  lemma ToggleTwiceMovesToEnd()
    ensures Toggle(Toggle(["ghosting", "unpaid"], "ghosting"), "ghosting") == ["unpaid", "ghosting"]
  {
    assert RemoveAll(["ghosting", "unpaid"], "ghosting") == ["unpaid"] by {
      assert ["ghosting", "unpaid"][1..] == ["unpaid"];
      assert ["unpaid"][1..] == [];
    }
    assert "ghosting" !in ["unpaid"];
  }

  /** A list without duplicates never gets one by toggling. */
  lemma ToggleKeepsNoDuplicates(s: seq<string>, v: string)
    requires NoDuplicates(s)
    ensures NoDuplicates(Toggle(s, v))
  {
    if v in s {
      RemoveAllKeepsNoDuplicates(s, v);
    }
  }

  /** `isStepValid`: JavaScript truthiness, under which every non-empty string counts. */
  predicate IsStepValid(step: int, d: FormData, violations: seq<string>) {
    if step == 1 then d.company != "" && d.role != "" && d.dateRange != "" && |violations| > 0
    else if step == 2 then d.narrative != ""
    else if step == 3 then d.consent != ""
    else false
  }

  /** The step whose validity a field takes part in; names and quotes (step 3) are optional. */
  function StepOf(f: Field): (k: int)
    ensures 1 <= k <= 3
  {
    match f
    case Company => 1
    case Role => 1
    case DateRange => 1
    case Narrative => 2
    case Names => 3
    case Quotes => 3
    case Consent => 3
  }

  /** Editing a field never changes the validity of another step, and the optional fields
      change no step's validity at all. */
  lemma EditKeepsOtherStepsValidity(d: FormData, f: Field, v: string, step: int, violations: seq<string>)
    requires step != StepOf(f) || f == Names || f == Quotes
    ensures IsStepValid(step, With(d, f, v), violations) == IsStepValid(step, d, violations)
  {
    var r := With(d, f, v);
    assert Get(r, Company) == r.company && Get(r, Role) == r.role && Get(r, DateRange) == r.dateRange;
    assert Get(r, Narrative) == r.narrative && Get(r, Consent) == r.consent;
  }

  /** The empty form is valid at no step. */
  lemma EmptyFormInvalid(step: int, violations: seq<string>)
    ensures !IsStepValid(step, EmptyForm, violations)
  {
  }

  /** The state of the component. */
  datatype Wizard = Wizard(currentStep: int, selectedViolations: seq<string>, formData: FormData)

  const Initial: Wizard := Wizard(1, [], EmptyForm)

  predicate StepValid(w: Wizard, step: int) {
    IsStepValid(step, w.formData, w.selectedViolations)
  }

  function AfterToggle(w: Wizard, v: string): Wizard {
    w.(selectedViolations := Toggle(w.selectedViolations, v))
  }

  function AfterInput(w: Wizard, f: Field, v: string): Wizard {
    w.(formData := With(w.formData, f, v))
  }

  function AfterConsent(w: Wizard, v: string): Wizard {
    w.(formData := w.formData.(consent := v))
  }

  /** `handleNext`: one step forward if the current step is valid, otherwise nothing changes. */
  function AfterNext(w: Wizard): Wizard {
    if StepValid(w, w.currentStep) then w.(currentStep := w.currentStep + 1) else w
  }

  /** `handleBack` has no guard of its own. */
  function AfterBack(w: Wizard): Wizard {
    w.(currentStep := w.currentStep - 1)
  }

  /** `handleSubmit` checks only step 3, the consent. */
  function AfterSubmit(w: Wizard): Wizard {
    if StepValid(w, 3) then Initial else w
  }

  /** The unguarded handler leaves the range when used on step 1. */
  lemma BackFromFirstStep()
    ensures AfterBack(Initial).currentStep == 0
  {
  }

  /** The submit guard ignores steps 1 and 2: a consent alone is enough, on any step. */
  lemma SubmitNeedsOnlyConsent(w: Wizard)
    requires w.formData.consent != ""
    ensures AfterSubmit(w) == Initial
  {
  }

  /** The user's actions. Buttons are visible only on some steps; the inputs and the form's
      submit event are taken to be available on every step. */
  datatype Event =
    | ToggleViolation(violation: string)
    | Input(field: Field, value: string)
    | ChooseConsent(choice: string)
    | Continue
    | GoBack
    | SubmitForm

  /** Continue is visible on steps 1 and 2, Back on steps 2 and 3. */
  predicate Available(step: int, e: Event) {
    match e
    case Continue => step == 1 || step == 2
    case GoBack => step == 2 || step == 3
    case _ => true
  }

  /** One user action: a button that is hidden cannot be clicked. */
  function Dispatch(w: Wizard, e: Event): Wizard {
    if !Available(w.currentStep, e) then w
    else match e
      case ToggleViolation(v) => AfterToggle(w, v)
      case Input(f, v) => AfterInput(w, f, v)
      case ChooseConsent(v) => AfterConsent(w, v)
      case Continue => AfterNext(w)
      case GoBack => AfterBack(w)
      case SubmitForm => AfterSubmit(w)
  }

  function Run(w: Wizard, es: seq<Event>): Wizard
    decreases |es|
  {
    if es == [] then w else Run(Dispatch(w, es[0]), es[1..])
  }

  /** What the rendering keeps true: the step is 1, 2 or 3 and no violation is listed twice. */
  predicate Invariant(w: Wizard) {
    1 <= w.currentStep <= 3 && NoDuplicates(w.selectedViolations)
  }

  lemma InitialInvariant()
    ensures Invariant(Initial)
  {
  }

  lemma DispatchKeepsInvariant(w: Wizard, e: Event)
    requires Invariant(w)
    ensures Invariant(Dispatch(w, e))
  {
    if e.ToggleViolation? {
      ToggleKeepsNoDuplicates(w.selectedViolations, e.violation);
    }
  }

  /** Every sequence of user actions keeps the step within 1 to 3. */
  lemma {:induction false} RunKeepsInvariant(w: Wizard, es: seq<Event>)
    requires Invariant(w)
    ensures Invariant(Run(w, es))
    decreases |es|
  {
    if es != [] {
      DispatchKeepsInvariant(w, es[0]);
      RunKeepsInvariant(Dispatch(w, es[0]), es[1..]);
    }
  }

  /** Whatever the user does after the form is mounted, the step stays within 1 to 3. */
  lemma ReachableInRange(es: seq<Event>)
    ensures 1 <= Run(Initial, es).currentStep <= 3
  {
    InitialInvariant();
    RunKeepsInvariant(Initial, es);
  }

  /** Continue on step 1 with no violation ticked is blocked. */
  lemma ContinueBlockedWithoutViolation(w: Wizard)
    requires w.currentStep == 1 && w.selectedViolations == []
    ensures Dispatch(w, Continue) == w
  {
  }

  /** Continue moves on exactly when the current step is valid, and then by one step. */
  lemma ContinueAdvancesIffValid(w: Wizard)
    requires Invariant(w) && w.currentStep < 3
    ensures Dispatch(w, Continue).currentStep == w.currentStep + 1 <==> StepValid(w, w.currentStep)
    ensures Dispatch(w, Continue).currentStep == w.currentStep <==> !StepValid(w, w.currentStep)
  {
  }

  /** The state of one progress dot. */
  datatype Dot = Dot(active: bool, completed: bool)

  /** Dot k is active from step k on; dots 1 and 2 are completed once the step is past them. */
  function ProgressDot(currentStep: int, k: int): Dot {
    Dot(currentStep >= k, k <= 2 && currentStep > k)
  }

  function CountActive(currentStep: int): nat {
    (if ProgressDot(currentStep, 1).active then 1 else 0)
    + (if ProgressDot(currentStep, 2).active then 1 else 0)
    + (if ProgressDot(currentStep, 3).active then 1 else 0)
  }

  function CountCompleted(currentStep: int): nat {
    (if ProgressDot(currentStep, 1).completed then 1 else 0)
    + (if ProgressDot(currentStep, 2).completed then 1 else 0)
    + (if ProgressDot(currentStep, 3).completed then 1 else 0)
  }

  /** Within the range, as many dots are active as the step's number, one fewer are completed,
      and the completed dots are the active ones before the current step. */
  lemma DotsShowProgress(currentStep: int)
    requires 1 <= currentStep <= 3
    ensures CountActive(currentStep) == currentStep
    ensures CountCompleted(currentStep) == currentStep - 1
    ensures forall k :: 1 <= k <= 3 ==>
      (ProgressDot(currentStep, k).completed <==> ProgressDot(currentStep, k).active && k != currentStep)
  {
  }

  /** A toast the handler raises; the notification itself is not modelled. */
  datatype Notice = Silent | ErrorToast(message: string) | SuccessToast(message: string)

  const NextError: string := "Please fill out all required fields before proceeding."
  const SubmitSuccess: string := "Your redflag has been submitted successfully."
  const SubmitError: string := "Please verify all required information before submitting."

  /** The `FlagForm` component with its three pieces of state. */
  class Component {
    var currentStep: int
    var selectedViolations: seq<string>
    var formData: FormData

    function State(): Wizard
      reads this
    {
      Wizard(currentStep, selectedViolations, formData)
    }

    constructor ()
      ensures State() == Initial
    {
      currentStep := 1;
      selectedViolations := [];
      formData := EmptyForm;
    }

    method HandleViolationToggle(v: string)
      modifies this
      ensures State() == AfterToggle(old(State()), v)
      ensures v in selectedViolations <==> v !in old(selectedViolations)
    {
      selectedViolations := if v in selectedViolations then RemoveAll(selectedViolations, v)
                            else selectedViolations + [v];
    }

    method HandleInputChange(id: Field, value: string)
      modifies this
      ensures State() == AfterInput(old(State()), id, value)
      ensures Get(formData, id) == value
      ensures forall g :: g != id ==> Get(formData, g) == Get(old(formData), g)
    {
      formData := With(formData, id, value);
    }

    method HandleConsent(value: string)
      modifies this
      ensures State() == AfterConsent(old(State()), value)
      ensures formData == With(old(formData), Consent, value)
    {
      formData := formData.(consent := value);
    }

    method HandleNext() returns (notice: Notice)
      modifies this
      ensures State() == AfterNext(old(State()))
      ensures currentStep == old(currentStep) + (if old(StepValid(State(), currentStep)) then 1 else 0)
      ensures notice == if old(StepValid(State(), currentStep)) then Silent else ErrorToast(NextError)
    {
      if StepValid(State(), currentStep) {
        currentStep := currentStep + 1;
        notice := Silent;
      } else {
        notice := ErrorToast(NextError);
      }
    }

    method HandleBack()
      modifies this
      ensures State() == AfterBack(old(State()))
    {
      currentStep := currentStep - 1;
    }

    method HandleSubmit() returns (notice: Notice)
      modifies this
      ensures State() == AfterSubmit(old(State()))
      ensures old(formData.consent) != "" ==> State() == Initial && notice == SuccessToast(SubmitSuccess)
      ensures old(formData.consent) == "" ==> unchanged(this) && notice == ErrorToast(SubmitError)
    {
      if StepValid(State(), 3) {
        notice := SuccessToast(SubmitSuccess);
        currentStep := 1;
        selectedViolations := [];
        formData := EmptyForm;
      } else {
        notice := ErrorToast(SubmitError);
      }
    }

    /** One user action on the visible form. */
    method HandleEvent(e: Event) returns (notice: Notice)
      requires Invariant(State())
      modifies this
      ensures State() == Dispatch(old(State()), e)
      ensures Invariant(State())
    {
      DispatchKeepsInvariant(State(), e);
      notice := Silent;
      if Available(currentStep, e) {
        match e
        case ToggleViolation(v) => HandleViolationToggle(v);
        case Input(f, v) => HandleInputChange(f, v);
        case ChooseConsent(v) => HandleConsent(v);
        case Continue => notice := HandleNext();
        case GoBack => HandleBack();
        case SubmitForm => notice := HandleSubmit();
      }
    }
  }
}
