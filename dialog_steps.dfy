/** What the report dialog and the response dialog share: an `open` flag, a `step` that is 1
    (the notice) or 2 (the form), and the form's values. Cancel and a successful submit both
    close the dialog, go back to step 1 and reset the values to their defaults. */
module DialogSteps {

  datatype DialogState<V> = DialogState(open: bool, step: int, values: V)

  /** The state on mount, and the state Cancel and a successful submit return to. */
  function Closed<V>(defaults: V): (s: DialogState<V>)
    ensures !s.open && s.step == 1 && s.values == defaults
  {
    DialogState(false, 1, defaults)
  }

  /** `onClick={() => setStep(2)}` on Continue. */
  function AfterContinue<V>(s: DialogState<V>): DialogState<V> {
    s.(step := 2)
  }

  /** `onClick={() => setStep(1)}` on Back. */
  function AfterBack<V>(s: DialogState<V>): DialogState<V> {
    s.(step := 1)
  }

  /** `handleClose`: `setOpen(false)`, `setStep(1)`, `form.reset()`. */
  function AfterClose<V>(s: DialogState<V>, defaults: V): DialogState<V> {
    DialogState(false, 1, defaults)
  }

  /** `form.handleSubmit(handler)`: the handler, which does what `handleClose` does, runs only
      when the values pass the schema; otherwise the state is kept and the errors are shown. */
  function AfterSubmit<V>(s: DialogState<V>, defaults: V, valid: V -> bool): DialogState<V> {
    if valid(s.values) then DialogState(false, 1, defaults) else s
  }

  /** `onOpenChange={setOpen}`: the dialog component sets `open` and nothing else. */
  function AfterOpenChange<V>(s: DialogState<V>, open: bool): DialogState<V> {
    s.(open := open)
  }

  /** A field's `field.onChange`: the form holds the new values; `open` and `step` stay. */
  function AfterEdit<V>(s: DialogState<V>, values: V): (r: DialogState<V>)
    ensures r.open == s.open && r.step == s.step && r.values == values
  {
    s.(values := values)
  }

  /** Cancel throws away whatever was typed. */
  lemma EditDiscardedByClose<V>(s: DialogState<V>, values: V, defaults: V)
    ensures AfterClose(AfterEdit(s, values), defaults) == AfterClose(s, defaults) == Closed(defaults)
  {
  }

  /** Cancel and an accepted submit reach the same state, and each of them changes nothing
      when applied a second time. */
  lemma CloseAndSubmitAgree<V>(s: DialogState<V>, defaults: V, valid: V -> bool)
    requires valid(s.values)
    ensures AfterSubmit(s, defaults, valid) == AfterClose(s, defaults) == Closed(defaults)
    ensures AfterClose(AfterClose(s, defaults), defaults) == AfterClose(s, defaults)
    ensures AfterSubmit(AfterSubmit(s, defaults, valid), defaults, valid) == Closed(defaults)
  {
  }

  /** Submitting twice is submitting once, whatever the values and the schema: a second submit
      either resets the already reset state or rejects the same values again. */
  lemma SubmitIdempotent<V>(s: DialogState<V>, defaults: V, valid: V -> bool)
    ensures AfterSubmit(AfterSubmit(s, defaults, valid), defaults, valid) == AfterSubmit(s, defaults, valid)
  {
  }

  /** A submit that the schema rejects changes nothing. */
  lemma RejectedSubmitKeepsState<V>(s: DialogState<V>, defaults: V, valid: V -> bool)
    requires !valid(s.values)
    ensures AfterSubmit(s, defaults, valid) == s
  {
  }

  /** The user's actions on a dialog. */
  datatype DialogEvent<V> =
    | OpenChange(open: bool)
    | Continue
    | Back
    | Cancel
    | Edit(values: V)
    | Submit

  /** Continue and Cancel are shown on step 1, the form with Back and submit on step 2,
      and only while the dialog is open. The dialog component may change `open` at any time. */
  predicate Available<V>(s: DialogState<V>, e: DialogEvent<V>) {
    match e
    case OpenChange(_) => true
    case Continue => s.open && s.step == 1
    case Cancel => s.open && s.step == 1
    case Back => s.open && s.step == 2
    case Edit(_) => s.open && s.step == 2
    case Submit => s.open && s.step == 2
  }

  function Dispatch<V>(s: DialogState<V>, e: DialogEvent<V>, defaults: V, valid: V -> bool): DialogState<V> {
    if !Available(s, e) then s
    else match e
      case OpenChange(o) => AfterOpenChange(s, o)
      case Continue => AfterContinue(s)
      case Back => AfterBack(s)
      case Cancel => AfterClose(s, defaults)
      case Edit(v) => AfterEdit(s, v)
      case Submit => AfterSubmit(s, defaults, valid)
  }

  function Run<V>(s: DialogState<V>, es: seq<DialogEvent<V>>, defaults: V, valid: V -> bool): DialogState<V>
    decreases |es|
  {
    if es == [] then s else Run(Dispatch(s, es[0], defaults, valid), es[1..], defaults, valid)
  }

  /** Running two sequences of actions one after the other is running their concatenation. */
  lemma {:induction false} RunConcat<V>(s: DialogState<V>, a: seq<DialogEvent<V>>, b: seq<DialogEvent<V>>, defaults: V, valid: V -> bool)
    ensures Run(s, a + b, defaults, valid) == Run(Run(s, a, defaults, valid), b, defaults, valid)
    decreases |a|
  {
    if a == [] {
      assert a + b == b;
    } else {
      assert (a + b)[0] == a[0] && (a + b)[1..] == a[1..] + b;
      RunConcat(Dispatch(s, a[0], defaults, valid), a[1..], b, defaults, valid);
    }
  }

  /** Cancel, or a submit the schema accepts, forgets the history: whatever actions came
      before, the actions after it behave as on a freshly mounted dialog. */
  lemma ResetForgetsHistory<V>(s: DialogState<V>, a: seq<DialogEvent<V>>, e: DialogEvent<V>, es: seq<DialogEvent<V>>, defaults: V, valid: V -> bool)
    requires var t := Run(s, a, defaults, valid);
      t.open && ((e == Cancel && t.step == 1) || (e == Submit && t.step == 2 && valid(t.values)))
    ensures Run(s, a + [e] + es, defaults, valid) == Run(Closed(defaults), es, defaults, valid)
  {
    assert a + [e] + es == a + ([e] + es);
    RunConcat(s, a, [e] + es, defaults, valid);
    assert ([e] + es)[0] == e && ([e] + es)[1..] == es;
  }

  predicate StepInRange<V>(s: DialogState<V>) {
    s.step == 1 || s.step == 2
  }

  lemma DispatchKeepsStepInRange<V>(s: DialogState<V>, e: DialogEvent<V>, defaults: V, valid: V -> bool)
    requires StepInRange(s)
    ensures StepInRange(Dispatch(s, e, defaults, valid))
  {
  }

  /** From the mounted state, every sequence of actions keeps `step` in {1, 2}. */
  lemma {:induction false} RunKeepsStepInRange<V>(s: DialogState<V>, es: seq<DialogEvent<V>>, defaults: V, valid: V -> bool)
    requires StepInRange(s)
    ensures StepInRange(Run(s, es, defaults, valid))
    decreases |es|
  {
    if es != [] {
      DispatchKeepsStepInRange(s, es[0], defaults, valid);
      RunKeepsStepInRange(Dispatch(s, es[0], defaults, valid), es[1..], defaults, valid);
    }
  }

  /** Dismissing the dialog through the component (Escape, the overlay, the close icon) only
      clears `open`: reopened, it is still on step 2 with the values typed so far. */
  lemma DismissKeepsStepAndValues<V>(s: DialogState<V>, defaults: V, valid: V -> bool)
    requires s.open && s.step == 2
    ensures Run(s, [OpenChange(false), OpenChange(true)], defaults, valid) == s
    ensures Dispatch(s, OpenChange(false), defaults, valid) != AfterClose(s, defaults)
  {
    var es: seq<DialogEvent<V>> := [OpenChange(false), OpenChange(true)];
    var t := Dispatch(s, OpenChange(false), defaults, valid);
    assert t == s.(open := false);
    assert es[1..] == [OpenChange(true)];
    assert Run(t, es[1..], defaults, valid) == Run(Dispatch(t, OpenChange(true), defaults, valid), [], defaults, valid);
  }
}
