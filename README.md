# Redflagged: the behaviour behind the views

Redflagged is a React site where job seekers document bad hiring experiences ("flags") and
companies can respond. The views are mostly presentation. This project models and proves the
parts that have behaviour of their own:

- **The submission wizard** (`FlagForm`). It has three steps: basic info, details and
  verification. A per-step validity check guards Continue. Back is unguarded. The violation
  checkboxes are toggled in and out of a list. A submit that has the consent resets everything.
  Module `FlagForm` gives the transitions as functions on a value of the wizard's state
  (`Wizard`). The `Component` class holds the component's three state fields, and its handlers
  update those fields in place. Each handler is proved against the matching function.
- **The report and response dialogs** (`ReportDialog`, `ResponseDialog`). Each is a two-step
  dialog: a notice, then a form checked by a zod schema. Module `DialogSteps` holds the part
  they share: `open`, `step` and the form values, with Continue, Back, Cancel and submit.
  Each dialog module adds its schema. The schema is a list of issues, and the values are
  accepted exactly when that list is empty. Each module also has a component class.
- **The badge class of a tag** (`getTagClassName`), a case-insensitive mapping. It is modelled
  once in `FlagList` and once in `FlagDetails`, as the code has it, and the two copies are
  proved equal. `Text` holds the letter-case folding it relies on.
- **The feed table and its rendering** (`FlagList`). These are the four sample flags, their ids
  and the rows in table order.
- **The detail page lookup** (`FlagDetails`). It computes `parseInt(id || '0')` and then
  `sampleFlags.find(f => f.id === flagId)`. `JsParseInt` models the `parseInt` of ECMAScript
  2024, section 19.2.5, for a call without a radix: white space is skipped, one sign is read,
  `0x` selects radix 16, and the leading digits are read. No digits gives NaN.

Behaviour of the code that the proofs bring out:

- Toggling a violation twice always restores the *set* of selected violations. The list itself
  comes back unchanged when the violation was not selected (`FlagForm.ToggleTwiceAbsent`) or was
  selected once as the last entry (`FlagForm.ToggleTwiceLastSelected`). Any other selected
  violation is removed and comes back at the end (`FlagForm.ToggleTwiceSelected`,
  `FlagForm.ToggleTwiceMovesToEnd`).
- `handleSubmit` checks only the consent, on whatever step it runs (`FlagForm.SubmitNeedsOnlyConsent`).
- `handleBack` has no guard; used on step 1 it would leave the range
  (`FlagForm.BackFromFirstStep`). The step stays within 1 to 3 only because the Back and
  Continue buttons are visible on certain steps only (`FlagForm.ReachableInRange`).
- The explanation's schema accepts 500 characters, although its message says "less than 500".
  The response, name and title messages have the same wording (`ReportDialog.LimitMessageAdmitsLimit`,
  `ResponseDialog.LimitMessagesAdmitLimits`).
- Dismissing a dialog through the dialog component (`onOpenChange`) clears only `open`.
  Reopened, the dialog is still on the form with the values typed so far. Only Cancel and an
  accepted submit reset it (`DialogSteps.DismissKeepsStepAndValues`).

The e-mail check of the schema library is a parameter `isEmail: string -> bool` of every
member that needs it. Toasts are returned as `Notice` values or left out.

## Model

| member | source | states |
|---|---|---|
| Text.LowerChar | src/components/FlagList.tsx:52 | an ASCII capital becomes the letter 32 code points up; any other character is kept; the result is never a capital |
| Text.ToLower | src/components/FlagList.tsx:52 | `toLowerCase` keeps the length and lower-cases each character in place |
| Text.LowerOfLower | src/components/FlagList.tsx:52 | a string with no capital is its own lower-case form |
| Text.ToLowerIdempotent | src/components/FlagList.tsx:52 | lower-casing twice is lower-casing once, and its result has no capital |
| FlagList.TagClassName | src/components/FlagList.tsx:51-66 | every class starts with `flag-tag` |
| FlagList.ClassOfLowered | src/components/FlagList.tsx:52-65 | every result of the switch starts with `flag-tag` |
| FlagList.ClassOfKnownLabel | src/components/FlagList.tsx:53-62 | the lower-cased form of known label i is given `flag-tag` plus that label's modifier |
| FlagList.KnownTagClass | src/components/FlagList.tsx:52-62 | any tag that lower-cases like one of the five labels gets `flag-tag` plus that label's own modifier |
| FlagList.ModifiedTagIsKnown | src/components/FlagList.tsx:53-62 | a tag whose class has a modifier is one of the five labels in some letter case |
| FlagList.UnknownTagClass | src/components/FlagList.tsx:63-64 | a tag that is no known label gets plain `flag-tag` |
| FlagList.PlainClassIffUnknown | src/components/FlagList.tsx:52-65 | the class is plain `flag-tag` if and only if the tag is not a known label |
| FlagList.OtherIsPlain | src/components/FlagList.tsx:63-64 | "Other", the form's sixth violation option, gets plain `flag-tag` |
| FlagList.KnownClassesDistinct | src/components/FlagList.tsx:53-62 | two different known labels get two different classes |
| FlagList.TagClassIgnoresCase | src/components/FlagList.tsx:52 | the class of a tag is the class of its lower-cased form |
| FlagList.Badges | src/components/FlagList.tsx:90-94 | one badge per tag, in tag order, showing the tag, with the class `getTagClassName(tag)`, which starts with `flag-tag` |
| FlagList.RenderRow | src/components/FlagList.tsx:81-95 | a row is keyed by its flag's id and shows its company, role, date and description, with one badge per tag carrying the tag's text and class |
| FlagList.Render | src/components/FlagList.tsx:80-97 | one row per flag, in table order, with the flag's id as key, its company and the badges of its tags |
| FlagList.Ids | src/components/FlagList.tsx:16-49 | the ids of the flags, one per flag, in table order |
| FlagList.SampleIds | src/components/FlagList.tsx:16-49 | the sample ids are 1, 2, 3, 4 and pairwise distinct |
| FlagList.SampleRenderOrder | src/components/FlagList.tsx:80 | the four rendered rows carry the keys 1 to 4 in order |
| FlagList.SampleTagsStyled | src/components/FlagList.tsx:16-49 | every tag in the sample table is a known label, so its class has a modifier |
| FlagList.SampleBadgesStyled | src/components/FlagList.tsx:90-94 | every badge of the rendered sample list shows its tag and carries a modifier |
| FlagDetails.TagClassName | src/pages/FlagDetails.tsx:61-76 | the detail page's copy also starts every class with `flag-tag` |
| FlagDetails.TagClassNameAgrees | src/pages/FlagDetails.tsx:61-76 | the detail page's copy returns the feed's class for every tag |
| FlagDetails.SampleTablesAgree | src/pages/FlagDetails.tsx:14-59 | the detail table holds the feed's flags in the feed's order; only timestamp, views and website are added |
| FlagDetails.RouteId | src/pages/FlagDetails.tsx:80 | the `id`, or '0' in its place, is never empty; it is the id itself whenever that is a non-empty string, and "0" when the id is missing or empty |
| FlagDetails.Matches | src/pages/FlagDetails.tsx:81 | `f.id === flagId`: the parsed number equals the flag's id; NaN matches nothing |
| FlagDetails.FindFlag | src/pages/FlagDetails.tsx:81 | a found flag has the searched id and is the first such flag in the table; nothing is found if and only if no flag has the id |
| FlagDetails.PageFor | src/pages/FlagDetails.tsx:81-83 | a page that shows a flag shows one of the table whose id is the parsed id |
| FlagDetails.FlagPage | src/pages/FlagDetails.tsx:79-83 | a page that shows a flag shows one of the table whose id is parseInt of the id, or of '0' when it is missing or empty |
| FlagDetails.SampleIdsInOrder | src/pages/FlagDetails.tsx:14-59 | the detail table has four rows with ids 1 to 4 in order |
| FlagDetails.PageForIff | src/pages/FlagDetails.tsx:81-83 | a flag is shown if and only if the parsed id is a number from 1 to 4, and then it is the flag of that row |
| FlagDetails.FoundIffKnownId | src/pages/FlagDetails.tsx:80-83 | the page shows a flag if and only if parseInt of the id, or of '0' when it is missing or empty, is a number from 1 to 4 |
| FlagDetails.MissingIdNotFound | src/pages/FlagDetails.tsx:80 | a missing or empty route id reads as "0" and gives the not-found page |
| FlagDetails.NaNNotFound | src/pages/FlagDetails.tsx:80-83 | an id that parses to NaN gives the not-found page, since NaN equals no id |
| FlagDetails.NonNumericIdNotFound | src/pages/FlagDetails.tsx:80-83 | an id that starts with no white space, sign or digit gives the not-found page |
| FlagDetails.PageOfParsed | src/pages/FlagDetails.tsx:80-81 | the page depends on the route id only through its parsed value |
| FlagDetails.KnownIdFound | src/pages/FlagDetails.tsx:80-81 | the ids "1" to "4" each show the flag in that row of the table |
| FlagDetails.FoundIsOnlyMatch | src/pages/FlagDetails.tsx:81 | over a table with distinct ids, the flag found is the only flag with that id |
| FlagDetails.SampleIdsDistinct | src/pages/FlagDetails.tsx:14-59 | the detail table's ids are pairwise distinct |
| JsParseInt.IsWhitespace | src/pages/FlagDetails.tsx:80 | the StrWhiteSpaceChar set that parseInt trims: TAB, VT, FF, ZWNBSP, the line terminators and the Zs space separators |
| JsParseInt.WhitespaceIsNoDigitOrSign | src/pages/FlagDetails.tsx:80 | no white space character is a digit or a sign |
| JsParseInt.TrimStart | src/pages/FlagDetails.tsx:80 | the trimmed string is a suffix of the input, everything removed in front of it is white space, and it does not start with white space |
| JsParseInt.TrimStartSkipsWhitespace | src/pages/FlagDetails.tsx:80 | white space put in front of a string is trimmed away entirely |
| JsParseInt.WhitespacePrefixIgnored | src/pages/FlagDetails.tsx:80 | white space in front of a string does not change its parse |
| JsParseInt.ParseInt | src/pages/FlagDetails.tsx:80 | `parseInt(s)` without a radix: trim white space, read one sign, select radix 16 on `0x`, read the digit run, NaN when it is empty |
| JsParseInt.DigitValue | src/pages/FlagDetails.tsx:80 | a digit value is at most 36, and it is below 10 exactly for '0' to '9' |
| JsParseInt.DigitRunLength | src/pages/FlagDetails.tsx:80 | the run is a prefix of the radix's digits, and it ends at the input's end or at a non-digit |
| JsParseInt.DigitsValue | src/pages/FlagDetails.tsx:80 | the value of a digit string in a radix, most significant digit first |
| JsParseInt.DigitsValueBound | src/pages/FlagDetails.tsx:80 | the value of n digits of a radix is below radix^n |
| JsParseInt.LeadingZeroIgnored | src/pages/FlagDetails.tsx:80 | a leading 0 does not change the value of a digit string |
| JsParseInt.HasHexPrefix | src/pages/FlagDetails.tsx:80 | `0x` or `0X` in front of the digits, which selects radix 16 |
| JsParseInt.HexPrefixStopsDecimal | src/pages/FlagDetails.tsx:80 | read in radix 10, a string with that prefix would stop after its 0 |
| JsParseInt.ParseSigned | src/pages/FlagDetails.tsx:80 | after trimming: a leading `-` negates the magnitude, a leading `+` is dropped |
| JsParseInt.ParseMagnitude | src/pages/FlagDetails.tsx:80 | the unsigned part of the parse is never negative |
| JsParseInt.DecimalString | src/pages/FlagDetails.tsx:80 | the decimal numeral of n is a non-empty string of decimal digits that starts with 0 only for n = 0 |
| JsParseInt.DecimalValue | src/pages/FlagDetails.tsx:80 | the digits of the decimal numeral of n have the value n |
| JsParseInt.DigitRunOfDigits | src/pages/FlagDetails.tsx:80 | a run of digits followed by a non-digit or nothing is read up to its end |
| JsParseInt.ParseUnsignedDecimal | src/pages/FlagDetails.tsx:80 | a string that starts with a digit and no `0x` is read as its leading decimal digits |
| JsParseInt.DecimalHasNoHexPrefix | src/pages/FlagDetails.tsx:80 | the decimal numeral of n followed by anything other than an x after a lone 0 has no `0x` prefix |
| JsParseInt.ParseDecimalPrefix | src/pages/FlagDetails.tsx:80 | parseInt reads back n from the decimal numeral of n followed by a non-digit, unless that is the x of `0x` |
| JsParseInt.ParseDecimal | src/pages/FlagDetails.tsx:80 | parseInt of the decimal numeral of n is n, for every natural number n |
| JsParseInt.ParseZero | src/pages/FlagDetails.tsx:80 | `parseInt('0')` is 0 |
| JsParseInt.NoLeadingDigitIsNaN | src/pages/FlagDetails.tsx:80 | the empty string, and a string that starts with no white space, sign or digit, parse to NaN |
| FlagForm.With | src/components/FlagForm.tsx:42-45 | the field named by the input's id takes the new value; every other field is unchanged |
| FlagForm.FormDataExtensional | src/components/FlagForm.tsx:24-32 | two forms that agree on all seven fields are equal |
| FlagForm.WithLaws | src/components/FlagForm.tsx:44 | writing back a field's own value changes nothing; of two writes to one field the last wins |
| FlagForm.ViolationOptionIdsDistinct | src/components/FlagForm.tsx:12-19 | the six violation options have distinct ids |
| FlagForm.RemoveAll | src/components/FlagForm.tsx:37 | the filter removes every occurrence of the violation, keeps every other entry as often as before, and keeps their order |
| FlagForm.RemoveAllAbsent | src/components/FlagForm.tsx:37 | filtering out a violation that is not there gives back the same list |
| FlagForm.RemoveAllAppended | src/components/FlagForm.tsx:35-38 | filtering `v` out of `s + [v]` gives back `s` when `s` has no `v` |
| FlagForm.RemoveAllKeepsNoDuplicates | src/components/FlagForm.tsx:37 | filtering keeps a duplicate-free list duplicate-free |
| FlagForm.Toggle | src/components/FlagForm.tsx:34-40 | the violation is selected afterwards if and only if it was not before; no other entry changes membership; an absent one is appended at the end; a present one is removed everywhere, with the other entries in their order and number |
| FlagForm.ToggleTwiceAbsent | src/components/FlagForm.tsx:34-40 | toggling an unselected violation twice gives back the same list |
| FlagForm.ToggleTwiceSameSelection | src/components/FlagForm.tsx:34-40 | toggling twice always gives back the same set of selected violations |
| FlagForm.ToggleTwiceLastSelected | src/components/FlagForm.tsx:34-40 | toggling twice a violation selected once, in last place, gives back the same list |
| FlagForm.ToggleTwiceSelected | src/components/FlagForm.tsx:34-40 | toggling twice a selected violation removes every occurrence and puts it back once, at the end |
| FlagForm.ToggleTwiceMovesToEnd | src/components/FlagForm.tsx:34-40 | toggling twice can reorder the list: ["ghosting", "unpaid"] becomes ["unpaid", "ghosting"] |
| FlagForm.ToggleKeepsNoDuplicates | src/components/FlagForm.tsx:34-40 | toggling never introduces a duplicate into a duplicate-free list |
| FlagForm.IsStepValid | src/components/FlagForm.tsx:51-62 | `isStepValid` under JavaScript truthiness: step 1 needs company, role, date range and a violation; step 2 the narrative; step 3 the consent; any other step is invalid |
| FlagForm.Initial | src/components/FlagForm.tsx:22-32 | the mounted state: step 1, no violation, seven empty fields |
| FlagForm.AfterToggle | src/components/FlagForm.tsx:34-40 | `handleViolationToggle` on the state: the selection is toggled, the rest kept |
| FlagForm.AfterInput | src/components/FlagForm.tsx:42-45 | `handleInputChange` on the state: the named field takes the value |
| FlagForm.AfterConsent | src/components/FlagForm.tsx:47-49 | `handleConsent` on the state: the consent takes the value |
| FlagForm.AfterNext | src/components/FlagForm.tsx:64-70 | `handleNext` on the state: one step forward when the current step is valid, else no change |
| FlagForm.AfterBack | src/components/FlagForm.tsx:72-74 | `handleBack` on the state: one step back, unguarded |
| FlagForm.AfterSubmit | src/components/FlagForm.tsx:76-95 | `handleSubmit` on the state: the initial state when step 3 is valid, else no change |
| FlagForm.Available | src/components/FlagForm.tsx:193-324 | Continue is visible on steps 1 and 2, Back on steps 2 and 3; inputs and the form's submit on every step |
| FlagForm.Dispatch | src/components/FlagForm.tsx:133-324 | one user action: its handler when its control is visible, no change otherwise |
| FlagForm.Run | src/components/FlagForm.tsx:133-324 | a sequence of user actions, applied in order |
| FlagForm.Invariant | src/components/FlagForm.tsx:22-23 | the step is 1, 2 or 3 and no violation is listed twice |
| FlagForm.ProgressDot | src/components/FlagForm.tsx:108-126 | dot k is active when the step is at least k; dots 1 and 2 are completed when the step is past them |
| FlagForm.StepOf | src/components/FlagForm.tsx:51-62 | each field belongs to one of the steps 1 to 3 |
| FlagForm.EditKeepsOtherStepsValidity | src/components/FlagForm.tsx:51-62 | editing a field never changes another step's validity; names and quotes change no step's validity |
| FlagForm.EmptyFormInvalid | src/components/FlagForm.tsx:51-62 | with every field empty, no step is valid |
| FlagForm.BackFromFirstStep | src/components/FlagForm.tsx:72-74 | `handleBack` on the initial state would reach step 0, since it has no guard of its own |
| FlagForm.SubmitNeedsOnlyConsent | src/components/FlagForm.tsx:76-95 | any state with a consent is reset to the initial state by submit |
| FlagForm.InitialInvariant | src/components/FlagForm.tsx:22-32 | the initial state is on step 1 with no duplicate violations |
| FlagForm.DispatchKeepsInvariant | src/components/FlagForm.tsx:64-95 | every user action available on the visible step keeps the step in 1 to 3 and the violations duplicate-free |
| FlagForm.RunKeepsInvariant | src/components/FlagForm.tsx:133-324 | every sequence of such actions keeps the invariant |
| FlagForm.ReachableInRange | src/components/FlagForm.tsx:193-324 | from the initial state, the step stays within 1 to 3 whatever the user does |
| FlagForm.ContinueBlockedWithoutViolation | src/components/FlagForm.tsx:64-70 | Continue on step 1 with no violation selected changes nothing |
| FlagForm.ContinueAdvancesIffValid | src/components/FlagForm.tsx:64-70 | on steps 1 and 2, Continue advances by one step if and only if the step is valid, and stays otherwise |
| FlagForm.DotsShowProgress | src/components/FlagForm.tsx:108-126 | on step k, k dots are active and k - 1 completed; a dot is completed exactly when it is active and not the current step |
| FlagForm.Component.constructor | src/components/FlagForm.tsx:22-32 | the component starts on step 1 with no violation and seven empty fields |
| FlagForm.Component.HandleViolationToggle | src/components/FlagForm.tsx:34-40 | the new state is the toggled state; the violation's membership flips |
| FlagForm.Component.HandleInputChange | src/components/FlagForm.tsx:42-45 | the named field takes the value; every other field and all other state are unchanged |
| FlagForm.Component.HandleConsent | src/components/FlagForm.tsx:47-49 | only the consent changes |
| FlagForm.Component.HandleNext | src/components/FlagForm.tsx:64-70 | the step grows by exactly one if it was valid; otherwise nothing changes and the error toast is raised |
| FlagForm.Component.HandleBack | src/components/FlagForm.tsx:72-74 | the step goes down by one; nothing else changes |
| FlagForm.Component.HandleSubmit | src/components/FlagForm.tsx:76-95 | with a consent the whole state is reset and the success toast raised; without, nothing changes and the error toast is raised |
| FlagForm.Component.HandleEvent | src/components/FlagForm.tsx:133-324 | one action on the visible form has the effect of `Dispatch` and keeps the invariant |
| DialogSteps.Closed | src/components/ReportDialog.tsx:46-57 | the mounted state is closed, on step 1, with the default values |
| DialogSteps.AfterContinue | src/components/ReportDialog.tsx:122 | Continue sets the step to 2 |
| DialogSteps.AfterBack | src/components/ReportDialog.tsx:233 | Back sets the step to 1 |
| DialogSteps.AfterClose | src/components/ReportDialog.tsx:73-77 | `handleClose`: closed, step 1, the defaults |
| DialogSteps.AfterSubmit | src/components/ReportDialog.tsx:138 | `form.handleSubmit(handler)`: the handler's reset when the values pass, no change otherwise |
| DialogSteps.AfterOpenChange | src/components/ReportDialog.tsx:80 | `onOpenChange={setOpen}` sets `open` only |
| DialogSteps.Available | src/components/ReportDialog.tsx:118-238 | Continue and Cancel on step 1, the form with Back and submit on step 2, only while open |
| DialogSteps.Dispatch | src/components/ReportDialog.tsx:80-238 | one user action: its handler when its control is shown, no change otherwise |
| DialogSteps.Run | src/components/ReportDialog.tsx:80-238 | a sequence of user actions on the dialog, applied in order |
| DialogSteps.AfterEdit | src/components/ReportDialog.tsx:139-230 | a field's `field.onChange` replaces the form's values and keeps `open` and the step |
| DialogSteps.EditDiscardedByClose | src/components/ReportDialog.tsx:73-77 | Cancel after any edit reaches the mounted state, so what was typed is thrown away |
| DialogSteps.RunConcat | src/components/ReportDialog.tsx:80-238 | running two sequences of actions in turn is running their concatenation |
| DialogSteps.ResetForgetsHistory | src/components/ReportDialog.tsx:59-77 | after Cancel on step 1, or a submit the schema accepts on step 2, any further actions behave as on a freshly mounted dialog |
| DialogSteps.CloseAndSubmitAgree | src/components/ReportDialog.tsx:59-77 | an accepted submit and Cancel reach the same state, the mounted one; closing twice is closing once, and so is submitting twice |
| DialogSteps.SubmitIdempotent | src/components/ReportDialog.tsx:59-77 | for any values and schema, submitting twice is submitting once |
| DialogSteps.RejectedSubmitKeepsState | src/components/ReportDialog.tsx:138 | a submit the schema rejects changes nothing |
| DialogSteps.DispatchKeepsStepInRange | src/components/ReportDialog.tsx:118-238 | every action keeps the step in {1, 2} |
| DialogSteps.RunKeepsStepInRange | src/components/ReportDialog.tsx:118-238 | every sequence of actions keeps the step in {1, 2} |
| DialogSteps.DismissKeepsStepAndValues | src/components/ReportDialog.tsx:80 | closing and reopening through `onOpenChange` gives back the same step and values, which Cancel would not |
| ReportDialog.Message | src/components/ReportDialog.tsx:33-35 | the schema's messages for the explanation and the address as written, and a shortened form of the library's enum message for the reason |
| ReportDialog.MessagesDistinct | src/components/ReportDialog.tsx:33-35 | the messages of `reportSchema` (Message) differ from issue to issue |
| ReportDialog.Issues | src/components/ReportDialog.tsx:32-36 | `reportSchema`: the issues of the reason, the explanation's two bounds and the address, in the schema's order |
| ReportDialog.Accepts | src/components/ReportDialog.tsx:32-36 | the schema finds no issue |
| ReportDialog.IssuesIff | src/components/ReportDialog.tsx:32-36 | each issue is reported exactly when its field breaks its rule: reason not listed, explanation under 10 or over 500 characters, address rejected |
| ReportDialog.AcceptsIff | src/components/ReportDialog.tsx:32-36 | the values pass if and only if the reason is listed, the explanation has 10 to 500 characters, bounds included, and the address passes |
| ReportDialog.DefaultsRejected | src/components/ReportDialog.tsx:52-56 | the default values fail, with the explanation too short |
| ReportDialog.LimitMessageAdmitsLimit | src/components/ReportDialog.tsx:34 | the upper bound's message says "less than 500", yet 500 characters raise no issue |
| ReportDialog.SubmitAndCloseReset | src/components/ReportDialog.tsx:59-77 | an accepted submit and Cancel both reach the mounted state, and each changes nothing when applied there |
| ReportDialog.StepStaysInRange | src/components/ReportDialog.tsx:118-238 | from the mounted state the step is always 1 or 2 |
| ReportDialog.With | src/components/ReportDialog.tsx:139-230 | editing one field of the form replaces that field only |
| ReportDialog.Component.constructor | src/components/ReportDialog.tsx:46-57 | the dialog starts closed, on step 1, with the defaults |
| ReportDialog.Component.HandleOpenChange | src/components/ReportDialog.tsx:80 | only `open` changes |
| ReportDialog.Component.HandleContinue | src/components/ReportDialog.tsx:122 | the step becomes 2; nothing else changes |
| ReportDialog.Component.HandleBack | src/components/ReportDialog.tsx:233 | the step becomes 1; nothing else changes |
| ReportDialog.Component.HandleChange | src/components/ReportDialog.tsx:139-230 | one field of the values changes; open and step do not |
| ReportDialog.Component.HandleClose | src/components/ReportDialog.tsx:73-77 | the dialog is closed, on step 1, with the defaults |
| ReportDialog.Component.HandleReportSubmit | src/components/ReportDialog.tsx:59-71 | the dialog is closed, on step 1, with the defaults |
| ReportDialog.Component.SubmitForm | src/components/ReportDialog.tsx:138 | the schema's issues are returned, and the handler runs exactly when there are none |
| ResponseDialog.LengthIssues | src/components/ResponseDialog.tsx:32-35 | `z.string().min(a).max(b)`: too short below a, too long above b |
| ResponseDialog.Message | src/components/ResponseDialog.tsx:32-35 | the schema's message for each of the seven issues |
| ResponseDialog.MessagesDistinct | src/components/ResponseDialog.tsx:32-35 | the messages of `responseSchema` (Message) differ from issue to issue |
| ResponseDialog.Issues | src/components/ResponseDialog.tsx:31-36 | `responseSchema`: the issues of the response, the address, the name and the title, in the schema's order |
| ResponseDialog.Accepts | src/components/ResponseDialog.tsx:31-36 | the schema finds no issue |
| ResponseDialog.LengthIssuesIff | src/components/ResponseDialog.tsx:32-35 | an inclusive length rule reports too-short exactly below its minimum and too-long exactly above its maximum, and nothing else |
| ResponseDialog.IssuesSplit | src/components/ResponseDialog.tsx:31-36 | an issue of the form comes from the response, the address, the name or the title check |
| ResponseDialog.IssuesIff | src/components/ResponseDialog.tsx:31-36 | each of the seven issues is reported exactly when its field breaks its rule |
| ResponseDialog.AcceptsIff | src/components/ResponseDialog.tsx:31-36 | the values pass if and only if the response has 20 to 1000 characters, the address passes, and the name and title have 2 to 100 characters each, bounds included |
| ResponseDialog.DefaultsRejected | src/components/ResponseDialog.tsx:52-57 | the all-empty defaults fail, with the response, the name and the title too short |
| ResponseDialog.LimitMessagesAdmitLimits | src/components/ResponseDialog.tsx:32-35 | the upper bounds' messages say "less than", yet 1000 response characters and 100 name and title characters raise no issue |
| ResponseDialog.SubmitAndCloseReset | src/components/ResponseDialog.tsx:60-78 | an accepted submit and Cancel both reach the mounted state, and each changes nothing when applied there |
| ResponseDialog.StepStaysInRange | src/components/ResponseDialog.tsx:119-224 | from the mounted state the step is always 1 or 2 |
| ResponseDialog.With | src/components/ResponseDialog.tsx:140-215 | editing one field of the form replaces that field only |
| ResponseDialog.Component.constructor | src/components/ResponseDialog.tsx:46-58 | the dialog starts closed, on step 1, with the defaults |
| ResponseDialog.Component.HandleOpenChange | src/components/ResponseDialog.tsx:81 | only `open` changes |
| ResponseDialog.Component.HandleContinue | src/components/ResponseDialog.tsx:123 | the step becomes 2; nothing else changes |
| ResponseDialog.Component.HandleBack | src/components/ResponseDialog.tsx:219 | the step becomes 1; nothing else changes |
| ResponseDialog.Component.HandleChange | src/components/ResponseDialog.tsx:140-215 | one field of the values changes; open and step do not |
| ResponseDialog.Component.HandleClose | src/components/ResponseDialog.tsx:74-78 | the dialog is closed, on step 1, with the defaults |
| ResponseDialog.Component.HandleResponseSubmit | src/components/ResponseDialog.tsx:60-72 | the dialog is closed, on step 1, with the defaults |
| ResponseDialog.Component.SubmitForm | src/components/ResponseDialog.tsx:139 | the schema's issues are returned, and the handler runs exactly when there are none |

## Left out

- Rendering: the JSX and the CSS classes of the layout are left out, as are the Header,
  Footer, Feed, Submit and Index pages. Of the feed list, each row's key, company, role, date,
  description and badges (text and class) are modelled, not its markup.
- Toasts and `console.log` are foreign side effects. The wizard's handlers return the toast
  they would raise as a `Notice`. The dialogs' handlers do not model their toasts.
- zod's `.email()` check belongs to the library: it is the parameter `isEmail`.
  react-hook-form's field registration is taken to be a plain field update.
- ReportDialog.Message: the library's message for a bad enum value starts "Invalid enum value"
  and goes on to name the four allowed values and the value received; the model keeps only the
  opening words, since the rest of the text comes from the library.
- ReportDialog.IssuesIff: zod measures lengths in UTF-16 code units, and the model counts
  characters. The two differ for characters outside the Basic Multilingual Plane.
- ResponseDialog.IssuesIff: the same difference in how lengths are counted.
- Text.ToLower: only ASCII letters are folded; JavaScript's `toLowerCase` folds all of Unicode.
- JsParseInt.DecimalString: it writes n as JavaScript's `String(n)` does only below 10^21; from there `String` switches to exponent notation ("1e+21"), which parseInt reads as 1. The lookup only parses the ids 1 to 4.
- JsParseInt.ParseMagnitude: parseInt's result is a double, and digits beyond 2^53 are rounded.
  The model is exact. It also writes -0 as 0, which `===` does not tell apart.
- The dialog component decides when it calls `onOpenChange`. The model lets it happen at any
  time and does nothing else with it.
- The browser enforces HTML `required`, `maxLength={1000}` and the file input of step 2, so
  `isStepValid` does not check them. The model leaves them out.
- The wizard's form submit event is taken to be possible on every step, as pressing Enter in
  a field can submit it. The Continue and Back buttons are taken to be clickable only on the
  steps on which they are visible; the other steps' divs are in the page but hidden.
- `formatDistanceToNow`, `toLocaleString` and the current year depend on the clock and locale.
  The timestamp and the view count are kept as data only.
- Routing (`useParams`, `Link`) is not modelled. The route parameter is an `Option<string>`.
