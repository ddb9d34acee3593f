# Portfolio site: contact form and project grid

This project models the two components of a one-page portfolio site that carry logic.

- **The contact form** (`app/components/ContactForm.tsx`).
  - It keeps five pieces of state: `formData`, `errors`, `isSubmitting`, `submitStatus` and `statusMessage`.
  - `validateForm` checks the name, the email (against `/^[^\s@]+@[^\s@]+\.[^\s@]+$/`) and the message.
  - `handleChange` records an edit and clears that field's error.
  - `handleSubmit` validates, sends the fields through EmailJS, shows a success or failure banner, and schedules a reset of the banner after five seconds.
- **The portfolio grid** (`app/components/PortfolioSection.tsx`).
  - A project is a web project (with a live link) or a graphic-design project.
  - The active tab selects which list the grid shows.
  - Each card shows an image or a "WD"/"GD" badge, and a "Live" link for web projects.
  - An empty list shows the empty-state message.

Files:

- `wrappers.dfy`: `Option`.
- `text.dfy`: JavaScript whitespace and `String.prototype.trim`.
- `email_regex.dfy`: the email pattern. It has two forms:
  - `Matches`, the language of the regular expression;
  - `Test`, a decision procedure.

  They are proved equal, and the accepted strings are characterised by their '@' and '.'.
- `validation.dfy`: `validateForm` as a pure function of `formData`.
- `contact_form.dfy`: the form's state as a value, with one function per handler step, and the `Controller` class.
  - The class has the five state fields. Its methods update them in place, and each is proved to produce the state the matching function gives.
  - The file also proves an invariant, `Coherent`, of every state reachable through edits, clicks, settled sends and timers.
- `portfolio.dfy`: the project union, the tab filter, the tab buttons and the card rules, all as pure functions.

The EmailJS call is a parameter of the model, an `Outcome`: the promise resolved with some HTTP status, or it threw. The five-second timer is an explicit event. `pendingResets` counts the reset callbacks that are scheduled but have not yet run.

The model follows the code as written on these points:

- The email pattern is tested on the email as typed, not on its trimmed form. A non-blank address with a space at either end is therefore reported as "Please enter a valid email" (`Validation.PaddedEmailInvalid`).
- The pattern's last run is `[^\s@]+`, so the part after the dot may not contain '@'. A looser description of the format would allow it there.
- A response that resolves with a status other than 200 sets neither status nor message. After the earlier reset to idle, the form stays idle with no banner, so it does not show an error.
- The reset callback is unconditional; it does not check which submission scheduled it. After a failed send and a successful resend, the first timer clears the success banner (`ContactForm.StaleResetClearsNewerBanner`).
- An invalid submit returns before the `try`, so it schedules no reset. When no earlier reset is pending, the "Please fix the errors above" banner stays until the next click (`ContactForm.FixErrorsBannerStays`). A reset scheduled by an earlier send can still clear it.

## Model

| member | source | states |
|---|---|---|
| Text.IsSpace | app/components/ContactForm.tsx:48 | the one character set that `\s` and `trim` share: the ECMAScript WhiteSpace and LineTerminator code points. `Trim` and the pattern are both stated over it |
| Text.Trim | app/components/ContactForm.tsx:39 | `trim()` never lengthens a string, and a non-empty result neither starts nor ends with whitespace |
| Text.TrimEmptyIffAllSpace | app/components/ContactForm.tsx:39 | the trimmed value is empty (the `!x.trim()` test) exactly when every character is whitespace |
| Text.TrimIsInfix | app/components/ContactForm.tsx:42 | the trimmed value is the contiguous part of the input left after its leading whitespace, so its length never exceeds the input's |
| Text.TrimIdempotent | app/components/ContactForm.tsx:42 | trimming an already trimmed value changes nothing |
| Text.TrimStartSplits | app/components/ContactForm.tsx:39 | what trimming the start removes is all whitespace, and what it keeps is a suffix of the input |
| Text.TrimEndSplits | app/components/ContactForm.tsx:39 | what trimming the end removes is all whitespace, and what it keeps is a prefix of the input |
| EmailRegex.IndexOf | app/components/ContactForm.tsx:48 | a helper for `Test` rather than part of the pattern: the index of the first occurrence of a character, or the length when it is absent, with no earlier index holding it |
| EmailRegex.Matches | app/components/ContactForm.tsx:48 | the language of the anchored pattern: a non-empty `[^\s@]` run, '@', a non-empty run, '.', and a non-empty run. `TestIsRegex` ties it to `Test` |
| EmailRegex.Test | app/components/ContactForm.tsx:52 | `emailRegex.test(formData.email)`, decided from the first '@'. `TestIsRegex` proves it equal to `Matches`, and `TestShape` characterises it |
| EmailRegex.TestIsRegex | app/components/ContactForm.tsx:48 | `emailRegex.test(s)` holds exactly when `s` splits as a non-empty `[^\s@]` run, '@', a non-empty run, '.', and a non-empty run |
| EmailRegex.TestShape | app/components/ContactForm.tsx:48 | a string passes the pattern exactly when it has no whitespace, exactly one '@', a non-empty part before it, and a '.' strictly inside the part after it |
| EmailRegex.EdgeSpaceFails | app/components/ContactForm.tsx:52 | a string with whitespace at either end never passes the anchored pattern |
| EmailRegex.CountZero | app/components/ContactForm.tsx:48 | a fact about the helper `Count` that supports `TestShape`, not a model of the line: a character is counted zero times exactly when it does not occur |
| EmailRegex.PlainAround | app/components/ContactForm.tsx:48 | a step of the proof of `TestShape`, not a model of the line: around the first '@', both sides are `[^\s@]` runs exactly when the string has no whitespace and no later '@' |
| EmailRegex.CountAround | app/components/ContactForm.tsx:48 | a fact about the helper `Count` that supports `TestShape`, not a model of the line: the first '@' counts once, and the other occurrences all lie after it |
| Validation.Fields.Set | app/components/ContactForm.tsx:74 | `{ ...prev, [name]: value }` sets the named field and leaves the other two as they were |
| Validation.LengthRule | app/components/ContactForm.tsx:39-45 | the error is the "required" message exactly when the value is all whitespace, the "too short" message exactly when the trimmed value is non-empty but below the minimum, and "" exactly when the trimmed length reaches the minimum |
| Validation.NameError | app/components/ContactForm.tsx:39-45 | "Name is required" exactly when the name is blank, "Name must be at least 2 characters" exactly when the trimmed name has 1 character, "" otherwise |
| Validation.EmailError | app/components/ContactForm.tsx:48-55 | "Email is required" exactly when the email is blank, "Please enter a valid email" exactly when it is not blank and the untrimmed value fails the pattern, "" exactly when the untrimmed value passes |
| Validation.MessageError | app/components/ContactForm.tsx:58-64 | "Message is required" exactly when the message is blank, the 10-character message exactly when the trimmed message is non-empty and shorter than 10, "" otherwise |
| Validation.FieldError | app/components/ContactForm.tsx:38-64 | sends each field to its own rule: the name to `NameError`, the email to `EmailError`, the message to `MessageError`. `ValidateFormErrors` uses it |
| Validation.ValidateForm | app/components/ContactForm.tsx:34-68 | the flag is computed from the failing branches' conditions, as the source clears `isValid`. The contract proves it true exactly when every new error is "" |
| Validation.ValidateFormErrors | app/components/ContactForm.tsx:35-66 | a restatement of `ValidateForm`'s definition, kept so the property can be cited: the new `errors` record holds, for every field, that field's own rule applied to that field's value alone: all three are always judged, and the old errors play no part |
| Validation.ValidateFormValid | app/components/ContactForm.tsx:36-67 | the form is valid exactly when the trimmed name has at least 2 characters, the untrimmed email passes the pattern, and the trimmed message has at least 10 characters |
| Validation.PaddedEmailInvalid | app/components/ContactForm.tsx:49-55 | a non-blank email with whitespace at either end gets "Please enter a valid email" |
| Validation.ValidEmailShape | app/components/ContactForm.tsx:48-55 | the email of a valid form has no whitespace, exactly one '@', a non-empty local part and a domain with an inner '.' |
| Validation.EmptyFormVerdict | app/components/ContactForm.tsx:34-68 | the empty form is invalid with all three "required" messages |
| Validation.ShortFormVerdict | app/components/ContactForm.tsx:34-68 | a one-letter name, an address without '@' and a five-letter message each get their own rule's message |
| ContactForm.Change | app/components/ContactForm.tsx:70-79 | an edit sets only the edited field, clears only that field's error, and leaves the status, the message, `isSubmitting` and the pending timers alone |
| ContactForm.Request | app/components/ContactForm.tsx:84-103 | EmailJS is called exactly when the form validates, and it receives the current fields, which have no errors |
| ContactForm.Begin | app/components/ContactForm.tsx:84-92 | the errors become the fresh verdict. An invalid form shows the "fix the errors" banner with no send and `isSubmitting` unchanged. A valid one is submitting, idle, has an empty message and no errors. The fields are unchanged either way |
| ContactForm.Settle | app/components/ContactForm.tsx:94-125 | the `finally` always ends the submission and schedules one reset. A 200 gives success, the fixed message and an empty form. A throw gives error and the failure message. Any other status leaves status and message alone. The fields survive every case but 200 |
| ContactForm.Submit | app/components/ContactForm.tsx:81-126 | one whole `handleSubmit`, by case: invalid, 200, throw, other status. Each case has its status, message, fields, errors and timer count |
| ContactForm.Reset | app/components/ContactForm.tsx:121-124 | the timer callback sets idle and "" and changes no field, error or `isSubmitting` |
| ContactForm.Step | app/components/ContactForm.tsx:136-194 | the form's reaction to one event. While submitting, edits and clicks change nothing (the `disabled` attributes at lines 145, 165, 185 and 194). A settle outside a submission and a timer with none pending change nothing. A click replaces the errors with the fresh verdict, and a send starts only with valid fields |
| ContactForm.Run | app/components/ContactForm.tsx:70-126 | the state after a sequence of events, one `Step` at a time. `RunAppend` splits it and `RunKeepsCoherent` carries the invariant through it |
| ContactForm.Coherent | app/components/ContactForm.tsx:14-28 | the invariant of the five state fields: the banner text agrees with the status, a send in flight is idle with valid fields and no errors, and every error shown is its field's rule for the current value. `ReachableCoherent` proves it of every reachable state |
| ContactForm.InitialCoherent | app/components/ContactForm.tsx:14-28 | the first render's state is coherent |
| ContactForm.ChangeKeepsCoherent | app/components/ContactForm.tsx:70-79 | after an edit, every error still shown is the rule's message for its field's current value |
| ContactForm.BeginKeepsCoherent | app/components/ContactForm.tsx:84-92 | after a click, the banner agrees with the status, and a send starts only for valid fields with no errors shown |
| ContactForm.SettleKeepsCoherent | app/components/ContactForm.tsx:94-125 | after a send settles, the banner agrees with the status |
| ContactForm.StepKeepsCoherent | app/components/ContactForm.tsx:136-194 | every event keeps the form coherent, given that the inputs and the button are disabled while submitting |
| ContactForm.RunKeepsCoherent | app/components/ContactForm.tsx:70-126 | every sequence of events keeps a coherent form coherent |
| ContactForm.ReachableCoherent | app/components/ContactForm.tsx:14-126 | every state reachable from the first render is coherent: the banner text matches the status, a send in flight has valid fields and no errors, and each shown error describes its field's current value |
| ContactForm.FixErrorsBannerStays | app/components/ContactForm.tsx:84-88 | after an invalid submit with no timer pending, neither edits nor timers remove the "fix the errors" banner |
| ContactForm.ErrorStays | app/components/ContactForm.tsx:66-79 | an error shown under a field stays as it is through any events that neither edit that field nor click submit: only an edit of the field clears it, and only the next validation sets it |
| ContactForm.RunAppend | app/components/ContactForm.tsx:70-126 | running two event sequences one after the other is running their concatenation |
| ContactForm.FailThenResend | app/components/ContactForm.tsx:94-125 | a throw keeps the fields for a retry. The resend then succeeds, clears the form and leaves two resets pending |
| ContactForm.StaleResetClearsNewerBanner | app/components/ContactForm.tsx:120-124 | the timer of the failed send clears the success banner of the later resend, while the later timer is still pending |
| ContactForm.Controller.constructor | app/components/ContactForm.tsx:14-28 | empty fields, no errors, not submitting, idle, no message, no timer |
| ContactForm.Controller.HandleChange | app/components/ContactForm.tsx:70-79 | the new state is `Change` of the old |
| ContactForm.Controller.BeginSubmit | app/components/ContactForm.tsx:84-92 | the new state is `Begin` of the old, and the returned request is `Request` of the old state |
| ContactForm.Controller.FinishSubmit | app/components/ContactForm.tsx:94-125 | the new state is `Settle` of the old under the given outcome |
| ContactForm.Controller.HandleSubmit | app/components/ContactForm.tsx:81-126 | the new state is `Submit` of the old, and a request is made exactly when the form validates |
| ContactForm.Controller.HandleTimeout | app/components/ContactForm.tsx:121-124 | the new state is `Reset` of the old |
| Portfolio.Project.Category | app/components/PortfolioSection.tsx:4-21 | the category is "Web Development" exactly for web projects and "Graphic Design" exactly for graphic projects |
| Portfolio.AllProjects | app/components/PortfolioSection.tsx:34 | every web project in order, then every graphic project in order; the length is the sum |
| Portfolio.Filtered | app/components/PortfolioSection.tsx:36-41 | `filteredProjects`: every project shown is in `allProjects`. `FilteredContents`, `TabShowsItsCategory` and `FilteredIsSubsequence` give its contents per tab |
| Portfolio.OfCategory | app/components/PortfolioSection.tsx:36-41 | the reference filter keeps only projects of the given category, all drawn from the input |
| Portfolio.OfCategoryAppend | app/components/PortfolioSection.tsx:34 | filtering a concatenation is concatenating the filtered parts |
| Portfolio.OfCategoryUniform | app/components/PortfolioSection.tsx:4-21 | a list of one category filters to itself for that category and to nothing for the other |
| Portfolio.TabShowsItsCategory | app/components/PortfolioSection.tsx:36-41 | the web tab shows exactly the web-development projects of `allProjects`, in order, and the graphics tab exactly the graphic-design ones |
| Portfolio.FilteredIsSubsequence | app/components/PortfolioSection.tsx:34-41 | whatever the tab, the grid shows a subsequence of `allProjects` |
| Portfolio.FilteredContents | app/components/PortfolioSection.tsx:32-41 | a restatement of `Filtered`'s definition, kept so the property can be cited: the initial tab shows `allProjects`. 'web' shows `webProjects` and 'graphics' shows `graphicProjects`. Each category tab shows only its category |
| Portfolio.Button | app/components/PortfolioSection.tsx:60-91 | "All Projects" has no count, and each category button's count is the number of cards that selecting it shows |
| Portfolio.HasImage | app/components/PortfolioSection.tsx:104 | the truthiness test `project.image ?`: an image is present and not "". `Placeholder` and `RenderCard` are stated over it |
| Portfolio.Placeholder | app/components/PortfolioSection.tsx:104-116 | no badge exactly when the image is truthy; otherwise "GD" exactly for graphic projects and "WD" exactly for web projects |
| Portfolio.LiveLink | app/components/PortfolioSection.tsx:129-139 | a "Live" link exactly for "Web Development" projects, pointing at their `liveLink` |
| Portfolio.RenderCard | app/components/PortfolioSection.tsx:95-145 | a card shows the project's title, category and description. It shows the project's own image exactly when that image is truthy, and otherwise the "GD" badge for graphic projects or "WD" for web ones, never both. It has a link exactly for web projects, pointing at their `liveLink` |
| Portfolio.ShowsEmptyState | app/components/PortfolioSection.tsx:149 | "No projects to display yet." is shown when the filtered list is empty. `EmptyStateCases` says when that happens |
| Portfolio.EmptyStateCases | app/components/PortfolioSection.tsx:149-154 | close to a restatement of the definitions: the empty state shows on "All Projects" exactly when both lists are empty, and on a category tab exactly when that list is empty |

## Left out

- The EmailJS library (`emailjs.init`, `emailjs.send`, `app/components/ContactForm.tsx:96-103`) is a network call. It is the `Outcome` parameter. The service, template and key strings (lines 31-33) carry no logic and are not modelled.
- The five-second delay is not modelled. Time is not modelled; a scheduled reset is a `TimerFires` event that may come at any point while a reset is pending.
- `console.error` (line 113), JSX, CSS classes, icons, the social links, the spinner and the banner's colours are not modelled.
- React's `setState` batching and render closures are not modelled. Each handler's updates are applied together, and each handler reads the state current when it runs.
- Re-entrant submits are ruled out as the rendered form rules them out: edits and clicks are ignored while `isSubmitting` (the `disabled` attributes at lines 145, 165, 185 and 194). `ContactForm.Controller.HandleSubmit` models one submission whose send settles before anything else happens.
- `ContactForm.Controller.HandleTimeout` requires a pending reset. A callback can only run after `handleSubmit` scheduled it.
- Text.IsSpace: JavaScript's `trim` and `\s` use the ECMAScript WhiteSpace and LineTerminator sets, whose space-separator (Zs) part follows the Unicode version. The model fixes them to the code points listed in `text.dfy`.
- Validation.LengthRule: lengths count characters, not UTF-16 code units. A character outside the Basic Multilingual Plane counts 1 here and 2 in `.length`.
- `setActiveTab` overwrites the tab, so the tab is a parameter of every portfolio function rather than state.
- A project's `color`, the card `key`, and the image's `src`/`alt` are carried or dropped, but no rule depends on them.
- app/page.tsx is not part of this model: its static arrays, its scroll-spy and its alert-only form.
