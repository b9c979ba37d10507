# Birthday RSVP — a verified model of the form logic

This project models the logic inside the birthday invitation's RSVP page.
The page has three components:

- **the hero-button modal** (`HeroRSVPButton`). It shows an invitation button, then a form modal, then a success view.
- **the standalone form** (`RSVPForm`). Its PIN field filters what is typed to at most four digits.
- **the admin dashboard** (`AdminDashboard`). It lists the stored responses and counts them.

What is modelled, module by module:

- `JsText`: JavaScript strings as sequences of UTF-16 code units. This makes `length`, the class `[0-9]` and `String.prototype.trim` exact. `trim` strips the WhiteSpace and LineTerminator code points of ECMA-262, taking the Unicode 15 members of category Zs.
- `PinInput`: the PIN input filter, `value.replace(/[^0-9]/g, '').slice(0, 4)`.
- `Form`: the four form fields and the field → message error map. Also the blanking of one message when its field is edited, the `/^\d{4}$/` PIN test, and the condition both validators accept.
- `Submission`: the row inserted into `rsvps`, built from the form. Also the requests sent to the data service and the answers it can give.
- `HeroRsvp`: the modal's validator, every handler, its three views, an invariant of the state machine, and a whole submission run to its end.
- `RsvpForm`: the same for the standalone form.
- `Admin`: the attending / not-attending / total counts, and the effect of a load on the dashboard.
- `Agreement`: how the two validators relate.

Each event handler is a pure function from one state to the next. A handler may also return one request to the data service: `PinLookup(pin)` (the standalone form's query for one active PIN), `PinListFetch` (the modal's read of the whole PIN table, which it then searches itself) or `Insert(row)`. The model does not perform the network calls. Their answers come back as later events (`LookupReturned`, `InsertReturned`), and each is one of a fixed set of outcomes. While a handler waits on an answer, `pending` holds the form it captured when it started.

"No network call" therefore means "no request returned". Three guards sit in front of `handleSubmit`, and `Submit` does nothing when any of them holds. The submit button is disabled while `isSubmitting` is set. The form may not be on screen. And the browser's own validation stops the `submit` event while the PIN or the name is the empty string: both inputs are marked `required`, and neither form sets `noValidate`. `Submitted` therefore stands for `handleSubmit` being called. A consequence: the modal's "PIN required" message can never appear, and its "name required" message appears only for a name made of whitespace alone. `SubmitFlow` runs one click on submit to the end, given the two answers the service would give.

A few behaviours of the code are worth stating plainly; the model follows the code:

- Attendance is only checked for being non-empty. It is not checked against two values. The stored flag is `attending == "yes"`.
- The modal accepts four PINs from a fixed list (2210, 5678, 9876, 4321) without a lookup. Any other PIN is looked up remotely. It is accepted only when the lookup finds it. A lookup error or a throw counts as not found.
- When the modal rejects a PIN, the whole error map is replaced by the single PIN message. The standalone form instead puts its message in the general `error`. If the lookup threw, it shows the thrown message.
- Only the modal blocks a second submission: once `submitted` is set, the success view replaces the form until reset. The standalone form stays on screen and empties itself after a success, so another submission can follow right away.
- Reset does not cancel a submission that is still waiting. An insert that completes after a reset still sets `submitted`.

## Model

| member | source | states |
|---|---|---|
| JsText.Trim | src/components/HeroRSVPButton.tsx:65-67 | `name.trim()` is empty exactly when every code unit is JS whitespace; otherwise it starts and ends with non-whitespace |
| JsText.TrimIsSlice | src/components/HeroRSVPButton.tsx:183-185 | the trimmed string is a contiguous slice of the input, with only whitespace cut off before and after it |
| JsText.TrimUntouched | src/components/HeroRSVPButton.tsx:183-185 | a string with no whitespace at either end is returned unchanged by `trim` |
| JsText.TrimIdempotent | src/components/HeroRSVPButton.tsx:183-185 | trimming twice equals trimming once |
| PinInput.KeepDigits | src/components/RSVPForm.tsx:27 | `replace(/[^0-9]/g, '')` yields only digits, is no longer than its input, and returns an all-digit input unchanged and a digit-free input as "" |
| PinInput.KeepDigitsAppend | src/components/RSVPForm.tsx:27 | filtering distributes over concatenation |
| PinInput.KeepDigitsCountsDigits | src/components/RSVPForm.tsx:27 | every digit of the input is kept, each occurrence exactly once |
| PinInput.Sanitize | src/components/RSVPForm.tsx:27 | the stored PIN is all digits, at most 4 long, a prefix of the digit subsequence, and of length min(4, number of digits) |
| PinInput.SanitizeIdempotent | src/components/RSVPForm.tsx:27 | filtering a filtered PIN changes nothing |
| PinInput.SanitizeKeepsShortDigits | src/components/RSVPForm.tsx:27 | a value of at most four digits passes through unchanged |
| PinInput.SanitizeMonotone | src/components/RSVPForm.tsx:27 | typing more text never changes the digits already accepted: the old PIN is a prefix of the new one |
| Form.BlankError | src/components/HeroRSVPButton.tsx:28-30 | editing a field blanks that field's message in place; the keys and every other message stay |
| Form.AcceptableIsFilled | src/components/RSVPForm.tsx:126-163 | every form the validators accept has a non-empty PIN and name, so the browser's `required` check never blocks an acceptable form |
| Submission.ToRow | src/components/HeroRSVPButton.tsx:181-187 | the inserted row has `pin_used` = pin, `name` = trimmed name, `attending` iff the choice is "yes", and `message` = null exactly when the message is all whitespace, else the non-empty trimmed message |
| Submission.AcceptableFormGivesWellFormedRow | src/components/HeroRSVPButton.tsx:130-187 | a form that passed validation yields a row with a 4-digit PIN, a trimmed name of length ≥ 2, and a trimmed non-empty message if any |
| HeroRsvp.PinError | src/components/HeroRSVPButton.tsx:57-63 | there is no PIN message exactly when the PIN matches `^\d{4}$`; the message is "required" iff the PIN is empty, "4 digits" iff it is non-empty with length ≠ 4, and "only numbers" iff it has length 4 but a non-digit |
| HeroRsvp.NameError | src/components/HeroRSVPButton.tsx:65-69 | there is no name message exactly when the trimmed name has length ≥ 2; "required" iff the name is all whitespace, "at least 2" iff the trimmed length is 1 |
| HeroRsvp.Validate | src/components/HeroRSVPButton.tsx:54-77 | the error map has a PIN, name or attendance key exactly when that rule fails, never a message key, and only non-empty messages; it is empty (validateForm returns true) exactly when the form is acceptable |
| HeroRsvp.ViewOf | src/components/HeroRSVPButton.tsx:219-237 | the form is shown exactly when `showForm && !submitted`, the success view exactly when `showForm && submitted` |
| HeroRsvp.Open | src/components/HeroRSVPButton.tsx:223 | the invitation button opens the modal and changes nothing else |
| HeroRsvp.Change | src/components/HeroRSVPButton.tsx:25-31 | editing sets only that field, verbatim, and blanks only that field's message; every other field, message and flag is unchanged |
| HeroRsvp.ChooseAttendance | src/components/HeroRSVPButton.tsx:33-38 | an attendance click sets only `attending` and blanks only its message |
| HeroRsvp.AttendanceIsChange | src/components/HeroRSVPButton.tsx:25-38 | the attendance click behaves exactly like the change handler on the attendance field |
| HeroRsvp.Submit | src/components/HeroRSVPButton.tsx:127-153 | a submit while the button is disabled (`isSubmitting`, line 614), the form is hidden, or the `required` PIN or name input is empty (lines 352 and 426) does nothing; an invalid form only sets the messages, with no request and `isSubmitting` untouched; a valid form clears the messages and `error`, sets `isSubmitting`, and requests the insert for an allow-listed PIN or else a fetch of the whole PIN table, whose query carries no PIN |
| HeroRsvp.OnLookup | src/components/HeroRSVPButton.tsx:150-187 | a found PIN leads to an insert of the captured form's row; not found, an error or a throw sets only the PIN-rejected message, clears `isSubmitting`, and requests nothing |
| HeroRsvp.OnInsert | src/components/HeroRSVPButton.tsx:189-206 | success sets `submitted`; failure sets the generic message and keeps `submitted`; either way `isSubmitting` is cleared and the form is kept |
| HeroRsvp.Reset | src/components/HeroRSVPButton.tsx:209-215 | reset empties all four fields, the messages and `error`, clears `submitted` and `showForm`, and leaves a waiting submission alone |
| HeroRsvp.SubmitKeepsInv | src/components/HeroRSVPButton.tsx:127-153 | submit keeps the invariant, and any insert it requests is for the well-formed row of the submitted form, with an allow-listed PIN |
| HeroRsvp.OnLookupKeepsInv | src/components/HeroRSVPButton.tsx:150-187 | a lookup answer keeps the invariant, and any insert it requests follows a found PIN and carries the well-formed row of the form captured when the submission started |
| HeroRsvp.StepKeepsInv | src/components/HeroRSVPButton.tsx:25-215 | every event keeps `isSubmitting` set exactly while a submission waits; a row is inserted only if it is the well-formed row of the submitted form and its PIN was allow-listed, or of the captured form after its PIN was found |
| HeroRsvp.RunKeepsInv | src/components/HeroRSVPButton.tsx:25-215 | the invariant holds after any sequence of events from any state satisfying it |
| HeroRsvp.ReachableKeepsInv | src/components/HeroRSVPButton.tsx:13-23 | the first render's state satisfies the invariant, and so does every state reached from it by any sequence of events |
| HeroRsvp.SubmitFlow | src/components/HeroRSVPButton.tsx:127-207 | a submission that cannot start changes nothing; an invalid one only sets the messages and sends nothing; once started, it always ends with `isSubmitting` false and the typed form kept |
| HeroRsvp.AllowListedPinSkipsLookup | src/components/HeroRSVPButton.tsx:144-147 | a valid form with a PIN in {2210, 5678, 9876, 4321} is inserted with no lookup, whatever the lookup would answer |
| HeroRsvp.OtherPinIsLookedUp | src/components/HeroRSVPButton.tsx:148-173 | for any other PIN the PIN table is fetched first, and the row is inserted exactly when the PIN is found in it |
| HeroRsvp.RejectedPinInsertsNothing | src/components/HeroRSVPButton.tsx:164-173 | a rejected PIN sends only the table fetch, leaves only the PIN message, and keeps `submitted` false and `error` empty |
| HeroRsvp.AcceptedPinReachesInsert | src/components/HeroRSVPButton.tsx:178-206 | with the PIN accepted, the form's row is inserted; success shows the success view, failure shows the generic message with the form still up |
| HeroRsvp.SubmitFlowSettles | src/components/HeroRSVPButton.tsx:204-206 | from a consistent state, a submission always ends with nothing left waiting |
| HeroRsvp.NoResubmitAfterSuccess | src/components/HeroRSVPButton.tsx:237 | once `submitted` is set, submit does nothing until reset |
| HeroRsvp.ResetAllowsNewSubmission | src/components/HeroRSVPButton.tsx:209-223 | reset and reopen give an empty form with no messages, whose submit the browser holds back; once a PIN and a name are typed, the form can be submitted again |
| HeroRsvp.RequiredCheckPrecedesValidator | src/components/HeroRSVPButton.tsx:315-426 | an empty PIN or name never reaches `handleSubmit`, so a submit never shows "PIN required" and shows "name required" only for a whitespace-only name |
| HeroRsvp.AllowListedExample | src/components/HeroRSVPButton.tsx:144-192 | PIN "2210", name "Ana", "yes", empty message give exactly one insert of `{pin_used: "2210", name: "Ana", attending: true, message: null}` and then the success view |
| HeroRsvp.UnknownPinExample | src/components/HeroRSVPButton.tsx:144-173 | PIN "0000" with otherwise valid fields sends only the table fetch and, when it is not found, inserts nothing and flags the PIN field |
| RsvpForm.Validate | src/components/RSVPForm.tsx:46-63 | one fixed message for each failing field: PIN iff not `^\d{4}$`, name iff the trimmed length is < 2, attendance iff empty; the map is empty exactly when the form is acceptable |
| RsvpForm.FilteredPinRule | src/components/RSVPForm.tsx:26-28 | a filtered PIN passes the PIN rule iff its length is exactly 4 |
| RsvpForm.Change | src/components/RSVPForm.tsx:22-37 | the PIN is stored filtered and any other field verbatim; only that field's message is blanked; nothing else changes |
| RsvpForm.ChooseAttendance | src/components/RSVPForm.tsx:39-44 | an attendance click sets only `attending` and blanks only its message |
| RsvpForm.Submit | src/components/RSVPForm.tsx:65-82 | while busy, or while the `required` PIN or name input is empty (lines 138 and 163), submit does nothing; otherwise it clears `error` and replaces the messages; an invalid form stops there with no request; a valid one sets `isSubmitting` and requests the lookup |
| RsvpForm.OnLookup | src/components/RSVPForm.tsx:77-97 | a found PIN requests the insert of the captured form's row; not found or an error sets `error` to the invalid-invitation message, a throw to its own message, and `isSubmitting` is cleared with no insert |
| RsvpForm.OnInsert | src/components/RSVPForm.tsx:99-109 | success sets `submitted` and empties all four fields; failure sets `error` to the service's message and keeps the form and `submitted`; `isSubmitting` is cleared either way |
| RsvpForm.OnLookupKeepsInv | src/components/RSVPForm.tsx:77-97 | a lookup answer keeps the invariant and inserts only after a found PIN, and only the well-formed row of the form captured when the submission started |
| RsvpForm.StepKeepsInv | src/components/RSVPForm.tsx:22-109 | every event keeps the invariant: `isSubmitting` exactly while waiting, the stored PIN always filtered, and inserts only the captured form's row after a found PIN |
| RsvpForm.RunKeepsInv | src/components/RSVPForm.tsx:22-109 | the invariant holds after any sequence of events from any state satisfying it; in particular the stored PIN stays at most four digits |
| RsvpForm.ReachableKeepsInv | src/components/RSVPForm.tsx:10-37 | the first render's state satisfies the invariant, and so does every state reached from it by any sequence of events; in every such state the stored PIN is at most four digits |
| RsvpForm.ReachablePinRule | src/components/RSVPForm.tsx:26-28 | in a consistent state the form flags the PIN exactly when fewer than four digits were typed |
| RsvpForm.SubmitFlow | src/components/RSVPForm.tsx:65-110 | a busy form, or one with an empty PIN or name, ignores submit; an invalid form only clears `error` and sets the messages; once started, the submission always ends with `isSubmitting` false |
| RsvpForm.RejectedPinInsertsNothing | src/components/RSVPForm.tsx:84-86 | a PIN not found sends only the lookup, sets the invalid-invitation (or thrown) message, and keeps the form and `submitted` |
| RsvpForm.FoundPinIsInserted | src/components/RSVPForm.tsx:88-109 | with the PIN found, the form's row is inserted; success empties the form and sets `submitted`; failure keeps the form and shows the service's message |
| Agreement.ValidatorsFlagSameFields | src/components/RSVPForm.tsx:49-59 | both validators flag the same fields on every form and accept the same forms; only the messages differ |
| Agreement.FilteredPinIsNeverNonNumeric | src/components/RSVPForm.tsx:27 | a filtered PIN never draws the modal's "only numbers" message |
| Admin.WithChoice | src/components/AdminDashboard.tsx:49-50 | each filter keeps only rows with the given `attending` value, all drawn from the list |
| Admin.WithChoiceCountsPositions | src/components/AdminDashboard.tsx:49-50 | a filter's length is the number of list positions whose row has that `attending` value |
| Admin.WithChoicePartitions | src/components/AdminDashboard.tsx:49-50 | the attending and not-attending lists together hold every row exactly once, as multisets |
| Admin.WithChoiceSizes | src/components/AdminDashboard.tsx:49-51 | the two filtered lengths add up to the list length |
| Admin.ComputeStats | src/components/AdminDashboard.tsx:48-53 | `attending` counts the attending rows, `notAttending` the others, `total` is the list length, and `attending + notAttending == total` |
| Admin.LoadRsvps | src/components/AdminDashboard.tsx:34-61 | fetched rows (null read as none) replace the list and counts and clear `error`, so null data gives all-zero counts; a fetch error keeps the list and counts and sets the prefixed message; `loading` ends false |
| Admin.LoadKeepsStatsMatch | src/components/AdminDashboard.tsx:44-53 | after any load the counts shown describe the list shown |
| Admin.InitialStatsMatch | src/components/AdminDashboard.tsx:25-26 | on the first render the zero counts describe the empty list |

## Left out

- Rendering, CSS class builders (`getAttendanceClass`), framer-motion animation and confetti are left out. They are presentation only.
- `handleInputFocus` and `handleInputBlur` are left out. They depend on the window width, timers and scroll geometry.
- The `maxLength={4}` attribute on both PIN inputs is left out. It is a browser limit on typing, not handler logic. The modal's PIN can therefore hold any text in the model, and its validator handles any length.
- The data-service client is not modelled: the module-level `createClient` calls and the lazy singleton in `src/lib/supabase.ts`. Its two operations appear only as requests and answer values.
- The modal's row matching (`Object.values(row).some(...)` over `select('*')`) is reduced to "the lookup found the PIN". The standalone form's `.eq(...).eq('is_active', true).single()` is reduced the same way.
- `submitted_at` timestamps are left out; they come from the clock. So are the admin's `formatDate` and the server-side `order('submitted_at')`. The admin row keeps `submittedAt` as opaque text.
- Handlers run one at a time, in the order events arrive. Each stretch of a handler between two `await`s is one atomic step. React's batching of state updates inside one stretch is folded into that step.
- The admin's intermediate `loading = true` render is left out: `LoadRsvps` models the settled state after the query answers.
- Console logging is left out.
- The trim whitespace set is fixed to Unicode 15 category Zs. A browser with a different Unicode version may differ.
