# hitch — a Dafny model of the lead-capture, consent and tracking core

hitch is a marketing site for a dating-profile review. This project models
the parts of it that make decisions:

- **Lead capture.** Two modals collect a visitor's email. The newer one asks
  about intent, posts a form to `POST /api/leads` and shows a confirmation.
  The route validates the body, normalises it and upserts it into the
  SQLite `leads` table, keyed by its UNIQUE email.
- **Analytics.** `POST /api/analytics` checks an event name against a fixed
  list. `trackEvent` appends to the `analytics_events` table. Client
  components log `track(...)` calls. A scroll tracker logs depth milestones,
  each at most once.
- **Cookie consent.** The provider reads the `cookie-consent` cookie on
  load. It writes that cookie on accept or decline, and it purges analytics
  cookies and storage keys on decline or reset. The app providers read the
  same cookie again to decide whether to start the analytics client, opt
  out, or do nothing.
- **The deliverables tabs.** A selected index is moved by swipes and clamped
  to the five deliverables. The tab orientation follows a media query.

Modules follow the source files. Three shared modules hold pieces the files
have in common:

- `JsStrings`: JavaScript's string built-ins on ASCII text.
- `Http`: a parsed JSON field, and a response as a status plus a body.
- `Tracking`: a `track(event, props)` call as a log entry.

`Opt` is the option type. Where `Opt.Option` stands for a JavaScript value,
`None` is `null` or `undefined`.

Where the source updates state, the model is a class:

| class | what it holds |
|---|---|
| `LeadStore.LeadDatabase` | `leads` as a map, `events` as a sequence |
| `CookieConsent.ConsentProvider` | the consent state, the list of cookie writes, the two storages as maps |
| `OptimizeModalFlow.Modal` | the commitment modal's state |
| `LegacyOptimizeModal.Modal` | the legacy modal's state |
| `ScrollDepth.Tracker` | the fired milestones and the depths logged |
| `DeliverableTabs.Tabs` | the selected index and the orientation |

Each method states its whole new state. Pure logic is functions and lemmas.

The commitment modal's own `handleClose` resets the form 300 ms after
closing (src/components/optimize-modal.tsx:48-59). Its 5-second auto-close on
the confirmation step instead calls the parent's `onClose` directly
(optimize-modal.tsx:42). So no reset is scheduled, and the modal reopens on
the confirmation step. `OptimizeModalFlow.Modal.FireAutoClose` states this.

## Model

| member | source | states |
|---|---|---|
| JsStrings.Trim | src/app/api/leads/route.ts:47-50 | `String.prototype.trim` on ASCII whitespace; `TrimShorter`, `TrimNoSpace` and `TrimAllSpace` state its properties |
| JsStrings.TrimShorter | src/app/api/leads/route.ts:50 | trimming never lengthens a string |
| JsStrings.TrimAllSpace | src/components/optimize-modal.tsx:119 | a string of whitespace trims to the empty string |
| JsStrings.ToLowerSpec | src/app/api/leads/route.ts:47 | `toLowerCase` keeps the length, leaves no ASCII capital, changes nothing but capitals, and is idempotent |
| JsStrings.TrimIsTrimmed | src/app/api/leads/route.ts:47-50 | a non-empty trimmed string neither starts nor ends with whitespace |
| JsStrings.TrimSubsequence | src/contexts/cookie-consent-context.tsx:112 | trimming adds no character: one absent from a string is absent from its trim |
| JsStrings.LengthAtLeastSize | src/components/optimize-modal.tsx:119 | `.length` counts UTF-16 code units: at least one per character, and zero only for the empty string |
| JsStrings.TrimFewerUnits | src/components/optimize-modal.tsx:119 | trimming never adds code units |
| JsStrings.StartsWith | src/contexts/cookie-consent-context.tsx:113 | `s.indexOf(p) === 0` and `startsWith`: `p` is a prefix of `s` |
| JsStrings.Includes | src/contexts/cookie-consent-context.tsx:148 | `includes`: `sub` occurs at some position of `s` |
| JsStrings.IndexOf | src/contexts/cookie-consent-context.tsx:134 | the first position of a character, or the length when it is absent: the character is there and not before |
| JsStrings.Split | src/contexts/cookie-consent-context.tsx:109 | `split(';')`: at least one piece, none containing the separator, and joining them back gives the input |
| JsStrings.IntegerTextRoundTrip | src/lib/db.ts:25 | the decimal text a number is stored as reads back as the number |
| Opt.Coalesce | src/lib/db.ts:58 | `COALESCE(a, b)`: `a` when present, otherwise `b` |
| LeadStore.PayFlag | src/lib/db.ts:64 | the stored flag is 0 or 1, and is 1 exactly for true |
| LeadStore.UpsertedRow | src/lib/db.ts:51-68 | the new price, problem and 0/1 flag are always taken, with the timestamp; a non-null source overwrites; a null source keeps the stored one, or is null on a fresh insert |
| LeadStore.Upsert | src/lib/db.ts:51-60 | exactly one row for the email afterwards, one more row only if the email was new; other rows untouched; the 0/1 constraint kept |
| LeadStore.UpsertIdempotent | src/lib/db.ts:54-59 | repeating the same insert changes only that row's `created_at`, and equals one insert at the later time |
| LeadStore.UpsertKeepsSourceOnNull | src/test/leads.test.ts:112-143 | the duplicate-email test case: one row, the new answers, the original source kept |
| LeadStore.TrackAll | src/lib/db.ts:90-100 | the table after a run of `trackEvent` calls, defined one row per call; its properties are proved by `TrackAllAppends` |
| LeadStore.TrackAllAppends | src/lib/db.ts:90-100 | n `trackEvent` calls add n rows in call order and keep the earlier rows |
| LeadStore.LeadDatabase.constructor | src/lib/db.ts:17-38 | both tables start empty |
| LeadStore.LeadDatabase.InsertLead | src/lib/db.ts:48-74 | the table becomes the upsert of the old one; events untouched; always reports success |
| LeadStore.LeadDatabase.TrackEvent | src/lib/db.ts:84-101 | one row (name, source or null, time) appended; leads untouched; always reports success |
| LeadsRoute.IsValidEmail | src/app/api/leads/route.ts:12-14 | `isValidEmail`, decided by the first '@': a non-empty run of non-space, non-'@' characters, then a domain of such characters with a '.' neither first nor last; `IsValidEmailMatchesPattern` proves it is the regular expression |
| LeadsRoute.IsValidEmailMatchesPattern | src/app/api/leads/route.ts:12-14 | the email check holds exactly when the text matches `^[^\s@]+@[^\s@]+\.[^\s@]+$` |
| LeadsRoute.ValidEmailHasNoSpace | src/app/api/leads/route.ts:12-14 | a valid email has no whitespace, so trimming it is the identity |
| LeadsRoute.AcceptsLocalAtDomain | src/app/api/leads/route.ts:12-14 | `local@domain` is accepted when both parts are free of whitespace and '@', `local` is non-empty and `domain` has an inner '.' |
| LeadsRoute.RejectsWithoutAt | src/app/api/leads/route.ts:12-14 | a string without '@' is rejected |
| LeadsRoute.RejectsEmptyLocal | src/app/api/leads/route.ts:12-14 | a string starting with '@' is rejected |
| LeadsRoute.RejectsDomainWithoutDot | src/app/api/leads/route.ts:12-14 | a domain with no '.' strictly inside it is rejected: a dot first or last in the domain does not count |
| LeadsRoute.RejectsDotAtDomainEdge | src/app/api/leads/route.ts:12-14 | `a@.com` and `a@com.` are rejected |
| LeadsRoute.RejectsWhitespace | src/app/api/leads/route.ts:12-14 | a string with whitespace anywhere is rejected |
| LeadsRoute.AcceptedEmailExamples | src/test/leads.test.ts:181-185 | the three test emails are accepted |
| LeadsRoute.RejectedEmailExamples | src/test/leads.test.ts:187-193 | the five test non-emails are rejected |
| LeadsRoute.Route | src/app/api/leads/route.ts:16-68 | every early answer is a 400 or the 500 internal error; a body that does not parse, or is `null`, gets exactly the 500 internal error; a lead is stored only from an object body whose email is a valid string |
| LeadsRoute.Complete | src/app/api/leads/route.ts:54-61 | 201 `{success:true}` exactly on success, otherwise a 500 |
| LeadsRoute.MissingEmailRejected | src/app/api/leads/route.ts:21-23 | a missing, empty or non-string email gives 400 "Email is required", whatever else the body holds |
| LeadsRoute.MalformedEmailRejected | src/app/api/leads/route.ts:25-30 | a non-empty string email that does not match the pattern gives 400 "Invalid email format" |
| LeadsRoute.GuardOrder | src/app/api/leads/route.ts:21-44 | the first failing guard of the four (email present, shape, boolean, number) alone decides the 400, and a 400 happens only when one fails |
| LeadsRoute.StoredSource | src/app/api/leads/route.ts:51 | the `source` column's value: a string as given, a number as its decimal text (it reads back as the number), null exactly for a missing or null source |
| LeadsRoute.StoredLeadNormalised | src/app/api/leads/route.ts:46-52 | the stored lead has the email lowercased (trimming changes nothing), the problem trimmed, the typed fields unwrapped, a numeric source as its text and a missing or null source as null |
| LeadsRoute.MissingProblemIsServerError | src/app/api/leads/route.ts:50 | a missing or non-string `main_problem` after the guards is a 500, not a 400 |
| LeadsRoute.NoProblemLengthCheck | src/app/api/leads/route.ts:46-52 | the route stores a one-character problem: no length rule on the server |
| LeadsRoute.Post | src/app/api/leads/route.ts:16-69 | the answer is 201, 400 or 500; the table changes only on 201, by the upsert of the normalised lead; "Failed to save lead" never happens; events untouched |
| AnalyticsRoute.Post | src/app/api/analytics/route.ts:18-40 | every response is a 400 or the 500 internal error, never a 201; a body that does not parse, or is `null`, gets exactly the 500 internal error |
| AnalyticsRoute.PostCases | src/app/api/analytics/route.ts:22-32 | missing event gives "Event is required" (checked first); unlisted gives "Invalid event name"; no response exactly for a listed name; `source` is ignored |
| AnalyticsRoute.ValidEventsAreStoreEvents | src/app/api/analytics/route.ts:4-11 | the list holds exactly the names of the store's event type |
| CookieConsent.ExpiresAt | src/contexts/cookie-consent-context.tsx:96-103 | the expiry lies `days` whole days of milliseconds after now |
| CookieConsent.ConsentExpiry | src/contexts/cookie-consent-context.tsx:26 | the consent cookie expires 31 536 000 000 ms (365 days) after now |
| CookieConsent.TrimmedSegments | src/contexts/cookie-consent-context.tsx:109-112 | each ';'-separated piece trimmed, in order; `TrimmedSegmentsAreTrimmed` states its properties |
| CookieConsent.TrimmedSegmentsAreTrimmed | src/contexts/cookie-consent-context.tsx:109-112 | one segment per piece, none containing ';', none starting or ending with whitespace |
| CookieConsent.FirstValue | src/contexts/cookie-consent-context.tsx:111-117 | the loop's early return, defined over the trimmed segments; `FirstValueSpec` states its meaning |
| CookieConsent.CookieValue | src/contexts/cookie-consent-context.tsx:105-118 | `getCookie(name)` on a cookie string: the first value under the prefix `name=`; `GetCookie` and `FirstValueSpec` are its partners |
| CookieConsent.FirstValueSpec | src/contexts/cookie-consent-context.tsx:105-118 | the lookup is null exactly when no trimmed segment starts with `name=`, otherwise the rest of the first one that does |
| CookieConsent.GetCookie | src/contexts/cookie-consent-context.tsx:105-118 | the loop with its early return computes that lookup |
| CookieConsent.StoredConsent | src/contexts/cookie-consent-context.tsx:35 | only the exact words "accepted" and "declined" count as a stored choice |
| CookieConsent.AnalyticsCookiePrefixes | src/contexts/cookie-consent-context.tsx:129-138 | the four-prefix test is the same as testing "ph_", "_ph_" and "posthog" |
| CookieConsent.CookieName | src/contexts/cookie-consent-context.tsx:134-135 | a segment's name: the text before its first '=', trimmed, or the whole segment trimmed |
| CookieConsent.AnalyticsCookieDeletions | src/contexts/cookie-consent-context.tsx:133-141 | one deletion per segment whose name has an analytics prefix, in order; `DeletesExactlyAnalyticsCookies` states its meaning |
| CookieConsent.CookieDeletions | src/contexts/cookie-consent-context.tsx:131-141 | the loop over the raw segments issues exactly the deletions of the analytics-named cookies, in order |
| CookieConsent.DeletesExactlyAnalyticsCookies | src/contexts/cookie-consent-context.tsx:133-141 | a cookie is deleted exactly when its name (text before the first '=', trimmed) has an analytics prefix; others are untouched |
| CookieConsent.IsAnalyticsKey | src/contexts/cookie-consent-context.tsx:148 | a storage key is an analytics key when it contains "posthog" or "ph_" |
| CookieConsent.PurgedStorage | src/contexts/cookie-consent-context.tsx:143-165 | after the purge no key containing "posthog" or "ph_" remains, and every other key keeps its value |
| CookieConsent.PurgeStorage | src/contexts/cookie-consent-context.tsx:144-153 | the collect-then-remove loops compute that purge |
| CookieConsent.ConsentProvider.constructor | src/contexts/cookie-consent-context.tsx:28-30 | consent starts null and the banner hidden |
| CookieConsent.ConsentProvider.Load | src/contexts/cookie-consent-context.tsx:32-41 | a stored "accepted" or "declined" is taken and hides the banner; anything else leaves consent and shows the banner |
| CookieConsent.ConsentProvider.AcceptCookies | src/contexts/cookie-consent-context.tsx:43-52 | consent accepted, banner hidden, `cookie-consent=accepted` written with the 365-day expiry, one reload |
| CookieConsent.ConsentProvider.ClearAnalyticsCookies | src/contexts/cookie-consent-context.tsx:125-166 | the analytics cookie deletions appended; both storages purged |
| CookieConsent.ConsentProvider.DeclineCookies | src/contexts/cookie-consent-context.tsx:54-61 | consent declined, banner hidden, `cookie-consent=declined` written, then the purge; no reload |
| CookieConsent.ConsentProvider.ResetConsent | src/contexts/cookie-consent-context.tsx:63-68 | consent null, banner shown, the consent cookie deleted, then the purge |
| Providers.ConsentIn | src/app/providers.tsx:17-23 | the provider's own loop over the raw segments, trimming each and testing the "cookie-consent=" prefix |
| Providers.GetCookieConsent | src/app/providers.tsx:11-24 | `getCookieConsent()` on a cookie string: split on ';' and search; `GetCookieConsentSpec` states its meaning |
| Providers.ConsentInIsFirstValue | src/app/providers.tsx:14-23 | the provider's search loop is the context's lookup with prefix "cookie-consent=" |
| Providers.GetCookieConsentIsGetCookie | src/app/providers.tsx:11-24 | `getCookieConsent()` equals `getCookie("cookie-consent")` for every cookie string |
| Providers.GetCookieConsentSpec | src/app/providers.tsx:14-23 | null exactly when no trimmed segment starts with "cookie-consent=", otherwise the rest of the first that does |
| Providers.Decide | src/app/providers.tsx:31-44 | initialise exactly for "accepted" with a non-empty key, with that key; opt out exactly for "declined"; otherwise neither |
| Providers.GateAgreesWithProvider | src/app/providers.tsx:27-44 | the gate initialises only where the consent provider loads accepted, and opts out exactly where it loads declined |
| OptimizeModalFlow.IsFormValid | src/components/optimize-modal.tsx:115-119 | valid exactly for an email of the route's shape, the box ticked and a trimmed problem of `.length` 10 or more, counted in UTF-16 code units (the blank-email test is implied) |
| OptimizeModalFlow.ValidEmailNotBlank | src/components/optimize-modal.tsx:116-117 | an email of the valid shape is never blank after trimming |
| OptimizeModalFlow.ShowsLengthHint | src/components/optimize-modal.tsx:283-288 | the hint shows for an untrimmed problem whose `.length` is 1 to 9 code units |
| OptimizeModalFlow.HintMeansInvalid | src/components/optimize-modal.tsx:283-288 | whenever the raw-length hint shows, the form is invalid |
| OptimizeModalFlow.BlankProblemShowsNoHint | src/components/optimize-modal.tsx:283-288 | ten or more blanks show no hint yet keep the form invalid: the hint uses the untrimmed length |
| OptimizeModalFlow.FiveEmojiAreLongEnough | src/components/optimize-modal.tsx:119 | five emoji are five characters but ten code units: no hint, and long enough for a valid form |
| OptimizeModalFlow.Payload | src/components/optimize-modal.tsx:84-94 | the JSON body the form posts: the three answers, price 29 and the query's source or null; `ValidFormIsStored` proves the route stores it |
| OptimizeModalFlow.ValidFormIsStored | src/components/optimize-modal.tsx:84-94 | every body the enabled form posts passes the route's guards and is stored lowercased, willing, at price 29, with the trimmed problem (at least 10 code units) and the query's source |
| OptimizeModalFlow.FocusRunLogsOnce | src/components/optimize-modal.tsx:61-66 | over any run of focuses each field is logged at most once, exactly the fields not focused before |
| OptimizeModalFlow.FocusRunExtend | src/components/optimize-modal.tsx:61-66 | a run of focuses logs what its prefix logged plus what the last single focus logs from the flags set so far, so `FocusField` calls compose into the run |
| OptimizeModalFlow.Modal.constructor | src/components/optimize-modal.tsx:26-36 | intent step, empty form, no error, nothing focused |
| OptimizeModalFlow.Modal.Open | src/components/optimize-modal.tsx:19-25 | the parent's `open` prop becomes true; the modal's own state is untouched |
| OptimizeModalFlow.Modal.Close | src/components/optimize-modal.tsx:48-59 | the parent closes; one reset scheduled; nothing else changes yet |
| OptimizeModalFlow.Modal.FireResetTimer | src/components/optimize-modal.tsx:51-58 | back to intent with empty email and problem, unchecked box, no error and no focus flags; `isSubmitting` untouched |
| OptimizeModalFlow.Modal.SubmitEnabled | src/components/optimize-modal.tsx:297 | the submit button is enabled exactly when the form is valid and no submission is running |
| OptimizeModalFlow.Modal.FocusField | src/components/optimize-modal.tsx:61-66 | the flag is set and the log grows by the one-field run `FocusRun(old flags, [f])`: `field_focus_<field>` on the first focus since the reset, nothing on a repeat |
| OptimizeModalFlow.Modal.BlurEmail | src/components/optimize-modal.tsx:241 | `field_blur_email` logged with the current email |
| OptimizeModalFlow.Modal.EditEmail | src/components/optimize-modal.tsx:239 | sets the email and nothing else |
| OptimizeModalFlow.Modal.SetWillingToPay | src/components/optimize-modal.tsx:252 | sets the box and nothing else |
| OptimizeModalFlow.Modal.EditProblem | src/components/optimize-modal.tsx:277 | sets the problem and nothing else |
| OptimizeModalFlow.Modal.IntentYes | src/components/optimize-modal.tsx:68-71 | `intent_yes` with price 29 logged, step becomes form, no request |
| OptimizeModalFlow.Modal.IntentNo | src/components/optimize-modal.tsx:73-76 | `intent_no` with price 29 logged, then closed with a reset scheduled |
| OptimizeModalFlow.Modal.BeginSubmit | src/components/optimize-modal.tsx:78-94 | through the enabled button only: error cleared, submitting, the current values captured and posted, and the route stores that body |
| OptimizeModalFlow.Modal.FinishSubmit | src/components/optimize-modal.tsx:96-112 | ok: `form_submit` with the captured values and price, confirmation step, auto-close scheduled; otherwise `form_error`, the error message, step and fields unchanged; submitting ends either way |
| OptimizeModalFlow.Modal.FireAutoClose | src/components/optimize-modal.tsx:38-46 | the confirmation's timer closes the modal and schedules no reset |
| LegacyOptimizeModal.GoalName | src/components/OptimizeModal.tsx:22 | the goal is always "relationship" or "casual" |
| LegacyOptimizeModal.ViewOf | src/components/OptimizeModal.tsx:67-112 | the thank-you view shows exactly when submitted, otherwise the form with the current values |
| LegacyOptimizeModal.Modal.constructor | src/components/OptimizeModal.tsx:21-23 | email empty, goal "relationship", not submitted |
| LegacyOptimizeModal.Modal.Open | src/components/OptimizeModal.tsx:14-20 | the parent's `open` prop becomes true; the form state is untouched |
| LegacyOptimizeModal.Modal.EditEmail | src/components/OptimizeModal.tsx:124-125 | sets the email and nothing else |
| LegacyOptimizeModal.Modal.SelectGoal | src/components/OptimizeModal.tsx:142-155 | choosing a radio sets exactly that goal |
| LegacyOptimizeModal.Modal.Submit | src/components/OptimizeModal.tsx:25-28 | submitted, the thank-you view; email and goal unchanged; no validation, no request |
| LegacyOptimizeModal.Modal.Close | src/components/OptimizeModal.tsx:30-31 | the parent closes; one reset scheduled |
| LegacyOptimizeModal.Modal.FireResetTimer | src/components/OptimizeModal.tsx:33-37 | email empty, goal "relationship", not submitted: the form view again |
| ScrollDepth.ScrollPercentage | src/components/scroll-depth-tracker.tsx:14-23 | 100 when the page cannot scroll; never above 100; 100 exactly at or past the end; not negative for a non-negative position |
| ScrollDepth.NewlyReached | src/components/scroll-depth-tracker.tsx:28-35 | the loop's logged milestones, defined over the list in order; `NewlyReachedSpec` states its meaning |
| ScrollDepth.NewlyReachedSpec | src/components/scroll-depth-tracker.tsx:28-35 | a check logs exactly the milestones reached and not fired before, in increasing order for an increasing list |
| ScrollDepth.MilestonesIncreasing | src/components/scroll-depth-tracker.tsx:6 | the milestone list is strictly increasing |
| ScrollDepth.RepeatCheckFiresNothing | src/components/scroll-depth-tracker.tsx:28-35 | a second check at the same percentage logs nothing |
| ScrollDepth.BottomFiresAll | src/components/scroll-depth-tracker.tsx:20-35 | a check at 100 logs every milestone not already fired, and on a fresh mount all ten in order |
| ScrollDepth.CheckKeepsConsistent | src/components/scroll-depth-tracker.tsx:9-35 | after a check the logged depths are still exactly the fired milestones, none logged twice |
| ScrollDepth.Tracker.constructor | src/components/scroll-depth-tracker.tsx:9 | nothing fired or logged at mount |
| ScrollDepth.Tracker.Check | src/components/scroll-depth-tracker.tsx:25-37 | every reached milestone is fired; the ones new to the set are logged in list order; the fired set only grows; each milestone logged at most once per mount |
| DeliverableTabs.SwipedLeft | src/app/page.tsx:229-233 | one step forward below the last index, otherwise the last index (4) |
| DeliverableTabs.SwipedRight | src/app/page.tsx:234-236 | one step back above 0, otherwise 0 |
| DeliverableTabs.SwipesStayInRange | src/app/page.tsx:229-236 | from [0, 4] both swipes stay in [0, 4]; left at 4 and right at 0 are exactly the no-ops; each undoes the other inside the range |
| DeliverableTabs.SwipeLeftNClamps | src/app/page.tsx:229-233 | n left swipes from i land on min(i + n, 4) |
| DeliverableTabs.OrientationFor | src/app/page.tsx:244-246 | vertical exactly when the media query matches |
| DeliverableTabs.Tabs.constructor | src/app/page.tsx:223-226 | index 0, horizontal |
| DeliverableTabs.Tabs.OnSwipedLeft | src/app/page.tsx:229-233 | the index moves by the left updater and stays in range; orientation unchanged |
| DeliverableTabs.Tabs.OnSwipedRight | src/app/page.tsx:234-236 | the index moves by the right updater and stays in range; orientation unchanged |
| DeliverableTabs.Tabs.OnMediaQueryChange | src/app/page.tsx:241-249 | the orientation follows the query; index unchanged |

## Left out

- Server-side rendering guards (`typeof window === 'undefined'` and the like) are not modelled. Every browser-only function is modelled as running in the browser.
- `window.location.reload` is counted (`reloads`), not performed.
- The posthog SDK (`init`, `opt_out_capturing`, `capture`) is outside the model. The gate returns its decision as a value.
- `request.json()`, `fetch` and `NextResponse` are inputs and outputs. The modal's request and its outcome are a value returned by `BeginSubmit` and a parameter of `FinishSubmit`.
- Timers and animation frames are events the caller fires. The model does not capture the 300 ms and 5000 ms delays, `requestAnimationFrame` throttling or the `ticking` flag. The auto-close effect depends on `onClose`; a parent that passes a fresh inline `onClose` would restart the timer on each render. The model treats that timer as scheduled once.
- `Date`, `toUTCString`, the cookie attribute string and the browser's cookie jar are not modelled. A cookie write is recorded as (name, value, expiry in ms) or as a deletion. `document.cookie` is an input string.
- Floating point: the scroll percentage uses exact reals. JSON numbers are integers. A non-integer `price_shown` is outside the model.
- Unicode: whitespace is ASCII whitespace and lowercasing is ASCII lowercasing. JavaScript's `\s` and `toLowerCase` cover more. String `.length` (in `IsFormValid` and `ShowsLengthHint`) is counted in UTF-16 code units, as JavaScript counts it.
- LeadStore.Row: the `id` column and `lastInsertRowid` are not modelled. What AUTOINCREMENT does on the update path is engine behaviour.
- The lazy `getDb` singleton, the WAL pragma and the file path are not modelled. The database object starts with the empty schema.
- LeadsRoute.StoredSource: a numeric `source` is stored as the integer's decimal text, since the column has TEXT affinity. The exact text the engine writes for a number bound as a floating-point value (for example `29.0` rather than `29`) is engine behaviour and is not modelled.
- LeadsRoute.Route: a boolean `source` also goes to the 500 path. There the model follows the binding, which refuses booleans.
- `src/lib/analytics.ts`, the client `track` helper, is a log append in the model. What it does with the properties is not modelled.
- Native HTML form validation (`required`, `type="email"`) is not modelled. The legacy modal's submit is modelled as always accepted.
- OptimizeModalFlow.Modal.BeginSubmit: the submit handler is reachable only through the enabled submit button, which its precondition requires. Submitting by pressing Enter is also blocked while the button is disabled.
- OptimizeModalFlow.Modal.IntentYes and IntentNo require the intent step, the only step that renders their buttons.
- The `utm_source` query parameter is an input to `BeginSubmit`.
- DeliverableTabs: the tab group's own `onChange`, when a tab is clicked, is not modelled. Only the swipe updaters and the media-query handler are.
- The cookie banner's rendering, `PageViewTracker`, `src/lib/analytics/posthog.ts` and the static page sections are presentation or thin wrappers. They are not modelled.
