# Barokah Tour & Travel: rate limiting and UI rules in Dafny

This project models the rate-limiting path of the Barokah Tour & Travel web application and the small decision rules in its pages. Each rule is a pure Dafny function over immutable datatypes.

The rate-limiting path has three parts:

- **`check-rate-limit` edge function** (`EdgeHandler`, `rate_limit_edge.dfy`). It turns a request into a response:
  - it derives the client identifier from the proxy headers;
  - it applies the default limits of 5 attempts and a 15-minute window;
  - it rejects a missing `action_type`;
  - it asks the store for a verdict and maps the verdict to 200, 429 or 500.

  A store error fails open. The store procedure `check_rate_limit` is an abstract parameter (`StoreQuery -> StoreAnswer`). The result records the query the handler put to the store next to the response it sent, so "the store was not consulted" can be stated.
- **`useRateLimit` client hook** (`RateLimitHook`, `rate_limit_hook.dfy`).
  - It normalises whatever the function invocation returns. The invocation is a parameter, because its outcome is up to the client library.
  - It formats the wait until a reset instant as "now", "1 minute" or "n minutes".
- **Rate-limit console** (`RateLimitConsole`, `rate_limit_console.dfy`). It covers:
  - the blocked flag, with its fixed 5-attempt / 15-minute thresholds;
  - the time left in a window;
  - reset, delete and clear-all as table transforms;
  - search and the statistics cards.

The surrounding UI rules have one module per page or component:

- `PackagesSection`: the catalogue filter by month and half-open price band.
- `Testimonials`: the carousel index machine.
- `AdminDashboard`: registration search, filtering, counters, export rows and status updates.
- `PackageManagement`: the package form's defaults, highlights parsing, normalisation, save guard, discount percentage and toggling.
- `RegistrationForm`: the registration validators, the confirmation message and the submit guard.
- `AuthPage`: the login and sign-up schemas, the error messages and the mode toggle.
- `DashboardPage`: the customer dashboard's fallbacks, booking id, redirect, and its loading state driven by authentication and fetch events.
- `SystemLogs`: the log filter, counters and badges.
- `DatabaseStats`: the table counts, total, maximum and progress values.
- `PackageDetail`: the displayed price, stars, badges and view.
- `AdminRoute`: the admin guard.
- `ProgrammerCheck`: the programmer-role check.

Three modules model the JavaScript behaviour the source relies on:

- `Wrappers`: `Option`, for nullable and absent values.
- `Seqs`: an order-preserving `Array.prototype.filter` and counting, with a subsequence predicate.
- `Text`:
  - `toLowerCase` and `toUpperCase` on ASCII letters;
  - `includes`;
  - `trim`, using the ECMAScript white-space and line-terminator code points;
  - `split` and `join` on one character, with a split/join round trip;
  - decimal rendering of naturals.

Time is integer milliseconds. A `Date` built from an ISO string is the instant it denotes. JavaScript truthiness is written out wherever the source relies on `||` or `!`.

## Model

| member | source | states |
|---|---|---|
| EdgeHandler.ClientIp | supabase/functions/check-rate-limit/index.ts:28-30 | The identifier is never empty. A non-empty trimmed first forwarded address wins. Otherwise it is the real IP or "unknown". |
| EdgeHandler.FirstForwarded | supabase/functions/check-rate-limit/index.ts:30 | The first comma-separated element of `x-forwarded-for` contains no comma and has no white space at either end. |
| EdgeHandler.ClientIpOfChain | supabase/functions/check-rate-limit/index.ts:28-30 | For a header `ip, rest...`, the identifier is `ip` whatever `x-real-ip` holds. |
| EdgeHandler.ClientIpFallback | supabase/functions/check-rate-limit/index.ts:30 | Without a usable forwarded address, the identifier is a non-empty `x-real-ip`, else "unknown". |
| EdgeHandler.QueryFor | supabase/functions/check-rate-limit/index.ts:34-55 | The store receives exactly the identifier, the action type and the requested limits. Omitted limits become 5 and 15. |
| EdgeHandler.Respond | supabase/functions/check-rate-limit/index.ts:57-84 | A store error gives 200 allowed with `remaining` = the maximum and reset now. A refusal gives 429 with the fixed text, 0 remaining and the verdict's reset. An allowed verdict gives 200 with the verdict unchanged. |
| EdgeHandler.Handle | supabase/functions/check-rate-limit/index.ts:20-93 | Every response carries the CORS headers. The status is one of 200/400/429/500. OPTIONS (and only OPTIONS) gets no body, with no store query. A 400 never consults the store. A 429 is returned iff the store refused the query. |
| EdgeHandler.MissingActionRejected | supabase/functions/check-rate-limit/index.ts:36-41 | A missing or empty `action_type` yields exactly 400 with "action_type is required" and no store query, and only such a request does. |
| EdgeHandler.ActionForwarded | supabase/functions/check-rate-limit/index.ts:34-55 | Any non-empty action type reaches the store, unchecked against the three enum values, with the defaulted limits. |
| EdgeHandler.StoreErrorFailsOpen | supabase/functions/check-rate-limit/index.ts:57-64 | A store error yields 200 with `allowed`, the requested or default maximum as `remaining`, and `reset_at` = now. |
| EdgeHandler.VerdictMapped | supabase/functions/check-rate-limit/index.ts:70-84 | An allowed verdict is passed on unchanged with 200. A refused one becomes 429 with the fixed error, 0 remaining and the verdict's reset. |
| EdgeHandler.InternalErrorCases | supabase/functions/check-rate-limit/index.ts:34-92 | The status is 500 iff the body is unreadable or null, or the store returned no data. A 500 carries only "Internal server error". |
| RateLimitHook.BodyFor | src/hooks/useRateLimit.ts:25-29 | The invocation body carries the action type and the given limits. Omitted limits become 5 and 15. |
| RateLimitHook.CheckRateLimit | src/hooks/useRateLimit.ts:20-56 | An error or throw fails open with `{allowed: true, remaining: 5, reset_at: now}`. A body with truthy `error` and a `reset_at` becomes allowed=false, remaining=0 with both preserved. Any other body is returned unchanged. `isChecking` goes true, then false, on every path. |
| RateLimitHook.FailOpenIgnoresLimit | src/hooks/useRateLimit.ts:32-53 | On failure, `remaining` is 5 even when the caller asked for another maximum. |
| RateLimitHook.ErrorWithoutResetPassesThrough | src/hooks/useRateLimit.ts:39-48 | A body without `reset_at`, even one with `error`, is handed back unchanged. |
| RateLimitHook.RefusalOnlyFromEdge | src/hooks/useRateLimit.ts:32-48 | The hook reports `allowed = false` only when the edge function's body said so or carried a refusal. |
| RateLimitHook.WaitMinutes | src/hooks/useRateLimit.ts:61-65 | The minute count is 0 once the reset has passed. Otherwise it is the ceiling n ≥ 1 with (n-1)·60000 < diff ≤ n·60000. |
| RateLimitHook.WaitMinutesMonotone | src/hooks/useRateLimit.ts:65 | A later reset instant never yields fewer minutes. |
| RateLimitHook.FormatTimeRemaining | src/hooks/useRateLimit.ts:58-68 | The text is "now" iff reset ≤ now, and "1 minute" iff 0 < diff ≤ 60000. Otherwise it is the decimal n ≥ 2 followed by " minutes". It is never "0 minutes". |
| RateLimitConsole.ConsoleUsesDefaults | src/components/admin/RateLimitManagement.tsx:137-141 | The console flag is blocked-under-limits at exactly 5 attempts and 15 minutes. It is blocked iff count ≥ 5 and now < window start + 15 min, so a record at the window end is not blocked. |
| RateLimitConsole.ConsoleFlagSound | src/components/admin/RateLimitManagement.tsx:137-141 | Under limits of at most 5 attempts and at least 15 minutes, a flagged record is also blocked under those limits. |
| RateLimitConsole.ConsoleFlagDisagrees | src/components/admin/RateLimitManagement.tsx:137-141 | For any limits other than (5, 15), some record and instant make the console flag differ from the verdict under those limits. |
| RateLimitConsole.Reset | src/components/admin/RateLimitManagement.tsx:103-107 | The table keeps its size. The matching record gets count 0 and window start now, with every other field kept. All other records are unchanged. |
| RateLimitConsole.ResetUnblocksAtAllLaterTimes | src/components/admin/RateLimitManagement.tsx:103-141 | A reset record is not blocked at any instant. |
| RateLimitConsole.Delete | src/components/admin/RateLimitManagement.tsx:61-65 | The result keeps exactly the records with another id, as an order-preserving subsequence. |
| RateLimitConsole.DeleteSize | src/components/admin/RateLimitManagement.tsx:61-65 | Deleting a present id shrinks the table. Deleting an absent id leaves it identical. |
| RateLimitConsole.ClearAll | src/components/admin/RateLimitManagement.tsx:82-86 | Clear-all keeps exactly the records whose id is the nil UUID, in order. |
| RateLimitConsole.ClearAllEmpties | src/components/admin/RateLimitManagement.tsx:82-86 | Without a nil-UUID record, clear-all empties the table. |
| RateLimitConsole.TimeLeft | src/components/admin/RateLimitManagement.tsx:143-154 | There is no time left iff now ≥ window start + 15 min. Otherwise M = floor(rem/60000) and S = floor((rem mod 60000)/1000) < 60. M ≤ 14 when the window started before now, and (15, 0) when it starts exactly now. |
| RateLimitConsole.GetTimeRemaining | src/components/admin/RateLimitManagement.tsx:143-154 | The text is "Expired" iff the window has ended. Otherwise it is "Mm Ss" built from `TimeLeft`. |
| RateLimitConsole.Search | src/components/admin/RateLimitManagement.tsx:156-159 | A record is kept iff the lower-cased term occurs in its lower-cased identifier or action type. Order is preserved. |
| RateLimitConsole.SearchEmptyKeepsAll | src/components/admin/RateLimitManagement.tsx:156-159 | An empty term keeps the whole table in order. |
| RateLimitConsole.ComputeStats | src/components/admin/RateLimitManagement.tsx:161-166 | total = table size. blocked is 0 iff no record is blocked at now, and equals total iff every record is. The login card is 0 iff no record has action type "login", and equals total iff all have it. The same holds for "registration". login + registration ≤ total. |
| RateLimitConsole.StatsOfEmpty | src/components/admin/RateLimitManagement.tsx:161-166 | An empty table shows four zeros. |
| RateLimitConsole.StatsAddRecord | src/components/admin/RateLimitManagement.tsx:161-166 | One more record raises total by one. It raises each other card by one exactly when the record is blocked at now, is a login, or is a registration. With the empty table this fixes every card as an exact count. |
| RateLimitConsole.ActionTypeColor | src/components/admin/RateLimitManagement.tsx:124-135 | The grey class is used iff the action type is not login, registration or password_reset. |
| PackagesSection.FilteredPackages | src/components/PackagesSection.tsx:131-135 | A package is listed iff (month is "Semua" or equal) and min ≤ price < max. The list is a subsequence of the catalogue. |
| PackagesSection.InitialSelectionShowsAll | src/components/PackagesSection.tsx:109-135 | The initial selection lists exactly the packages with a non-negative price, the whole catalogue when all prices are non-negative. |
| PackagesSection.BandsPartition | src/components/PackagesSection.tsx:112-133 | Every non-negative price lies in exactly one of the three bounded bands. 30M and 50M belong to the upper band. |
| PackagesSection.EmptyMessageIff | src/components/PackagesSection.tsx:296-300 | The empty-result message shows iff no package satisfies the filter. |
| Testimonials.JsRem | src/components/TestimonialsSection.tsx:58-62 | JavaScript `%`: for a non-negative dividend it is the mathematical remainder. For a negative one it lies in (-n, 0]. |
| Testimonials.NextIndex | src/components/TestimonialsSection.tsx:57-59 | From a valid index, next advances by one and wraps n-1 to 0. |
| Testimonials.PrevIndex | src/components/TestimonialsSection.tsx:61-63 | From a valid index, previous steps back by one and wraps 0 to n-1. |
| Testimonials.Dots | src/components/TestimonialsSection.tsx:134-137 | One dot per index 0..n-1, so a dot click selects a valid index. |
| Testimonials.RunStaysInRange | src/components/TestimonialsSection.tsx:57-137 | From a valid index, any sequence of next, previous and dot clicks keeps the index in [0, n). |
| Testimonials.CarouselIndexValid | src/components/TestimonialsSection.tsx:15-55 | Starting from 0 with the four testimonials, the index stays valid. |
| Testimonials.NextPrevInverse | src/components/TestimonialsSection.tsx:57-63 | Previous after next, and next after previous, return the original index. |
| Testimonials.NextTimesAdd | src/components/TestimonialsSection.tsx:58 | a + b presses of next equal a presses followed by b presses. |
| Testimonials.NextTimesBelow | src/components/TestimonialsSection.tsx:58 | Before wrapping, k presses advance the index by k. |
| Testimonials.NextCycle | src/components/TestimonialsSection.tsx:58 | n presses of next return to the starting index. |
| AdminDashboard.FindStatus | src/pages/AdminDashboard.tsx:31-36 | A found option is one of the four options and has the searched code. No option matches when none is found. |
| AdminDashboard.StatusLabelFallback | src/pages/AdminDashboard.tsx:119-122 | The label is the raw status iff the code is unknown. A known code gets one of the four labels. |
| AdminDashboard.StatusColor | src/pages/AdminDashboard.tsx:91-98 | The grey badge is used iff the status is unknown. |
| AdminDashboard.FilteredRegistrations | src/pages/AdminDashboard.tsx:100-110 | A registration is kept iff the name or email contains the term case-insensitively, or the phone or NIK contains it verbatim, and the filter is "all" or the status. Order is preserved. |
| AdminDashboard.UnfilteredKeepsAll | src/pages/AdminDashboard.tsx:100-110 | An empty search with "all" keeps every registration in order. |
| AdminDashboard.ComputeStats | src/pages/AdminDashboard.tsx:112-117 | total = number of registrations, and pending + confirmed + paid ≤ total. Each status card is 0 iff no registration has that status. pending = total iff every registration is pending. |
| AdminDashboard.StatsOfEmpty | src/pages/AdminDashboard.tsx:112-117 | An empty list shows four zeros. |
| AdminDashboard.StatsAddRegistration | src/pages/AdminDashboard.tsx:112-117 | One more registration raises total by one, and raises the card of its status by one. A cancelled or unknown status raises only the total. With the empty list this fixes every card as an exact count. |
| AdminDashboard.Capitalize | src/pages/AdminDashboard.tsx:132 | The first character is upper-cased and the rest is unchanged. |
| AdminDashboard.FormatExportData | src/pages/AdminDashboard.tsx:124-140 | One row per registration in order, numbered 1..n. Each row has the registration's name, email, phone, NIK, package and date, its room type capitalised, and its status label. |
| AdminDashboard.UpdateStatus | src/pages/AdminDashboard.tsx:70-74 | Only the `status` field of the matching id changes. |
| PackageManagement.OpenAddDialog | src/components/admin/PackageManagement.tsx:35-101 | A fresh form has type "umroh", quota and available quota 45, both star ratings 5, is active, and has empty highlights text. |
| PackageManagement.TextOrEmpty | src/components/admin/PackageManagement.tsx:114-119 | A null text column becomes "". |
| PackageManagement.StarsOrDefault | src/components/admin/PackageManagement.tsx:115-117 | A null or 0 rating becomes 5. Others are kept. |
| PackageManagement.OpenEditDialog | src/components/admin/PackageManagement.tsx:103-124 | The edit form copies every column of the row: title, type, price, discount, duration, departure date, quotas and the active flag. Null texts become "", and null or 0 stars become 5. Null highlights become [] with empty text. Otherwise the form has the stored highlights and the text is their newline join. |
| PackageManagement.EditDialogTextParsesBack | src/components/admin/PackageManagement.tsx:122-137 | For stored highlights that are non-blank single lines, the text put in the area parses back to exactly the form's highlights. |
| PackageManagement.ParseHighlights | src/components/admin/PackageManagement.tsx:137 | The result is the non-blank lines of the text, untrimmed and in order. It contains no newline. Each non-blank line occurs as often as in the text, and a blank line not at all. |
| PackageManagement.HighlightsRoundTrip | src/components/admin/PackageManagement.tsx:122-137 | Parsing the newline-joined highlights gives the original list when none is blank or contains a newline. |
| PackageManagement.BlankLinesDropped | src/components/admin/PackageManagement.tsx:137 | A leading blank line adds no highlight. |
| PackageManagement.NullIfEmpty | src/components/admin/PackageManagement.tsx:143-145 | The empty string becomes null. Other strings are kept. |
| PackageManagement.NullIfZero | src/components/admin/PackageManagement.tsx:140 | A discount of 0 or null becomes null. |
| PackageManagement.Normalise | src/components/admin/PackageManagement.tsx:137-146 | The written record has the parsed highlights and nulled empty hotels/image and zero discount. Every other field is copied unchanged. |
| PackageManagement.HandleSave | src/components/admin/PackageManagement.tsx:126-189 | Save is rejected iff the title, price, duration or departure date is falsy. Otherwise it updates the edited id or inserts, writing the normalised record. |
| PackageManagement.EditSaveKeepsHighlights | src/components/admin/PackageManagement.tsx:103-137 | Saving an edit without changes updates the same id and writes its highlights back unchanged. |
| PackageManagement.FreshFormRejected | src/components/admin/PackageManagement.tsx:35-134 | The fresh form cannot be saved. |
| PackageManagement.FloorDiv | src/components/admin/PackageManagement.tsx:238 | Floor division for a divisor of either sign. |
| PackageManagement.RoundDiv | src/components/admin/PackageManagement.tsx:238 | `Math.round(a/b)`: the nearest integer to a/b, halves rounded up. |
| PackageManagement.CalculateDiscount | src/components/admin/PackageManagement.tsx:235-239 | There is no discount iff the discount is null or 0. The result is non-finite iff the price is 0 with a discount. Otherwise it is round-half-up of 100·(p-d)/p. |
| PackageManagement.DiscountInRange | src/components/admin/PackageManagement.tsx:235-239 | A discount in (0, price] gives a percentage in 0..100. |
| PackageManagement.ToggleActive | src/components/admin/PackageManagement.tsx:214-218 | It writes `is_active = !current` on the matching id and nothing else. |
| PackageManagement.ToggleTwice | src/components/admin/PackageManagement.tsx:214-218 | Toggling twice with the displayed state restores the row. |
| PackageManagement.HandleDelete | src/components/admin/PackageManagement.tsx:191-198 | Without confirmation nothing changes. With it, exactly the rows with another id remain, in order. |
| RegistrationForm.Errors | src/components/RegistrationForm.tsx:32-74 | A field is reported iff it fails its rule: the name regex and 3..100, phone 10..15, NIK 16 digits, passport absent/empty or 6..20, the length bounds, the gender and room enums, notes ≤ 500. |
| RegistrationForm.NoErrorsIffValid | src/components/RegistrationForm.tsx:32-74 | The form submits iff every field passes. |
| RegistrationForm.ClassPlusIff | src/components/RegistrationForm.tsx:36-46 | The anchored pattern `^[class]+$` matches a string iff it is non-empty and every character is in the class. |
| RegistrationForm.FullNameRule | src/components/RegistrationForm.tsx:33-36 | A full name passes iff it has 3 to 100 characters, each an ASCII letter, white space, `.`, `'` or `-`. |
| RegistrationForm.PhoneRule | src/components/RegistrationForm.tsx:40-43 | A phone number passes iff it has 10 to 15 characters, each a digit, `+`, `-` or white space. |
| RegistrationForm.NikRule | src/components/RegistrationForm.tsx:44-46 | A NIK passes iff it is exactly 16 characters, all decimal digits. |
| RegistrationForm.RoomTypeLabel | src/components/RegistrationForm.tsx:107-111 | A label exists iff the room type is quad, triple or double. |
| RegistrationForm.GenderLabel | src/components/RegistrationForm.tsx:113 | "male" reads "Laki-laki". Anything else reads "Perempuan". |
| RegistrationForm.PassportText | src/components/RegistrationForm.tsx:127 | The passport line is non-empty iff a passport number is present. |
| RegistrationForm.NotesText | src/components/RegistrationForm.tsx:134 | The notes line is non-empty iff notes are present. |
| RegistrationForm.MessageLines | src/components/RegistrationForm.tsx:115-136 | The message has 22 lines. The passport line is non-empty iff a passport number is present, the notes line likewise, and the gender line uses the label. |
| RegistrationForm.PassportOnlyInItsLine | src/components/RegistrationForm.tsx:127 | The passport number changes its own line and no other. |
| RegistrationForm.NotesOnlyInTheirLine | src/components/RegistrationForm.tsx:134 | The notes change their own line and no other. |
| RegistrationForm.NullIfBlank | src/components/RegistrationForm.tsx:167-171 | An absent or empty optional text is stored as null. |
| RegistrationForm.RowFor | src/components/RegistrationForm.tsx:155-172 | The inserted row has the user, package id and package title. Every form field is copied as entered, except that a passport number or notes that are absent or empty become null. |
| RegistrationForm.RowForKeepsData | src/components/RegistrationForm.tsx:155-172 | The row gives back exactly the submitted data iff no optional field was present but empty. |
| RegistrationForm.OnSubmit | src/components/RegistrationForm.tsx:143-190 | Without a user, submit stops before any insert. Otherwise the inserted row is the row for that user, package and data, with empty passport and notes nulled. The message is sent iff the insert succeeded, and it is the message built from the data. |
| AuthPage.LoginErrors | src/pages/Auth.tsx:20-23 | Password is reported iff it is shorter than 6, and email iff it is malformed. |
| AuthPage.SignupErrors | src/pages/Auth.tsx:25-33 | Name < 3, malformed email and password < 6 are reported on their fields. A password mismatch is reported on the confirmation field. |
| AuthPage.SignupAcceptedIff | src/pages/Auth.tsx:25-33 | Sign-up is accepted iff all four rules hold. |
| AuthPage.LoginErrorMessage | src/pages/Auth.tsx:78-85 | "Invalid login credentials" is checked first, then "Email not confirmed". Anything else gets the generic text. |
| AuthPage.SignupErrorMessage | src/pages/Auth.tsx:97-102 | A message containing "User already registered" gets the already-registered text. Otherwise it gets the generic text. |
| AuthPage.HandleLogin | src/pages/Auth.tsx:73-90 | Loading ends. An error gives a toast with the mapped message. Success welcomes the user and goes home. |
| AuthPage.HandleSignup | src/pages/Auth.tsx:92-108 | Loading ends. Success shows the reminder with the submitted email and clears the form. An error gives the mapped toast and keeps the rest. |
| AuthPage.ToggleMode | src/pages/Auth.tsx:420-428 | The toggle flips the mode and clears the reminder, the stored email, loading and both show flags. |
| AuthPage.ToggleTwice | src/pages/Auth.tsx:420-428 | Toggling twice restores the mode with everything else at its initial value. |
| DashboardPage.StatusBadge | src/pages/Dashboard.tsx:57-65 | The pending badge is used iff the status is pending or unknown. The destructive badge is used iff it is cancelled. |
| DashboardPage.RoomTypeLabel | src/pages/Dashboard.tsx:68-75 | The type is returned unchanged iff it is not quad, triple or double. |
| DashboardPage.BookingId | src/pages/Dashboard.tsx:168 | The first min(8, \|id\|) characters, upper-cased. |
| DashboardPage.BookingIdPrefix | src/pages/Dashboard.tsx:168 | Ids sharing their first eight characters display the same booking id. |
| DashboardPage.RedirectsToAuth | src/pages/Dashboard.tsx:28-32 | The page redirects iff authentication has settled and there is no user. |
| DashboardPage.Step | src/pages/Dashboard.tsx:22-52 | `loading` is never set again once cleared. A fetch starts whenever a user is set. Settling authentication sets the user and leaves `loading` alone. The end of a started fetch clears `loading` on success or error, even after sign-out. The end of an unstarted one changes nothing. |
| DashboardPage.Run | src/pages/Dashboard.tsx:22-52 | After any events, `loading` is false only if it started false or some fetch finished. |
| DashboardPage.PageView | src/pages/Dashboard.tsx:77-83 | The bookings show iff authentication has settled and `loading` is false. Otherwise the spinner shows. |
| DashboardPage.NoSignInKeepsLoading | src/pages/Dashboard.tsx:34-52 | Without a user ever being set, no fetch starts, `loading` stays true and the spinner shows. |
| DashboardPage.NeverSignedInSpins | src/pages/Dashboard.tsx:22-83 | A page where nobody signs in spins for ever. It redirects iff authentication has settled. |
| DashboardPage.SettledOnlyByAuth | src/pages/Dashboard.tsx:22-32 | Without sign-in, authentication is settled after the events iff it was before or some event settled it, and the user stays absent. |
| DashboardPage.BookingsNeedFetch | src/pages/Dashboard.tsx:22-83 | From the first render, the bookings show only after some fetch has finished. |
| DashboardPage.SignOutAfterFetchShowsStaleBookings | src/pages/Dashboard.tsx:22-83 | Signing out after `loading` was cleared leaves the stale bookings on screen while the redirect to /auth fires. |
| DashboardPage.SignOutAfterFetchReachable | src/pages/Dashboard.tsx:22-83 | Sign in, let the fetch finish, sign out: the page shows bookings and redirects. |
| DashboardPage.FetchLandingAfterSignOut | src/pages/Dashboard.tsx:22-83 | Sign in, sign out, then the fetch finishes: the page also shows bookings and redirects. |
| SystemLogs.FilteredLogs | src/components/programmer/SystemLogs.tsx:119-125 | A log is kept iff the lower-cased term occurs in the lower-cased message or source, and the filter is "all" or the level. Order is preserved. |
| SystemLogs.UnfilteredKeepsAll | src/components/programmer/SystemLogs.tsx:119-125 | An empty term with "all" keeps every log in order. |
| SystemLogs.ComputeStats | src/components/programmer/SystemLogs.tsx:127-131 | errors + warnings ≤ total. Each count is 0 iff no log has that level, and equals the total iff every log has it. |
| SystemLogs.StatsOfEmpty | src/components/programmer/SystemLogs.tsx:127-131 | No logs give three zeros. |
| SystemLogs.StatsAddLog | src/components/programmer/SystemLogs.tsx:127-131 | One more log raises the total by one. It raises the error or warning count by one exactly when the log has that level. With the empty list this fixes both counts exactly. |
| SystemLogs.LevelBadge | src/components/programmer/SystemLogs.tsx:105-117 | The text is the upper-cased level. The grey class is used iff the level is not error, warn or info. |
| SystemLogs.LevelIcon | src/components/programmer/SystemLogs.tsx:92-103 | Error, warn and info each have their own icon. Every other level gets the neutral one. |
| DatabaseStats.CountOrZero | src/components/programmer/DatabaseStats.tsx:40-44 | A null count becomes 0. |
| DatabaseStats.Refresh | src/components/programmer/DatabaseStats.tsx:28-54 | Each of the five counts is its answer or 0. A throw keeps the previous counts. |
| DatabaseStats.MaxOf | src/components/programmer/DatabaseStats.tsx:69 | `Math.max` is at least the seed and every element, and equals one of them. |
| DatabaseStats.TotalRows | src/components/programmer/DatabaseStats.tsx:68 | The sum of the five counts. |
| DatabaseStats.MaxRows | src/components/programmer/DatabaseStats.tsx:69 | It is at least 1 and at least every count, and it is 1 or one of the counts. |
| DatabaseStats.ProgressBounds | src/components/programmer/DatabaseStats.tsx:142-145 | `(count / max) * 100` lies in [0, 100] for a count up to a positive maximum, and is exactly 100 for the maximum itself. |
| DatabaseStats.MaxAttained | src/components/programmer/DatabaseStats.tsx:69 | Once any table has rows, some table's count equals `maxRows`. |
| DatabaseStats.ProgressInRange | src/components/programmer/DatabaseStats.tsx:69-145 | Every progress value lies in [0, 100]. |
| DatabaseStats.LargestGetsFull | src/components/programmer/DatabaseStats.tsx:69-143 | With some rows present, the table with the largest count shows exactly 100. |
| PackageDetail.HotelStars | src/pages/PackageDetail.tsx:93-146 | The Makkah star rating, or 5 when it is null or 0. |
| PackageDetail.DisplayPrice | src/pages/PackageDetail.tsx:94-292 | The discount price when it is non-null and non-zero, else the price. |
| PackageDetail.StrikeThrough | src/pages/PackageDetail.tsx:295-299 | The original price is struck through iff the discount is truthy. |
| PackageDetail.DiscountBadge | src/pages/PackageDetail.tsx:125-129 | The "DISKON" badge shows under the same condition as the strike-through. |
| PackageDetail.StruckMeansDiscountShown | src/pages/PackageDetail.tsx:94-299 | With a strike-through, the price shown is the discount, which may equal the original price. A zero discount shows the price with no strike-through. |
| PackageDetail.TypeBadge | src/pages/PackageDetail.tsx:121-123 | "HAJI" iff the type is exactly "haji". Every other type reads "UMRAH". |
| PackageDetail.UmrohPlusReadsUmrah | src/pages/PackageDetail.tsx:123 | Example: "umroh-plus" and "umroh" both read "UMRAH". |
| PackageDetail.PageView | src/pages/PackageDetail.tsx:47-91 | The spinner shows until the fetch answers. The detail shows iff the fetch succeeded with a row. Otherwise the not-found screen shows. |
| AdminRoute.Redirect | src/components/AdminRoute.tsx:18-27 | Once authentication has settled with no user, the location is replaced with /auth, and only then. |
| AdminRoute.Guard | src/components/AdminRoute.tsx:29-80 | The loading screen shows iff either check is loading. Nothing renders iff loading is done with no user. The 403 page shows iff a user is present but not an admin. Children render iff loading is done, a user is present and the user is an admin. |
| AdminRoute.NothingMeansRedirect | src/components/AdminRoute.tsx:18-42 | Whenever the guard renders nothing, it redirects. |
| AdminRoute.NoChildrenWithoutUser | src/components/AdminRoute.tsx:40-80 | The protected page never renders without a user. |
| ProgrammerCheck.CheckRole | src/hooks/useProgrammerCheck.ts:10-30 | Loading ends false on every path. Without a user no query is made. The role holds iff a user is present and the answer is exactly the boolean `true`. |
| ProgrammerCheck.TruthyIsNotEnough | src/hooks/useProgrammerCheck.ts:24 | Example: the truthy non-boolean answers 1 and "true" do not grant the role. |
| ProgrammerCheck.ErrorDenies | src/hooks/useProgrammerCheck.ts:21-22 | An RPC error never grants the role. |

## Left out

- The store procedure `check_rate_limit` (its counter, window reset and concurrency) is not part of this model. Its answer is the parameter `store`.
- Function invocation in the hook: whether the client library delivers a 429 as `error` or as `data` is left open. Both are inputs.
- The Supabase client, `Deno.serve`, `Deno.env`, the `has_role` RPC, `useAdminCheck` and `useAuth` are not modelled. Their answers are inputs where the modelled members take them (the store verdict, the function invocation, the registration insert, the role and count queries, the package fetch).
- RateLimitConsole.Reset, RateLimitConsole.Delete, RateLimitConsole.ClearAll, AdminDashboard.UpdateStatus, PackageManagement.ToggleActive, PackageManagement.HandleDelete: each models a write the store accepted. When the store returns an error, the page only shows a toast, does not re-read, and keeps its table unchanged. That error path is not represented.
- After a successful write those pages re-read the whole table, ordered by `updated_at` descending (rate limits), `created_at` descending (registrations) or `id` ascending (packages). The model keeps the table's order, so the displayed order after a re-read is not modelled.
- EdgeHandler.InternalErrorCases: `createClient` is given the environment variables with non-null assertions. If one is missing, the client can throw, and the catch answers 500. That case is outside the model's iff, whose 500 cases are only an unreadable or null body and missing store data.
- I/O and side effects are not modelled: toasts, console logging, `navigate` (modelled only as a decision), `window.open`, `encodeURIComponent`, the XLSX/CSV export and file download, and form resets other than the sign-up form.
- Formatting is not modelled: `toISOString`, `toLocaleDateString`, `toLocaleString`, `Intl.NumberFormat`/`formatPrice`, and the export's formatted date (the model carries the raw date).
- An unparsable date string (a `NaN` time) in `formatTimeRemaining`, `isBlocked` and `getTimeRemaining` is not modelled, since every instant is an integer.
- Floating point is not modelled. `Math.ceil`, `Math.floor` and `Math.round` are exact integer operations, and the progress value is a Dafny `real`. `NaN` prices and discounts are not modelled.
- EdgeHandler.Handle: a `null` value for `max_attempts` or `window_minutes` is passed to the store as it is in JavaScript (the default applies only to an absent property). The model has no null number, so a null is treated like an absent property. A non-string `action_type` is not modelled.
- RateLimitConsole.TimeLeft: when the window starts exactly now, the display reads "15m 0s". So the bound M ≤ 14 holds only for a window that started strictly before now.
- Text: `toLowerCase` and `toUpperCase` act on ASCII letters only, and string lengths count code points rather than UTF-16 units. The zod length rules, `slice(0, 8)` and `charAt(0)` are stated in code points.
- RegistrationForm.Errors, AuthPage.LoginErrors, AuthPage.SignupErrors: zod's `email()` check is the parameter `isEmail`. `birthDate` is only checked to be non-empty.
- Lookups such as `labels[type]` are modelled as lookups in the listed keys only. A key inherited from `Object.prototype`, such as "constructor", would yield a function in JavaScript; that case is not modelled.
- PackageDetail.StrikeThrough, PackageDetail.DiscountBadge: with `discount_price` equal to 0, the JSX `discount_price && (...)` renders the number 0 as a stray "0" text in the badge row and under the price. The boolean results model only whether the badge and the struck price appear.
- PackageDetail.HotelStars: a negative star rating would make `Array(n)` throw. Only the count itself is modelled.
- The static content is not modelled: the catalogue in `src/data/packages.ts`, the testimonial texts, the simulated log entries and their timestamps, and the layout-only components (Navbar, Footer, Hero, Features, Trust, WhatsApp button, SystemConfig, routing).
- DashboardPage.Run: the auth context and the bookings fetch are a sequence of events, not a scheduler. Only their order matters, and whether authentication can become pending again is not modelled (it starts pending and only settles).
- Timing and concurrency are not modelled: the `setTimeout` in the log fetch, auto-refresh with `setInterval`, React effect scheduling, and the race between concurrent rate-limit checks.
