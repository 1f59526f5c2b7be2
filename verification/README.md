# Study-abroad application platform: a verified model of its request handlers

This project models the server core of a study-abroad platform written with
Flask and SQLAlchemy, and proves properties of that model in Dafny. Students
register, log in, search universities and programs, apply to programs and pay
application fees through a hosted checkout. Administrators activate users,
decide applications and read dashboard figures. Two batch jobs take
world rankings and government accreditation from mock external sources.

The database is one `Store.Database` object. Each table is a
`map<int, Row>` from primary key to row, with an auto-increment counter, and
the unique columns are part of `Database.Valid()`. Each request handler
that writes becomes two members:

- a pure function over the tables, which is the specification (`Payments.Checkout`,
  `Routes.Apply`, `Api.ApplyRankings`, ...), whose meaning is proved in lemmas;
- a method that performs the handler on the store and is proved to leave it
  exactly as the function says (`Payments.CreateCheckoutSession`,
  `Routes.ApplyToProgram`, `Api.UpdateRankings`, ...).

The five payment handlers are also combined in `Payments.Run`, which replays
any sequence of calls, so that invariants over whole histories can be stated.

Conventions:

- Money (Numeric(10, 2)) is integer cents.
- Timestamps come from an abstract clock passed in as `now`.
- The provider's answers (session id, "paid" status, provider failure), the
  parsed webhook body, the password hash and the random draws of the reference
  number are all parameters.
- A query without ORDER BY is taken to scan keys in ascending order, so
  `.first()` is the smallest matching key (`Tables.FirstKey`).
- A request that raises and is rolled back leaves the tables unchanged.

Modules:

- `wrappers.dfy`: `Option`.
- `text.dfy`: Python's `str.strip()` and `str.lower()`, and substring containment.
- `tables.dfy`: keyed tables, counts, sums, filters, scans, page slices.
- `models.dfy`: `models.py`.
- `store.dfy`: the database object.
- `payments.dfy`, `admin.dfy`, `routes.dfy`, `auth.dfy`, `api.dfy`: one per blueprint or module.

The model follows the code, including where it allows more than a reader
might expect:

- Cancelling makes an owned payment FAILED whatever its status, including COMPLETED or REFUNDED.
- The browser return and the webhook make a payment COMPLETED from any status.
  They re-stamp `completed_at` every time, and they revive FAILED or REFUNDED payments.
- The browser return does not check that the session id belongs to the payment id.
- A refund only flips the status; the provider is not asked.
- Two checkouts started before either is paid give one application two COMPLETED payments.
- Login looks the user up by the lower-cased email as typed, without stripping it.
- Profile editing validates nothing.
- The university search reads a `field` argument and ignores it.
- Neither batch job restricts itself to active institutions.

## Model

| member | source | states |
|---|---|---|
| Models.ParseApplicationStatus | models.py:13-19 | Looking up a status by its value succeeds exactly for the six values, and the member found has that value. |
| Models.ApplicationStatusRoundTrip | models.py:13-19 | The status enumeration has exactly six members, and parsing a member's value gives the member back. |
| Models.PaymentStatusEnumerated | models.py:21-25 | The payment status enumeration has exactly four members with distinct values. |
| Models.FullName | models.py:63-65 | The full name is the first name, one space, then the last name. |
| Models.FullNameDeterminesNames | models.py:63-65 | When first names contain no space, equal full names mean equal first and last names. |
| Models.NewUser | models.py:37-51 | A new user row takes the given columns, and the defaults: role STUDENT, active, not verified, created now, never logged in. |
| Models.GenerateReferenceNumber | models.py:214-217 | A reference number has length 10, and each of its characters is A-Z or 0-9. |
| Models.ReferenceIndex | models.py:217 | Every alphabet character has a position below 36 that maps back to it. |
| Models.EveryReferenceReachable | models.py:214-217 | Every ten-character string over the alphabet is produced by some draws. |
| Models.SameEmailKeepsUnique | models.py:31 | Rewriting a user without changing the email keeps emails unique. |
| Text.Strip | routes.py:178-181 | The stripped string is the infix of the input left after removing only whitespace before and after it, and it neither starts nor ends with whitespace, so it is Python's `strip()` result. It is empty exactly when the input has no non-whitespace character. |
| Text.StripKeepsTrimmed | auth.py:63-64 | A string that neither starts nor ends with whitespace is left as it is by stripping. |
| Text.StripIdempotent | auth.py:63-64 | Stripping twice gives the same result as stripping once. |
| Text.Lower | auth.py:65 | Lower-casing keeps the length, maps each character by `LowerChar`, and leaves no ASCII capital. |
| Text.LowerIdempotent | auth.py:65 | Lower-casing twice gives the same result as lower-casing once. |
| Text.StripLower | auth.py:65 | Lower-casing then stripping gives the same string as stripping then lower-casing. |
| Tables.FirstKey | routes.py:130-133 | `.first()` gives the smallest key in range whose row matches; it finds none only when no row in range matches. |
| Tables.Count | admin.py:42-46 | A count over keys 1..hi-1 never exceeds hi - 1, the number of keys the counter has handed out. It is 0 when no row in that range matches. |
| Tables.CountMonotonic | admin.py:45-46 | A narrower filter never counts more rows. |
| Tables.SumUpdate | admin.py:47 | Replacing one row changes a sum by exactly that row's change of term. |
| Tables.PageSlice | api.py:36 | A page holds at most 20 results: those from offset (page-1)*20 to page*20. It is empty past the end, and an error for page < 1. |
| Tables.PageSliceItem | api.py:36 | Item i of a page is result (page-1)*20+i. |
| Tables.HasNextMeansMore | api.py:56 | `total > page*20` holds exactly when the following page is non-empty. |
| Tables.PagesTile | api.py:36 | Pages 1..n together list the first n*20 results in order, without gap or overlap. |
| Store.Database.SetUser | auth.py:39-40 | Rewriting one user row whose email is unchanged keeps the store valid. Only that row changes. |
| Store.Database.InsertUser | auth.py:108-109 | A user with a new email is inserted under the next id, and the store stays valid. |
| Store.Database.SetInstitution | api.py:184 | Rewriting one institution row keeps the store valid. Only that row changes. |
| Store.Database.InsertPayment | payments.py:59-60 | A payment without a provider session is inserted under the next id. |
| Store.Database.AttachIntent | payments.py:89-90 | A provider session id carried by no other payment is stored on one payment, and the intent ids stay unique. |
| Payments.Checkout | payments.py:22-101 | A row is added exactly when every guard passes: the application exists and is the caller's, nothing is paid for it, its fee is a positive number, and its program exists. The row is a PENDING payment of the fee, in USD, by the caller for the application, described by program and institution. No other row changes. Each outcome holds exactly when its guard decides. A missing application, a NULL fee or a missing program is the generic error, since `get_or_404` raises inside the `try`. A provider failure leaves the PENDING row. With a fresh counter, the session id is stored, and the user redirected, exactly when no other payment holds it. |
| Payments.CreateCheckoutSession | payments.py:20-101 | The handler leaves the store exactly as `Checkout` says and keeps it valid. |
| Payments.ConfirmReturn | payments.py:105-136 | A payment is confirmed exactly when both ids are present, the provider says "paid", and the payment exists and is the caller's. It then becomes COMPLETED, stamped, with the snapshot. Otherwise nothing changes. |
| Payments.PaymentSuccess | payments.py:103-136 | The handler performs `ConfirmReturn` on the store and keeps it valid. |
| Payments.Cancel | payments.py:140-151 | An owned payment becomes FAILED whatever its status. Every other row, and every other request, is unchanged. |
| Payments.PaymentCancel | payments.py:138-151 | The handler performs `Cancel` on the store and keeps it valid. |
| Payments.HandleWebhook | payments.py:154-182 | Malformed input gives 400. Only a completion event naming an existing payment changes it: to COMPLETED, stamped now. An unknown id writes nothing and answers 200. |
| Payments.StripeWebhook | payments.py:153-182 | The handler performs `HandleWebhook` on the store and keeps it valid. |
| Payments.Refund | payments.py:196-226 | A refund is submitted exactly when the caller owns the payment and it is COMPLETED. The only change is its status, to REFUNDED; otherwise nothing changes. |
| Payments.RequestRefund | payments.py:194-226 | The handler performs `Refund` on the store and keeps it valid. |
| Payments.GetPaymentStatus | payments.py:231-245 | A missing payment gives 404 and another user's payment gives 403. Otherwise the report gives the payment's status value, amount, currency and timestamps. |
| Payments.FeeOf | payments.py:44 | The fee is known exactly when the application, its institution and a non-NULL fee exist, and it is that institution's `application_fee`. |
| Payments.FeeDescription | payments.py:56 | The description names the program after the fixed prefix and ends with the institution's name. |
| Payments.StepAddsAtMostOne | payments.py:20-226 | One handler call (`Step`) adds at most one payment, under the counter, and only a checkout does. |
| Payments.RunAddsAtMostOnePerCall | payments.py:20-226 | Over a sequence of calls (`Run`), n calls add at most n payments, each under a key handed out meanwhile, and remove none. |
| Payments.StepKeepsWellKeyed | payments.py:51-90 | Every handler keeps the keys below the counter and the provider session ids unique. |
| Payments.StepPreserves | payments.py:110-218 | A single call removes no payment. It changes no payment's amount, owner, application or currency, and never lowers the counter. |
| Payments.StepKeepsValid | payments.py:51-58 | Every handler keeps each row's charge consistent: a positive USD fee for an application the payer owns, and a completion stamp once COMPLETED or REFUNDED. |
| Payments.RunKeepsValid | payments.py:51-58 | Over any sequence of calls, every row stays consistent with its application. |
| Payments.RunPreserves | payments.py:120-218 | Over any sequence of calls, no payment disappears, none is re-priced, re-owned or re-linked, and the counter never goes back. |
| Payments.StepRefunds | payments.py:201-218 | A call that makes a payment REFUNDED is its owner's refund of it while it was COMPLETED. |
| Payments.RefundedOnlyFromCompleted | payments.py:201-218 | Over any history, a REFUNDED payment either started REFUNDED or was refunded by its owner at a point where it was COMPLETED. |
| Payments.WebhookRedelivery | payments.py:172-176 | Redelivering a completion event leaves the payment COMPLETED and moves `completed_at` to the later delivery. |
| Payments.CompletionPathsConverge | payments.py:118-176 | Return and webhook in either order both end COMPLETED with the snapshot. The stamp is that of whichever arrived last. |
| Payments.TwoCheckoutsPending | payments.py:34-60 | Two checkouts for one application, the second before the first is paid, insert two rows. |
| Payments.BothCompleted | payments.py:167-176 | Completion events for two existing payments leave both COMPLETED, linked to their applications, with the set of payments unchanged. |
| Payments.TwoCompletedPaymentsReachable | payments.py:34-41 | Because the duplicate guard only looks for COMPLETED rows, one application can end with two COMPLETED payments through sequential calls. |
| Admin.AdminGate | admin.py:11-19 | Anonymous visitors are sent to login, and any other non-admin is refused. Only an admin reaches the handler. |
| Admin.AdminLogEntry | admin.py:21-31 | The log row stores the details only when there are any, and records admin, action and time. |
| Admin.LogAdminAction | admin.py:21-35 | Exactly one row is appended, or none when the write fails. The failure reaches no caller. |
| Admin.ToggleActive | admin.py:117 | Only `is_active` changes, and it is negated. |
| Admin.ToggleLogEntry | admin.py:120-121 | The toggle's log row says "user_activated" exactly when the user is now active and "user_deactivated" otherwise. It targets the user and records the email. |
| Admin.ToggleTwice | admin.py:117 | Toggling twice gives the user back. |
| Admin.ToggleUserStatus | admin.py:113-124 | Non-admins and unknown users change nothing. Otherwise one user's `is_active` flips and one "user_activated"/"user_deactivated" log row is appended, unless the log write fails. |
| Admin.ApplyDecision | admin.py:332-338 | An unknown status value fails. A valid value sets status and notes. `decision_date` is set only for accepted or rejected, and nothing else changes. |
| Admin.DecisionLogEntry | admin.py:342-346 | The log row records old status, new status and reference number. |
| Admin.SameReferenceKeepsUnique | admin.py:334-339 | Rewriting an application without changing its reference number keeps reference numbers unique. |
| Admin.UpdateApplicationStatus | admin.py:325-354 | The update succeeds exactly for an admin, an existing application and a valid status. A failure changes nothing, and the decision is committed before the log, so a failed log write keeps it. |
| Admin.DashboardStats | admin.py:41-48 | Each figure is the number of rows its query lists: students, active institutions, active programs, all applications, and SUBMITTED applications as pending. Revenue is `Revenue`, the sum of COMPLETED amounts, so the checkout, refund and webhook lemmas apply to it. Pending applications never outnumber applications. Revenue is 0 when no payment is COMPLETED, and non-negative when amounts are. |
| Admin.Revenue | admin.py:47 | Revenue sums the amounts of COMPLETED payments (`CompletedAmount`). It is 0 when no payment is COMPLETED and non-negative when amounts are. |
| Admin.CheckoutKeepsRevenue | admin.py:47 | Starting a checkout never changes revenue. |
| Admin.RefundLowersRevenue | admin.py:47 | A refund lowers revenue by exactly the refunded amount. |
| Admin.RedeliveredWebhookKeepsRevenue | admin.py:47 | A repeated completion event does not count a payment twice. |
| Admin.WebhookAddsRevenue | admin.py:47 | A completion event for a payment that is not COMPLETED (PENDING, or FAILED or REFUNDED and revived) adds its amount to revenue. |
| Routes.Apply | routes.py:123-159 | An unknown program gives 404. An existing application of the user for the program is returned and nothing is created. Otherwise a GET shows the form and creates nothing. A POST creates exactly one DRAFT application at the program's institution exactly when the drawn reference number is free; a taken one is rolled back. |
| Routes.ApplyKeepsOnePerUserProgram | routes.py:130-137 | Applying never gives a user a second application for one program. |
| Routes.ApplyKeepsProgramInstitution | routes.py:141-148 | Every application stays filed at the institution of its program. |
| Routes.ApplyKeepsKeys | routes.py:150-154 | Applying keeps reference numbers unique and keys below the counter. |
| Routes.ApplyToProgram | routes.py:123-159 | The handler performs `Apply` on the store and keeps it valid. |
| Routes.ViewApplication | routes.py:161-172 | Only the owner sees an application; others are refused. |
| Routes.AlreadyAppliedIsViewable | routes.py:135-137 | The existing application a user is sent to is one they may view. |
| Routes.CreatedIsViewable | routes.py:153-157 | A newly created application is one its applicant may view. |
| Routes.FeaturedUniversities | routes.py:19-32 | A country appears exactly when it is listed and has an active institution, and then shows `CountryPicks` for it. The dictionary's order is the listed countries' order, restricted to those shown. |
| Routes.CountryPicksMeaning | routes.py:29-32 | A country shows at most 3 institutions, each active with that lower-cased code. They are the first such in table order, and none is left out when fewer than 3 exist. |
| Routes.FeaturedTestimonials | routes.py:35-36 | The testimonials shown are the first six of the list: a prefix of exactly 6 items when the list has more, all of it when it has ≤ 6, and none when it failed to load. |
| Routes.Contact | routes.py:174-193 | A POST is accepted exactly when all four fields have a non-whitespace character. |
| Auth.NormalizeEmail | auth.py:65 | The stored email is the stripped input with each character lower-cased. It has no capitals and no surrounding whitespace, and it is empty exactly when the input is blank. |
| Auth.NormalizedShape | auth.py:65 | The lower-cased, stripped email holds no ASCII capital, and it is empty exactly when the input is blank. |
| Auth.NormalizeEmailIdempotent | auth.py:65 | Normalising a stored email again changes nothing. |
| Auth.CheckRegistration | auth.py:76-92 | The checks run in order (required fields, confirmation, length ≥ 8, new email), and each error arises exactly when the earlier checks pass and its own fails. |
| Auth.RegisteredUser | auth.py:96-106 | The new user has the normalised email, stripped names and phone, and the country, education level and field as given. Destinations are stored only if given. Role is STUDENT, active, not verified. |
| Auth.RegisteredUserWellFormed | auth.py:77-92 | A user created after all checks pass has non-blank names and a lower-case email new to the table. |
| Auth.Register | auth.py:56-122 | Any failed check leaves the users unchanged. Success adds exactly one user under the next id. |
| Auth.CheckLogin | auth.py:27-36 | Missing fields are rejected before lookup. Acceptance holds exactly for an active user with the lower-cased email and a matching password. The deactivated-account answer holds exactly when both fields are given and the user found by the lower-cased email has a matching password but is inactive. |
| Auth.RegisteredEmailFindsUser | auth.py:31 | An email typed without surrounding spaces finds at login the user it registered. |
| Auth.AfterLogin | auth.py:42-50 | A non-empty `next` wins. Otherwise admins go to the admin dashboard and others to their dashboard. |
| Auth.Login | auth.py:17-54 | Corrected login. It logs in exactly when the rules accept, stamps only that user's `last_login`, and redirects by `AfterLogin`. |
| Auth.LoginHandler | auth.py:17-54 | The handler performs the corrected `Login` on the store and keeps it valid. |
| Auth.LoginAsWritten | auth.py:38-40 | As written, every accepted login ends in a server error and writes nothing. |
| Auth.LoginAsWrittenLosesLastLogin | auth.py:38-40 | Wherever the corrected login records the time, the written one fails and records nothing. |
| Auth.LoginCrashExample | auth.py:31-40 | A concrete user and password accepted by the rules crash as written and are stamped when corrected. |
| Auth.EditProfile | auth.py:141-150 | Profile editing sets the names and phone (stripped), the country, education level and field as given, and the destinations (None when none are chosen). Email, password, role, status, `created_at` and `last_login` are untouched. |
| Auth.EditRegisteredProfile | auth.py:96-106 | Editing a newly registered profile with the values it was registered with changes nothing: both store the profile fields alike. |
| Auth.EditProfileKeepsLogin | auth.py:141-150 | Editing a profile keeps emails unique and leaves the outcome of every later login unchanged. |
| Auth.EditProfileHandler | auth.py:136-159 | Only the caller's row changes, as `EditProfile` says. |
| Api.Paginate | api.py:36-56 | The page is the offset slice, total counts every result, and `has_next` holds exactly when the following page is non-empty. Page < 1 is an error. |
| Api.UniversityResults | api.py:22-34 | The filters, applied one by one, select exactly the active institutions with the country code (if given) that mention the term (if given), in table order. |
| Api.UniversityResultsComplete | api.py:22-34 | Every matching institution is among the results. |
| Api.ReportedFee | api.py:51 | A NULL fee is reported as 0. |
| Api.RenderUniversities | api.py:39-53 | One JSON entry per row, in order, each built by `UniversityJsonOf`. |
| Api.UniversityJsonOf | api.py:41-52 | Location is "city, country", and the fee is reported by `ReportedFee`. The program count counts the university's active programs. |
| Api.SearchUniversities | api.py:14-59 | Page < 1 is an error. Otherwise at most 20 items: the rendered page slice of the matches. Total is the match count, and `has_next` iff total > page*20. |
| Api.SearchUniversitiesSound | api.py:22-36 | Every university on a page exists and matches the request. |
| Api.ProgramResults | api.py:71-86 | The filters select exactly the active, joined programs satisfying each given filter, with inclusive fee bounds. |
| Api.ByUniversity | api.py:71-74 | The first filters select the offered, joined programs of the asked university. |
| Api.ByColumns | api.py:71-80 | The filters up to the degree type select the programs satisfying those filters. |
| Api.ProgramResultsComplete | api.py:71-86 | Every matching program is among the results. |
| Api.ProgramResultsMatch | api.py:71-86 | Every result is a table row that satisfies the query and joins to an existing institution. |
| Api.ProgramJsonOf | api.py:92-99 | An entry carries the program's id, name and fee and its institution's name. |
| Api.RenderPrograms | api.py:90-100 | One JSON entry per joined row, in order, each built by `ProgramJsonOf`. |
| Api.SearchPrograms | api.py:61-111 | Corrected search. Page < 1 is an error. Otherwise at most 20 items, one per result of the page slice. Total counts the matches, and `has_next` iff total > page*20. |
| Api.SearchProgramsSound | api.py:71-88 | Every program on a page exists and satisfies each requested filter. |
| Api.SearchProgramsAsWritten | api.py:71-80 | As written, a request with a university id or a degree type fails, as does page < 1. Every other request equals the corrected search. |
| Api.SearchProgramsFilterByFails | api.py:73-80 | Page 1 of university 1, or of degree "Master", fails as written and is answered by the corrected search, whatever the tables hold. |
| Api.ApplyRanking | api.py:179-184 | One feed entry gives its rank to the first institution (in key order) with its name. Every other row, including later ones with the same name, is unchanged. |
| Api.ApplyRankings | api.py:178-184 | Applying the feed changes only `world_ranking` and keeps every key. |
| Api.LastRank | api.py:178-184 | The rank of the last feed entry with a name; none exactly when no entry carries the name. |
| Api.RankFromLastEntry | api.py:178-184 | After the feed, the first institution of each name carries the rank of the last entry with that name, which overwrites earlier ones. Every other row is unchanged. |
| Api.RankedFromFeed | api.py:178-184 | A changed ranking is the rank of a feed entry carrying the institution's name. |
| Api.UnrankedUnchanged | api.py:178-184 | An institution whose name is not in the feed keeps its row. |
| Api.SetRanking | api.py:179-184 | One loop iteration leaves the institutions exactly as `ApplyRanking` says and keeps the store valid. |
| Api.UpdateRankings | api.py:172-199 | The loop leaves the table as `ApplyRankings` says. `updated_count` is the feed length however many names matched. |
| Api.GovernmentAccreditation | api.py:158-170 | "us", "gb" and "ca" have three names each; any other code, including upper case, has none. |
| Api.AccreditationCaseSensitive | api.py:164-170 | "US" finds no list while "us" does. |
| Api.NamedCountFilters | api.py:211-214 | The loop's counter equals the number of walked rows whose name is listed. |
| Api.WalkedMeaning | api.py:211-213 | After the walk, a row is verified exactly when it was walked and its name is listed. Others are unchanged. |
| Api.CountryRowsListed | api.py:208 | The walked rows are the country's institutions, each once, in key order, and include every accredited one. |
| Api.AccreditationCounts | api.py:208-222 | `total_institutions` counts the country's institutions and `verified_count` its accredited ones, so `verified_count` ≤ `total_institutions`. |
| Api.AccreditationOutcome | api.py:208-216 | After the walk, exactly the country's accredited institutions are verified. |
| Api.WalkAccreditation | api.py:211-214 | The loop leaves the table as `Walked` says and counts the listed rows. |
| Api.VerifyAccreditation | api.py:201-230 | Exactly the country's listed institutions become verified, and all other rows keep `is_verified`. `verified_count` and `total_institutions` are the two counts, and `verified_count` ≤ `total_institutions`. |

## Left out

- Stripe, Flask and Flask-Login. The provider's answers, the session user, the HTTP method and the form fields are parameters; redirects, flash messages and templates are reduced to outcome values.
- Parsing the webhook JSON. The event arrives parsed; malformed input is `Unparseable`.
- Password hashing. `hash` and `passwordMatches` are parameters.
- Floats. Money is integer cents, so `float(...)` and `int(amount * 100)` have no counterpart, and the fee filters compare cents.
- `datetime.utcnow()` and `random.choices`. They are the `now` parameter and the ten draws of the reference number.
- Concurrency. The model is sequential: the race between browser return and webhook, and truly concurrent checkouts, are not modelled.
- SQL `LIKE` wildcards in search terms. `contains` is plain case-sensitive substring search.
- The database engine. Its configuration is not part of this model, and PostgreSQL behaviour is assumed: a negative OFFSET is an error, so page < 1 fails (`Tables.PageSlice`, `Api.Paginate`, `Api.SearchUniversities`, `Api.SearchPrograms`), and `LIKE` is case-sensitive. Under SQLite a negative OFFSET acts as 0, so page 0 would return the first page, and `LIKE` ignores ASCII case.
- Non-ASCII lower-casing. `lower()` maps A-Z only.
- Result order. Queries without ORDER BY are taken to list rows in key order.
- The dashboard's `monthly_stats` calendar arithmetic and recent-activity lists (admin.py:50-69), and the analytics queries.
- The admin listing, search, detail and institution/program management pages (admin.py:78-111, 126-324, 356-end): they only read or edit rows field by field, without guards.
- `payment_history` (payments.py:184-192) and `get_domain` (payments.py:13-18): a read-only listing and environment lookup.
- `search`, `institution_detail`, `program_dashboard` and the other read-only pages of routes.py, and `logout`/`profile` in auth.py.
- `university_programs` (api.py:113-137), `get_application_status` (api.py:233-248) and `send_notification` (api.py:251-270): read-only or mock responses.
- The columns the handlers never read or write for a modelled property (logo, website, type, duration, currency of programs, ...), and `users.updated_at`, which the engine re-stamps on every update.
- The exception paths of the two batch jobs (api.py:194-199, 225-230). A failure rolls back and writes nothing; the model has no failing step there.
- static/js/main.js, seed_data.py and main.py.
- Auth.Register: column lengths (`String(n)`) and commit failures are not modelled. A value longer than its column, such as a country longer than 2 characters, makes the commit at auth.py:109 fail; the source then rolls back and creates no user (auth.py:117-120), while the model answers Registered.
- Auth.EditProfileHandler: column lengths and commit failures are not modelled. An overlong country or phone makes the commit at auth.py:153 fail and the source rolls the edit back (auth.py:156-159), while the model stores it.
- Payments.Checkout: column lengths and commit failures are not modelled. A description longer than 255 characters (the program and institution names together) makes the commit at payments.py:60 fail; the source answers the generic error with no row (payments.py:97-101), while the model inserts the PENDING row.
- Api.SearchPrograms: states the ids of the entries rather than every field; the fields follow from `Api.RenderPrograms` and `Api.ProgramJsonOf`.
- Api.UpdateRankings: takes the feed as a parameter; `fetch_university_rankings` is the constant `Api.RankingFeed`.

## Findings

| source | as written | input that shows it | evidently intended | confidence | as-written member | corrected member |
|---|---|---|---|---|---|---|
| auth.py:39 | `datetime.utcnow()` is called but auth.py never imports `datetime`, so every login the rules accept raises NameError after `login_user`: a server error, and `last_login` is never committed. | An active user "a@b" whose password matches, logging in with email "A@b" | Record the login time and redirect by `next` or role | not executed | Auth.LoginAsWritten | Auth.Login |
| api.py:73-80 | After `.join(Institution)`, `filter_by(institution_id=...)` and `filter_by(degree_type=...)` resolve against Institution. Institution has neither column, so the request fails with a server error. | `/programs/search?university_id=1` or `?degree_type=Master`, page 1 | Filter programs by their own `institution_id` and `degree_type` | not executed | Api.SearchProgramsAsWritten | Api.SearchPrograms |
