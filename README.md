# finally-admin — a verified model of the admin dashboard's rules

finally-admin is the administration dashboard of a dental-clinic platform.
It has an Express back end over PostgreSQL and a React front end. This
project models in Dafny the parts of it that make decisions:

- **Account security** (`backend/routes/auth.js`):
  - super-admin login, with a failed-attempt counter and a 15-minute
    lockout after five failures;
  - admin login, which has no lockout;
  - the password-reset token table. A token is issued on request,
    checked read-only by verify, and consumed on reset. Consuming a token
    marks its row used and deletes every other row for the same e-mail.
- **Authorization** (`backend/middleware/auth.js`): the three
  `authenticate*` decisions. Each maps an `Authorization` header, the
  JWT verifier and the account tables to 401, 403 or accept with the
  account.
- **Account administration** (`backend/routes/superAdmins.js`,
  `backend/routes/adminUsers.js`):
  - ordered input validation, including the e-mail regular expression;
  - e-mail uniqueness;
  - the partial-update builders, which push `col = $k` assignments and
    parameters;
  - the guard that keeps the last active super-admin;
  - password change;
  - the legacy single-token reset flow.
- **Analytics** (`backend/routes/analytics.js`): the status-count
  dictionaries and the monthly series.
- **Front end**:
  - the doctor service's header and record mappers;
  - the applications and management pages: filters, tab counts, and the
    status update that only super-admins may use to approve or reject;
  - the shell's session restore, role derivation and section guard;
  - the sidebar's menu gating;
  - the profile and reset-password forms.

Each database table is a field of one `Database` class: `super_admins`
and `admin_users` are maps keyed by their SERIAL id, and the reset-token
table is a sequence in insertion order. Each route handler is a method on
that database. It is proved against pure functions that state the
decision, and it keeps the class invariant: unique e-mails, ascending
token ids, and a lock only after five failures. The library calls are
parameters of the model:

| library call | modelled as |
|---|---|
| `bcrypt.compare` | a function parameter |
| `crypto` SHA-256 | a function parameter |
| `jwt.verify` | a function parameter |
| `bcrypt.hash` output | a plain value |
| the random token | a plain value |
| the clock | a plain value |

Each React component is a class whose fields are its state. Its handlers
are methods, and the outcome of each awaited service call is a parameter.

Password minimums compare JavaScript's `.length`, which counts UTF-16
code units: a character outside the Basic Multilingual Plane, such as an
emoji, counts twice (`Js.Utf16Length`).

The shell's session restore follows `App.tsx` as written: a stored user
whose text is `null` parses without error, the shell marks itself
authenticated, and reading `user.userType` then throws. The catch removes
both storage keys, so the shell stays authenticated, keeps its previous
role, and has nothing stored.

Modules, one per source file:

| module | source |
|---|---|
| `AuthRoutes` | `backend/routes/auth.js` |
| `Middleware` | `backend/middleware/auth.js` |
| `SuperAdmins` | `backend/routes/superAdmins.js` |
| `AdminUsers` | `backend/routes/adminUsers.js` |
| `Analytics` | `backend/routes/analytics.js` |
| `DoctorService` | `src/services/doctorService.ts` |
| `DoctorApplications` | `src/components/DoctorApplications.tsx` |
| `DoctorManagement` | `src/components/DoctorManagement.tsx` |
| `App` | `src/App.tsx` |
| `Sidebar` | `src/components/Sidebar.tsx` |
| `ProfilePage` | `src/components/SuperAdminProfile.tsx` |
| `ResetPasswordPage` | `src/components/ResetPasswordPage.tsx` |

Shared modules:

| module | holds |
|---|---|
| `Js` | JavaScript values: `undefined`, truthiness, template strings, ASCII case mapping, `filter`, `.length` in UTF-16 code units, `String(n)` |
| `PasswordForm` | the password forms' shared length-then-confirmation check |
| `EmailFormat` | the e-mail regular expression |
| `Store` | table rows and the `Database` class |
| `SqlBuilder` | the SET-list builder and its meaning |
| `AdminTypes` | the role enumeration |

## Model

| member | source | states |
|---|---|---|
| AuthRoutes.CeilMinutes | backend/routes/auth.js:47-53 | the minutes shown for a lock are the least whole number of minutes covering the remaining time, and at least 1 |
| AuthRoutes.SuperAdminAttempt | backend/routes/auth.js:40-111 | the checks run in a fixed order: inactive, then locked, then the password. Inactive and locked accounts write nothing. A wrong password adds one failure (null read as 0) and reports 5 minus the new count, which is always 1 to 4. At 5 failures the account locks for 15 minutes without resetting the counter. Success clears counter and lock and sets last_login, and the user it returns has no secrets. A consistent lock stays consistent |
| AuthRoutes.AdminAttempt | backend/routes/auth.js:148-189 | an inactive account is refused without a write. A wrong password gives 401 and writes nothing. Login succeeds iff the account is active and the password matches, and success writes only last_login and returns the role and userType 'admin' |
| AuthRoutes.SuperAdminLogin | backend/routes/auth.js:13-119 | missing fields give 400 before the lookup, and an unknown e-mail gives the generic 401 with no write. Otherwise the response and the single row written are those of SuperAdminAttempt on the matched row. The database invariant is kept |
| AuthRoutes.AdminLogin | backend/routes/auth.js:121-197 | the same order over admin_users, delegating to AdminAttempt; only the matched row can change |
| AuthRoutes.Replay | backend/routes/auth.js:57-83 | the reference for successive attempts against one account: one response per attempt, only the failure counter, the lock and last_login ever change, and a lock stays backed by five failures |
| AuthRoutes.ReplayAppend | backend/routes/auth.js:57-83 | replaying two batches of attempts equals replaying the second from the state the first left |
| AuthRoutes.WrongPasswordsCountDown | backend/routes/auth.js:57-83 | below the threshold, the i-th wrong password reports exactly 5 - (attempts + i + 1) remaining |
| AuthRoutes.FiveWrongPasswordsLock | backend/routes/auth.js:57-73 | five wrong passwords on a fresh active account count down 4, 3, 2, 1 and then lock it. Any attempt inside the next 15 minutes, even with the right password, is refused as locked |
| AuthRoutes.RelockAfterWindow | backend/routes/auth.js:9-10 | once a lock has expired, a single further wrong password re-locks the account, because the counter was not reset |
| AuthRoutes.LoginTokenAuthenticates | backend/routes/auth.js:86-111 | the token a successful super-admin login signs is accepted by authenticateSuperAdmin while the account stays active |
| AuthRoutes.FirstWithDigest | backend/routes/auth.js:282-296 | the lookup returns the first row whose digest matches, or none iff no row matches |
| AuthRoutes.CheckToken | backend/routes/auth.js:289-310 | a token is rejected in the order not found, then used, then expired (strictly past expires_at); otherwise it is usable at the first matching row |
| AuthRoutes.DeleteSiblingsKeeps | backend/routes/auth.js:399-402 | the rows kept are exactly those of another e-mail plus the consumed row itself |
| AuthRoutes.DeleteSiblingsAscending | backend/routes/auth.js:399-402 | deleting rows keeps the token ids ascending |
| AuthRoutes.ConsumeKeepsAscending | backend/routes/auth.js:394-402 | consuming a token keeps the token ids ascending |
| AuthRoutes.FirstAfterDelete | backend/routes/auth.js:394-402 | the first row with a digest is still found after the sibling delete when that row is kept |
| AuthRoutes.ConsumedTokenReportsUsed | backend/routes/auth.js:355-397 | a token that has been consumed is reported as already used at any later time |
| AuthRoutes.ConsumeInvalidatesSiblings | backend/routes/auth.js:394-402 | after a consume, the only row left for that e-mail is the consumed row, now used, so no other token of that e-mail is usable |
| AuthRoutes.ConsumeKeepsOtherEmails | backend/routes/auth.js:399-402 | rows of other e-mails survive a consume unchanged |
| AuthRoutes.IssuedTokenLastsOneHour | backend/routes/auth.js:240-248 | a freshly inserted unused token is usable up to its expiry and reported expired after it |
| AuthRoutes.ResetUserType | backend/routes/auth.js:213-231 | the reset token is issued for an active super-admin in preference to an active admin, and for nobody else |
| AuthRoutes.ForgotPassword | backend/routes/auth.js:199-267 | a missing e-mail gives 400. Otherwise the same response is sent whether or not an account matches. On a match exactly one row is appended, holding the digest, the user type and an expiry of now plus one hour, and the mail is addressed to that e-mail; with no match nothing changes |
| AuthRoutes.VerifyResetToken | backend/routes/auth.js:269-326 | a missing token gives 400. Otherwise the result is CheckToken's verdict, with the row's e-mail on success. Nothing is modified |
| AuthRoutes.ResetSuperAdminsWithEmail | backend/routes/auth.js:380-386 | the update by e-mail keeps the set of accounts |
| AuthRoutes.ResetAdminsWithEmail | backend/routes/auth.js:387-391 | the update by e-mail keeps the set of accounts |
| AuthRoutes.ResetSuperAdminsKeepsValid | backend/routes/auth.js:380-386 | resetting by e-mail keeps e-mails unique and locks consistent |
| AuthRoutes.ResetAdminsKeepsValid | backend/routes/auth.js:387-391 | resetting by e-mail keeps e-mails unique |
| AuthRoutes.ResetPassword | backend/routes/auth.js:328-416 | missing fields give 400, then a password under 6 UTF-16 code units gives 400 before the lookup. Then the token is rejected as not found, used or expired, and a refusal changes nothing. On success the row is marked used and its e-mail's other rows are deleted. The password is rehashed, and counters and lock are cleared only when the user type is 'super_admin' |
| Middleware.VerifyToken | backend/middleware/auth.js:11-17 | verification never throws: any failure yields none, and success yields the decoded claims |
| Middleware.BearerToken | backend/middleware/auth.js:23-30 | a token is read iff the header is present and starts with "Bearer ", and it is the header minus those 7 characters |
| Middleware.BearerRoundTrip | backend/middleware/auth.js:23-30 | a header built as "Bearer " + token yields that token back |
| Middleware.AuthenticateSuperAdmin | backend/middleware/auth.js:33-60 | the request is accepted iff the claims verify, the userType is 'super_admin' and the id is an active super-admin, and the active row is attached. It answers 403 iff verified claims carry another userType; every other refusal is 401 |
| Middleware.AuthenticateAdmin | backend/middleware/auth.js:84-111 | the same decision for userType 'admin' against admin_users |
| Middleware.AuthenticateAny | backend/middleware/auth.js:142-169 | it refuses only with 401 and never 403. It accepts only an active account whose kind matches the token's userType |
| Middleware.AnyAgreesWithSpecific | backend/middleware/auth.js:142-169 | authenticateAny accepts a super-admin (an admin) exactly when the specific check does, with the same attached account |
| Middleware.DeactivatedAccountLosesAccess | backend/middleware/auth.js:47-57 | a still-valid token whose account is not active is refused by all three checks |
| EmailFormat.RegexImpliesWellFormed | backend/routes/superAdmins.js:153 | every string the pattern accepts has one '@', no whitespace, a non-empty local part, and a dot in the domain with text on both sides |
| EmailFormat.WellFormedImpliesRegex | backend/routes/superAdmins.js:153 | every such string is accepted by the pattern |
| EmailFormat.RegexIffWellFormed | backend/routes/superAdmins.js:153 | the pattern accepts exactly the well-formed addresses |
| EmailFormat.PlainSlice | backend/routes/superAdmins.js:153 | a run of non-space, non-'@' characters is a valid `[^\s@]+` segment |
| Store.Database.constructor | backend/setup_super_admin.js:14-30 | an empty database satisfies the invariant |
| SqlBuilder.DefinedFromFields | backend/routes/superAdmins.js:317-342 | only the supplied (not undefined) fields are kept, each with its own column and value |
| SqlBuilder.Numbered | backend/routes/superAdmins.js:317-342 | one `column = $k` assignment per kept field |
| SqlBuilder.Values | backend/routes/superAdmins.js:317-342 | one parameter per kept field |
| SqlBuilder.PushIfDefined | backend/routes/superAdmins.js:319-323 | one push step keeps the arrays and the running index equal to the builder's meaning for the fields seen so far |
| SqlBuilder.BuiltStatementConsistent | backend/routes/adminUsers.js:221-272 | with n assignments numbered $1..$n, the id is parameter n+1 and every placeholder is bound |
| SqlBuilder.ExecuteBuiltSet | backend/routes/superAdmins.js:350-358 | executing the built UPDATE applies exactly the supplied fields in order |
| SqlBuilder.ExecuteWithMoreParams | backend/routes/superAdmins.js:350-358 | an UPDATE reads only the parameters its placeholders name |
| SqlBuilder.ApplySuppliedStep | backend/routes/superAdmins.js:319-341 | one more supplied field adds one more column write, and an omitted field adds none |
| SqlBuilder.NoneSupplied | backend/routes/superAdmins.js:343-348 | the SET list is empty iff every field is undefined |
| SuperAdmins.CreateSuperAdmin | backend/routes/superAdmins.js:137-203 | the checks run in order: required fields, then the e-mail pattern, then length >= 8 in UTF-16 code units, then a duplicate e-mail (409); when all pass the row is inserted. Status defaults to 'active'. The new row gets a fresh id, and the view returned has no password hash. A refusal changes nothing |
| SuperAdmins.PutAppliesPatch | backend/routes/superAdmins.js:317-342 | the PUT's SET list applied to a row updates exactly the supplied columns |
| SuperAdmins.PutStatementPerformsPatch | backend/routes/superAdmins.js:317-354 | the PUT's statement binds every placeholder, puts the id last, is empty iff nothing was sent, and performs the patch on any row |
| SuperAdmins.ProfileAppliesPatch | backend/routes/superAdmins.js:241-259 | the profile update's SET list updates exactly the supplied name and e-mail |
| SuperAdmins.PatchKeepsCredentials | backend/routes/superAdmins.js:317-342 | an update never touches the hash, the counter or the lock |
| SuperAdmins.BuildPut | backend/routes/superAdmins.js:317-354 | the arrays are the supplied fields in the order email, full_name, status, phone, numbered $1..$n, with the id as $(n+1). They are empty iff nothing was supplied, and executing them on any row is the patch |
| SuperAdmins.BuildProfileUpdate | backend/routes/superAdmins.js:241-259 | the arrays are the supplied fields in the order email, full_name, numbered $1..$n, with the id as $(n+1). They are empty iff neither was supplied, and executing them on any row is the patch of those two fields |
| SuperAdmins.UpdateKeepsValid | backend/routes/superAdmins.js:301-313 | writing a row whose e-mail no other account holds keeps e-mails unique and locks consistent |
| SuperAdmins.UpdateSuperAdmin | backend/routes/superAdmins.js:279-372 | an unknown id gives 404 first, then an e-mail another id holds gives 409, then an empty SET list gives 400, then a patched e-mail another row holds fails with 500. Exactly when none of these applies the update succeeds (column widths are not modelled), and then only the supplied fields of that row change. A refusal changes nothing |
| SuperAdmins.UpdateOwnProfile | backend/routes/superAdmins.js:205-277 | it needs a truthy field. A truthy e-mail is pattern-checked and uniqueness-checked; an e-mail that is not undefined is written. When the checks pass and the written e-mail is free the update succeeds. So an empty e-mail is written unchecked when a name is given |
| SuperAdmins.DeleteRefusedIffOnlyActive | backend/routes/superAdmins.js:381-390 | a delete is refused iff the target is the only active super-admin |
| SuperAdmins.DeleteKeepsAnActiveSuperAdmin | backend/routes/superAdmins.js:381-390 | a delete that is not refused leaves at least one active super-admin |
| SuperAdmins.DeleteSuperAdmin | backend/routes/superAdmins.js:374-417 | it refuses (400) the last active target. An absent id gives 404. Otherwise exactly that row is removed, and its id, e-mail and name are returned |
| SuperAdmins.ChangePassword | backend/routes/superAdmins.js:419-478 | both fields are required, then length >= 8 in UTF-16 code units, then the account must exist, then the current password must match (else 401). When all pass the change succeeds, and it changes only password_hash |
| SuperAdmins.PasswordChangeKeepsLockout | backend/routes/superAdmins.js:463-466 | changing the password does not lift an active lock |
| SuperAdmins.LegacyCleared | backend/routes/superAdmins.js:621-627 | a legacy reset clears the token, the expiry, the counter and the lock together, and keeps everything else |
| SuperAdmins.RequestLegacyReset | backend/routes/superAdmins.js:541-584 | the raw token is stored with a one-hour expiry, and returned in the body, only for an active account. Otherwise nothing changes |
| SuperAdmins.LegacyResetPassword | backend/routes/superAdmins.js:586-640 | it needs both fields, then length >= 8 in UTF-16 code units, then a matching, unexpired token on an active row; with such a row the reset succeeds. Only that row is rehashed and cleared |
| SuperAdmins.LegacyTokenLifetime | backend/routes/superAdmins.js:564-627 | a requested token matches strictly before its expiry and never after it has been used |
| AdminUsers.Filters | backend/routes/adminUsers.js:30-51 | one filter per present query value, in the order role, status, search |
| AdminUsers.FiltersAreRequested | backend/routes/adminUsers.js:30-51 | every filter comes from a present query value and carries that value |
| AdminUsers.BuildListQuery | backend/routes/adminUsers.js:30-51 | one condition and one parameter per filter, numbered in order. The search reuses one placeholder for name and e-mail and wraps the term as %term% |
| AdminUsers.LikeTermOfWrapped | backend/routes/adminUsers.js:46-47 | the wrapped term's ILIKE pattern is a case-insensitive substring test for the term |
| AdminUsers.FiltersMeanSelected | backend/routes/adminUsers.js:30-51 | a row passes all filters iff it matches the requested role, status and search |
| AdminUsers.ConditionsMeanFilters | backend/routes/adminUsers.js:30-51 | the numbered WHERE conditions hold iff every filter holds |
| AdminUsers.BuiltQuerySelects | backend/routes/adminUsers.js:30-51 | the built WHERE clause selects exactly the matching rows |
| AdminUsers.SelectionsAgree | backend/routes/adminUsers.js:30-53 | over a whole table, the built WHERE clause returns exactly the ids of the matching rows |
| AdminUsers.ListAdminUsers | backend/routes/adminUsers.js:9-66 | the list is exactly the rows matching the filters |
| AdminUsers.NoFiltersSelectAll | backend/routes/adminUsers.js:30-51 | with no query values there is no filter and every row is listed |
| AdminUsers.CreateAdminUser | backend/routes/adminUsers.js:110-179 | required fields, then the pattern, then length >= 8 in UTF-16 code units, then a duplicate (409); when all pass the row is inserted. Role defaults to 'admin' and status to 'active'. The result has no password hash |
| AdminUsers.PutAppliesPatch | backend/routes/adminUsers.js:221-257 | the PUT's SET list updates exactly the supplied columns |
| AdminUsers.PutStatementPerformsPatch | backend/routes/adminUsers.js:221-272 | the PUT's statement binds every placeholder, puts the id last, is empty iff nothing was sent, and performs the patch on any row |
| AdminUsers.BuildPut | backend/routes/adminUsers.js:221-272 | the arrays are the supplied fields in the order email, full_name, role, status, phone, department, numbered $1..$n, with the id as $(n+1). The list is empty iff nothing was supplied, and executing it is the patch |
| AdminUsers.UpdateKeepsUnique | backend/routes/adminUsers.js:205-217 | writing a row whose e-mail no other account holds keeps e-mails unique |
| AdminUsers.UpdateAdminUser | backend/routes/adminUsers.js:181-288 | 404 for an unknown id, then 409 for another id's e-mail, then 400 for an empty SET list, then 500 when the patched e-mail is another row's. Exactly when none of these applies the update succeeds (column widths are not modelled), and only the supplied fields change |
| AdminUsers.DeleteAdminUser | backend/routes/adminUsers.js:290-320 | the delete is unconditional. It gives 404 iff no row was removed, and otherwise returns the removed row's id, e-mail and name |
| Analytics.LastIndex | backend/routes/analytics.js:30-32 | finds the last row for a status, or none iff no row has it |
| Analytics.StatusBreakdown | backend/routes/analytics.js:22-32 | the keys are the five statuses plus any returned. Each holds the count of the last row for it, or 0 |
| Analytics.GroupedBreakdown | backend/routes/analytics.js:22-32 | for grouped rows over the five statuses, the keys are exactly the five. Each row's count appears, and a status with no row is 0 |
| Analytics.StatusCategory | backend/routes/analytics.js:116-120 | resigned maps to 'resigned', approved to 'active', and anything else to 'other' |
| Analytics.CountedCategories | backend/routes/analytics.js:116-123 | only approved and resigned doctors land in a counted category |
| Analytics.Distribution | backend/routes/analytics.js:127-136 | the keys are exactly active and resigned, each 0 unless a row carries it |
| Analytics.OtherCategoryIgnored | backend/routes/analytics.js:132-136 | a row of any other category changes nothing |
| Analytics.MonthlySeriesAppend | backend/routes/analytics.js:94-97 | the series of concatenated rows is the concatenation of the series |
| Analytics.MonthlySeriesReadsCounts | backend/routes/analytics.js:54-67 | each month's point carries the count the query computed, read back from its decimal text by parseInt, in the query's month order |
| Js.IncludesEmpty | src/components/DoctorApplications.tsx:102-107 | every string includes the empty string |
| Js.EmptyTermMatches | src/components/DoctorApplications.tsx:102-107 | an empty search term matches every name |
| Js.ToLowerIdempotent | src/components/DoctorApplications.tsx:102-107 | lower-casing an already lower-cased text changes nothing |
| Js.LowerOfUpper | src/components/DoctorApplications.tsx:102-107 | lower-casing the upper-cased text is lower-casing the text |
| Js.MatchesTermIgnoresCase | src/components/DoctorApplications.tsx:102-107 | the search's answer is the same whether the text or the term is first lower- or upper-cased |
| Js.FilterKeepsExactly | src/components/DoctorManagement.tsx:64-72 | `filter` keeps exactly the elements that pass |
| Js.FilterAppend | src/components/DoctorManagement.tsx:64-72 | `filter` keeps order: it distributes over concatenation |
| Js.FilterCount | src/components/DoctorManagement.tsx:71-72 | the filtered list's length is the number of positions whose element passes |
| Js.FilterSameTest | src/components/DoctorApplications.tsx:40-47 | two tests that agree on every element filter alike |
| Js.FilterAll | src/components/DoctorManagement.tsx:64-69 | when every element passes the list is kept whole |
| Js.FilterNone | src/components/Sidebar.tsx:30-35 | when no element passes the filter keeps nothing |
| Js.FilterStep | src/components/DoctorManagement.tsx:71-72 | the first element adds one to the filtered length exactly when it passes |
| Js.Utf16Length | backend/routes/superAdmins.js:161 | `.length` counts UTF-16 code units: between one and two per character |
| Js.Utf16LengthAppend | backend/routes/superAdmins.js:161 | lengths add up over concatenation |
| Js.Utf16LengthOfBmp | backend/routes/superAdmins.js:161 | for characters of the Basic Multilingual Plane the length is the character count |
| Js.FourEmojiAreEight | backend/routes/superAdmins.js:161 | four emoji are four characters but eight code units, so they meet the 8-character minimum |
| Js.DecimalString | src/services/doctorService.ts:116 | `String(n)` of a natural number is never empty |
| Js.DecimalRoundTrip | src/services/doctorService.ts:116 | reading back `String(n)` gives n |
| Js.DecimalStringInjective | src/services/doctorService.ts:116 | distinct ids print differently |
| DoctorService.AuthorizationHeader | src/services/doctorService.ts:6-12 | the header is "Bearer " + token when a non-empty token is stored, and "" exactly otherwise |
| DoctorService.StoredTokenReachesBackend | src/services/doctorService.ts:6-12 | the middleware reads the stored token back out of that header, and with no token it reads none |
| DoctorService.MapDoctorToApplication | src/services/doctorService.ts:114-128 | the id is the decimal form of the record's id. The status is the record's when truthy, else 'new', so never empty. Experience reads years_of_experience. The other fields pass through |
| DoctorService.MapDoctorToManaged | src/services/doctorService.ts:177-190 | the status is 'resigned' iff the record's is 'resigned', else 'active'. dateJoined is updated_at when truthy, else created_at. The phone is country code + " " + number. Experience reads year_of_experience |
| DoctorService.MappedIdsIdentifyDoctors | src/services/doctorService.ts:116 | both views' string ids are equal iff the records' ids are, and the two views agree on them |
| DoctorService.ExperienceColumnsDiffer | src/services/doctorService.ts:122 | a record carrying only years_of_experience shows its years in applications but "undefined years" in management |
| DoctorService.ApprovedDoctorViews | src/services/doctorService.ts:182 | an approved doctor is 'approved' in applications and 'active' in management |
| DoctorApplications.TabCountIsListLength | src/components/DoctorApplications.tsx:40-47 | each tab's count, including 'all' as the list length, is the number of rows shown on that tab with an empty search |
| DoctorApplications.FilteredList | src/components/DoctorApplications.tsx:102-107 | the list shows exactly the applications whose lower-cased name or specialization contains the lower-cased term, on 'all' or their status's tab, in the fetched order and once per occurrence |
| DoctorApplications.StatusCount | src/components/DoctorApplications.tsx:40-47 | a tab's count is the number of applications with exactly that status |
| DoctorApplications.NoFilterKeepsAll | src/components/DoctorApplications.tsx:102-107 | an empty term on 'all' keeps the list unchanged |
| DoctorApplications.WithStatusFor | src/components/DoctorApplications.tsx:79-83 | order and length are kept. Only the status changes, and only for the application with the id |
| DoctorApplications.UpdateOfAbsentId | src/components/DoctorApplications.tsx:79-83 | an id no application has changes nothing |
| DoctorApplications.UpdateMovesOneCount | src/components/DoctorApplications.tsx:40-47 | updating the one application with the id moves one count from its old status's tab to the new one's; the other tabs keep theirs |
| DoctorApplications.FormStatusesPermitted | src/components/DoctorApplications.tsx:94-100 | the form's statuses are permitted to every role |
| DoctorApplications.ApplicationsPage.constructor | src/components/DoctorApplications.tsx:11-20 | the initial state: empty list, loading, no selection, 'new' |
| DoctorApplications.ApplicationsPage.LoadDoctors | src/components/DoctorApplications.tsx:26-38 | a successful fetch replaces the list, and a failure keeps it and sets the load error |
| DoctorApplications.ApplicationsPage.HandleStatusUpdate | src/components/DoctorApplications.tsx:69-92 | approving or rejecting without the super-admin role only sets the error, with no call. Otherwise the call is made; success updates only the matching id, and failure keeps the list and sets the error |
| DoctorApplications.ApplicationsPage.HandleFormStatusUpdate | src/components/DoctorApplications.tsx:69-100 | without a selection nothing changes. With one it updates that application as HandleStatusUpdate does (a thrown call sets the error, the update flag ends false) and resets the selection to '' and the status to 'new' |
| DoctorManagement.CountsCoverList | src/components/DoctorManagement.tsx:71-72 | when every status is active or resigned, the two counts add up to the list's length |
| DoctorManagement.StatusCount | src/components/DoctorManagement.tsx:71-72 | the active and resigned counts are the numbers of doctors with exactly that status |
| DoctorManagement.FilteredList | src/components/DoctorManagement.tsx:64-69 | the list shows exactly the doctors matching the term with 'all' or their status, in the loaded order and once per occurrence |
| DoctorManagement.MappedCountsCoverList | src/components/DoctorManagement.tsx:71-72 | for mapped records the two counts always add up to the list's length |
| DoctorManagement.NoFilterKeepsAll | src/components/DoctorManagement.tsx:64-69 | an empty term with 'all' keeps every doctor |
| DoctorManagement.Resigned | src/components/DoctorManagement.tsx:51-55 | only the doctor with the id becomes 'resigned'; order, length and every other field stay |
| DoctorManagement.ResignAbsentId | src/components/DoctorManagement.tsx:51-55 | an unknown id changes nothing |
| DoctorManagement.ResignMovesCount | src/components/DoctorManagement.tsx:71-72 | resigning the doctor with the id moves it from its status's count to the resigned count |
| DoctorManagement.ResignMovesOne | src/components/DoctorManagement.tsx:208 | resigning an active doctor moves one from active to resigned, and it is no longer offered the action |
| DoctorManagement.ManagementPage.constructor | src/components/DoctorManagement.tsx:7-13 | the initial state: empty list, loading, not resigning |
| DoctorManagement.ManagementPage.LoadApprovedDoctors | src/components/DoctorManagement.tsx:19-31 | a successful fetch replaces the list, and a failure keeps it and sets the error |
| DoctorManagement.ManagementPage.HandleResignDoctor | src/components/DoctorManagement.tsx:47-62 | success resigns only the matching doctor, and failure keeps the list and sets the error |
| App.DeriveRole | src/App.tsx:42-48 | userType 'super_admin' gives super_admin; otherwise role 'moderator' gives moderator; otherwise admin |
| App.RestoredRoleMatchesLogin | src/App.tsx:42-48 | the role restored from a stored login response is super_admin for a super-admin login and never super_admin for an admin login |
| App.SectionShown | src/App.tsx:57-81 | a non-super-admin on settings or profile, and any unknown section, gets the applications view; every other known section gets its own view |
| App.AdminPagesNeedSuperAdmin | src/App.tsx:57-81 | the profile and settings views are shown only to super-admins, and always to them |
| App.MenuItemsOpenTheirSection | src/components/Sidebar.tsx:59 | every menu item a role sees opens its own section without a redirect |
| App.ScreenOf | src/App.tsx:96-123 | the dashboard shows iff authenticated; otherwise the auth view selects the reset, forgot or login page |
| App.Shell.constructor | src/App.tsx:17-21 | the initial state: applications, unauthenticated, super_admin, the login view |
| App.Shell.RestoreSession | src/App.tsx:23-55 | a token in the URL selects the reset view and skips the stored session. With a stored token and user the session is restored with the derived role. A user that does not parse removes both keys and leaves the state as it was. A user that parses to null authenticates with the previous role and then removes both keys |
| App.Shell.RenderActiveSection | src/App.tsx:57-81 | it renders SectionShown, and resets the section to applications exactly when redirecting |
| App.Shell.SelectMenuItem | src/components/Sidebar.tsx:59 | the active section becomes the item's id |
| App.Shell.HandleLogin | src/App.tsx:83-86 | it authenticates with the given role, defaulting to super_admin |
| App.Shell.HandleLogout | src/App.tsx:88-93 | it logs out, resets the section to applications and removes both storage keys |
| App.Shell.ShowForgotPassword | src/App.tsx:117-121 | the auth view becomes forgot-password |
| App.Shell.BackToLogin | src/App.tsx:97-102 | the auth view becomes login |
| App.Shell.ResetFinished | src/App.tsx:105-112 | a finished reset returns to login and clears the token |
| Sidebar.VisibleMenuKeepsExactly | src/components/Sidebar.tsx:30-35 | the menu a role sees holds exactly the items that role may see |
| Sidebar.SuperAdminSeesAll | src/components/Sidebar.tsx:20-35 | a super-admin sees all seven items in declaration order |
| Sidebar.CommonItemsShown | src/components/Sidebar.tsx:20-35 | the five unflagged items are shown to every role |
| Sidebar.SuperAdminItemsHidden | src/components/Sidebar.tsx:26-35 | the flagged items are hidden from other roles |
| Sidebar.CommonItemsExcludeAdminPages | src/components/Sidebar.tsx:20-25 | no unflagged item is profile or settings |
| Sidebar.OthersSeeFive | src/components/Sidebar.tsx:26-35 | any other role sees exactly the five unflagged items, never profile or settings |
| ProfilePage.ProfileDiff | src/components/SuperAdminProfile.tsx:61-69 | a field is sent iff its edited value differs from the loaded profile, and then with the edited value |
| ProfilePage.DiffRoundTrip | src/components/SuperAdminProfile.tsx:61-74 | applying the sent fields to the profile gives the edited values, and nothing is sent iff nothing was edited |
| PasswordForm.Problem | src/components/SuperAdminProfile.tsx:93-101 | both password forms refuse a new password shorter than their minimum in UTF-16 code units first, then a mismatched confirmation; anything else passes |
| PasswordForm.AcceptedIsTruthy | src/components/ResetPasswordPage.tsx:60-68 | with a positive minimum, a password the form passes and its confirmation are non-empty |
| ProfilePage.FormPasswordMeetsBackend | src/components/SuperAdminProfile.tsx:93-101 | a password the form passes meets the back end's 8-character minimum |
| ProfilePage.ProfileState.constructor | src/components/SuperAdminProfile.tsx:11-25 | the initial state |
| ProfilePage.ProfileState.HandleEditToggle | src/components/SuperAdminProfile.tsx:46-53 | cancelling restores the edited name and e-mail from the profile; the mode flips and the error clears |
| ProfilePage.ProfileState.HandleUpdateProfile | src/components/SuperAdminProfile.tsx:55-87 | with no difference there is no request and editing ends. Otherwise the difference is sent; success shows the new profile and the message, and failure shows the error |
| ProfilePage.ProfileState.HandleChangePassword | src/components/SuperAdminProfile.tsx:89-122 | a form error means no request. Otherwise the request carries the current and new passwords; success clears all three inputs, and failure keeps them and shows the error |
| ResetPasswordPage.ErrorShown | src/components/ResetPasswordPage.tsx:40-46 | the server's error when truthy, else the default, or the connection message when nothing came back |
| ResetPasswordPage.VerifyVerdict | src/components/ResetPasswordPage.tsx:38-46 | the page takes a token as valid iff the back end verified it, shows that token's e-mail, and shows the back end's reason for a refusal |
| ResetPasswordPage.ResetVerdict | src/components/ResetPasswordPage.tsx:85-96 | the page reports success iff the back end reset the password, and otherwise shows its reason |
| ResetPasswordPage.FormPasswordMeetsBackend | src/components/ResetPasswordPage.tsx:60-68 | a password the form passes meets the back end's 6-character minimum |
| ResetPasswordPage.ViewOf | src/components/ResetPasswordPage.tsx:101-195 | precedence: verifying, then an invalid token, then success, then the form |
| ResetPasswordPage.ResetPage.constructor | src/components/ResetPasswordPage.tsx:10-19 | the initial state: verifying, with no valid token |
| ResetPasswordPage.ResetPage.VerifyToken | src/components/ResetPasswordPage.tsx:25-54 | the token is valid iff the response is ok with success, and then the e-mail is shown. Otherwise the error is set. Verifying ends either way |
| ResetPasswordPage.ResetPage.HandleSubmit | src/components/ResetPasswordPage.tsx:56-99 | a form error means no request. Otherwise the token and new password are sent; an accepted response shows success, and anything else shows the error |

## Left out

- Database access is not modelled: SQL text, the connection pool and `ORDER BY`. Tables are in-memory maps, and each handler is one atomic step. The UNIQUE-violation 500 of an UPDATE is modelled (UpdateFailed). What is left out is a duplicate INSERT that races past the route's own duplicate check: with one atomic step per handler, that check always sees the current table.
- Concurrency is not modelled. Interleaved requests can race on the read-then-write counter update.
- bcrypt, SHA-256, `crypto.randomBytes`, `jwt.sign` and `jwt.verify` are parameters, not implementations. A signed token is represented by its claims.
- E-mail delivery (`backend/utils/emailService.js`) is SMTP I/O; the model only returns the message it would send.
- The front end's `fetch` calls, JSON parsing, timers (`setTimeout` message clearing, the reset page's redirect delay) and `window.history` are left out. Each awaited call's outcome is a parameter.
- JSON `null`, numbers and other non-string request values are not modelled. A request value is either `undefined` or a string.
- `toLowerCase` is ASCII-only, and the regular expression's `\s` is the ASCII and common Unicode space set. The model does no full Unicode case folding.
- `parseInt` of the status-count columns is not modelled: those counts are natural numbers. The monthly series does read its counts from their decimal text.
- Non-numeric `:id` path parameters are not modelled. The source passes the raw text to `WHERE id = $1`, PostgreSQL rejects it, and the route answers 500; the id-taking handlers (SuperAdmins.UpdateSuperAdmin, SuperAdmins.DeleteSuperAdmin, SuperAdmins.ChangePassword on `/:id/change-password`, AdminUsers.UpdateAdminUser, AdminUsers.DeleteAdminUser) take an integer id.
- `%` and `_` inside an ILIKE search term are not treated as wildcards. AdminUsers.LikeTermOfWrapped reads the pattern as a plain substring test.
- Read-only routes with no logic beyond a query are left out: the super-admin list and `GET /:id`, `GET /profile/me`, the admin-user `GET /:id`, the overview totals and the clinics-growth query.
- The login page's role mapping is not modelled; it repeats App.DeriveRole.
- SuperAdmins.UpdateOwnProfile requires that the authenticated id is present in the table. The middleware guarantees this by checking for an active row first.
- DoctorApplications.ApplicationsPage.HandleFormStatusUpdate requires that the chosen status is one the form offers. The component's state type guarantees this.
- SuperAdmins.LegacyResetPassword resets one of the rows that hold the token when several do, without saying which. The source resets the first row the database returns, and its order is not modelled.
- Rendering is not modelled: the status badges, the detail modal (`selectedApplication`), the loading spinners and the profile page's initial load.
- Store.Database.constructor models the empty tables. The DDL in `backend/setup_super_admin.js` declares only `super_admins`; it gives that table's columns and its UNIQUE e-mail.
- Store.UniqueAdminEmails is assumed, not read from a DDL: no admin_users DDL is part of this model. Both admin-user routes answer 409 "An admin user with this email already exists" (backend/routes/adminUsers.js:150-155, 211-216), which is consistent with a UNIQUE e-mail. AdminUsers.UpdateAdminUser's 500 on a patched e-mail another row holds rests on this assumption.
- SuperAdmins.CreateSuperAdmin: the success converse does not model the column widths of `super_admins`, which are VARCHAR(255) for email and full_name and VARCHAR(50) for status and phone. A longer value makes the INSERT fail, and the route answers 500 (backend/routes/superAdmins.js:182-188, 196-200); the model's converse promises success.
- SuperAdmins.UpdateSuperAdmin: the same column widths are not modelled. An over-long value makes the UPDATE fail with 500, where the converse promises success.
- SuperAdmins.UpdateOwnProfile: the same column widths are not modelled. An over-long e-mail or full name makes the UPDATE fail with 500, where the converse promises success.
- AdminUsers.CreateAdminUser: no width limit on admin_users columns is modelled. Their widths are not part of this model, and an over-long value that the database rejects would give 500.
- AdminUsers.UpdateAdminUser: no width limit on admin_users columns is modelled, for the same reason as AdminUsers.CreateAdminUser.
- `src/types/doctor.ts` is not part of this model. The doctor record's fields are taken from the mappers that read them.
