# Time tracker: verified model of the time-tracking core

This project models the server-side core of a small multi-tenant time tracker,
a Next.js application backed by Supabase. The modelled parts are:

- **The work-session lifecycle.** Clock-in opens a session for the signed-in
  user. Clock-out closes it. Current-session reports the open session with its
  running duration. The session listing filters, orders and pages the user's
  sessions.
- **The duration record** the routes attach to a session (milliseconds,
  hours, `"{h}h {m}m"`, `"HH:MM:SS"`), and the `LiveTimer` component's own
  `HH:MM:SS` arithmetic.
- **Project creation and listing.** This covers the `createProjectSchema`
  validation, the inserted row's defaults, and the organization-scoped listing,
  newest first.
- **Signup.** This covers the `signupSchema` validation with its password
  refinement. It also covers the provisioning sequence: find or create the auth
  account, insert the organization, tag the account, create the admin profile.
  The compensating deletes are included.
- **The team page's helpers**: `getInitials`, `getRoleColor` and the role counts.

## How the store is modelled

- **The database.** The database and the auth service form one `Db.Database`
  object. Its fields are the tables the handlers change: `authUsers`,
  `organizations`, `profiles` (a map keyed by id), `projects` and `sessions`.
  Clock-in, clock-out, project creation and signup are methods of that object.
  Each method modifies only the fields its route writes.
- **Read-only routes.** Current-session, the session listing and the project
  listing only read. They are functions of the table values, so they cannot
  change them.
- **Failing calls.** Every round trip to Supabase that can fail is a `Call`.
  Each handler receives the set `failing` of calls that fail during the request.
- **`.single()` queries.** A query ending in `.single()` yields `Found(row)`,
  `NoRows` or `Failed`. `NoRows` is PostgREST's PGRST116 code, which PostgREST
  returns both for zero rows and for more than one row.
- **Generated ids.** Uuids are parameters (`newId`, `newUserId`, `newOrgId`).
  An id already present in its table makes the insert fail, like a primary-key
  violation.
- **Other parameters.** The current time (`now`) is a parameter. The zod
  `.uuid()` and `.email()` checks are predicate parameters (`isUuid`,
  `isEmail`).
- **Request bodies.** A request body is `Unparseable` (invalid JSON, which the
  route's catch-all turns into 500 "Internal server error"), `NotAnObject`, or
  an object whose relevant keys hold `JVal` values.
- **Validation failures.** A schema failure becomes 400 "Validation error".
- **Timestamps** are integer milliseconds.
- **Arithmetic.** The routes' floating-point arithmetic is modelled with exact
  reals, and JavaScript's truncating `%` is written out (`JsRem`, `JsFrac`).

## Model

| member | source | states |
|---|---|---|
| Common.Single | src/app/api/time/clock-in/route.ts:40-60 | `.single()` finds a row exactly when the query works and matches exactly one row, and that row is the match; a failing query is `Failed`, anything else is the no-rows code |
| Common.Utf16Length | src/app/api/auth/signup/route.ts:11 | a string's JavaScript `.length` lies between its number of characters and twice that, and equals it exactly when no character lies outside the Basic Multilingual Plane |
| Common.BodyRejection | src/app/api/projects/route.ts:146-158 | a body that fails to parse is answered 500 "Internal server error"; a schema failure is answered 400 "Validation error" |
| Tables.CallerProfile | src/app/api/time/clock-in/route.ts:26-37 | the caller's profile is available exactly when the profile query works and a row exists for the caller, and it is that row |
| Seqs.Filter | src/app/api/time/sessions/route.ts:60-75 | the kept rows all satisfy the condition, every row that satisfies it is kept, and the result is a sub-multiset of the input |
| Seqs.FilterMultiplicity | src/app/api/time/sessions/route.ts:60-75 | filtering keeps each row that satisfies the condition exactly as many times as it occurs in the input, and no other row, so the filtered rows are a permutation of the matching rows |
| Seqs.InsertDesc | src/app/api/time/sessions/route.ts:61 | inserting into a descending sequence keeps it descending and adds exactly the new element |
| Seqs.SortDesc | src/app/api/time/sessions/route.ts:61 | `.order(..., { ascending: false })` yields a descending permutation of its input |
| Seqs.Window | src/app/api/time/sessions/route.ts:62 | `.range(offset, offset + limit - 1)` yields at most `limit` rows, namely the rows from position `offset` on |
| Seqs.WindowsAdjacent | src/app/api/time/sessions/route.ts:35-36 | a page of `a` rows followed by the page starting where it ends is the page of `a + b` rows: paging by `offset += limit` skips and repeats nothing |
| WorkSessions.ActiveLookupFound | src/app/api/time/clock-out/route.ts:34-40 | a row the open-session lookup finds is an open session of the caller and is in the table, in any state |
| WorkSessions.OpenOf | src/app/api/time/clock-in/route.ts:40-44 | definition: the rows `.eq('user_id', uid).is('end_time', null)` matches, in table order; its properties are stated by `WorkSessions.OpenOfNonEmpty`, `WorkSessions.AtMostOneOpenCount` and `WorkSessions.OpenOfAppend` |
| WorkSessions.ActiveLookup | src/app/api/time/clock-in/route.ts:40-60 | definition: `.single()` over those rows, so several open rows give the no-rows code and the handlers treat them as none; its properties are stated by `WorkSessions.ActiveLookupFound` and `WorkSessions.ActiveLookupUnderInvariant` |
| WorkSessions.OpenOfNonEmpty | src/app/api/time/clock-in/route.ts:40-45 | the open-session query matches some row exactly when the user has an open session |
| WorkSessions.AtMostOneOpenCount | src/app/api/time/clock-in/route.ts:40-60 | under the one-open-session invariant, the query matches at most one row, and exactly one when the user has an open session |
| WorkSessions.ActiveLookupUnderInvariant | src/app/api/time/clock-in/route.ts:40-60 | under the invariant and with a working query, the lookup finds a row exactly when the user has an open session, and reports no rows exactly when the user has none |
| WorkSessions.SetEndTime | src/app/api/time/clock-out/route.ts:63-69 | `.update({ end_time }).eq('id', id)` changes only `end_time`, only of rows with that id, and keeps every other row |
| WorkSessions.SetEndTimeAt | src/app/api/time/clock-out/route.ts:63-69 | with unique ids, the update changes exactly the one row that has that id |
| WorkSessions.CloseFound | src/app/api/time/clock-out/route.ts:34-69 | the update of the found row closes it, keeps ids unique, and under the invariant keeps the invariant and leaves the caller with no open session |
| WorkSessions.CloseOnlyOpen | src/app/api/time/clock-out/route.ts:34-69 | closing the user's only open session leaves the user with none, and keeps the invariant and the set of ids |
| WorkSessions.OpenForIdle | src/app/api/time/clock-in/route.ts:84-102 | appending an open session under a fresh id, for a user with none, keeps the invariant and unique ids, and leaves that user with exactly one |
| WorkSessions.OpenOfAppend | src/app/api/time/clock-in/route.ts:84-102 | after the append, the open-session query of a user who had none matches exactly the new row |
| WorkSessions.RunningView | src/app/api/time/current-session/route.ts:76-91 | an open session is reported active, and its duration runs from its start to now |
| WorkSessions.FinishedView | src/app/api/time/sessions/route.ts:92-103 | a closed session is reported inactive, and its duration runs from its start to its end time |
| Duration.NatToDecimal | src/app/api/time/clock-out/route.ts:102-103 | `toString()` of a non-negative integer is a non-empty digit string without a leading zero, one digit long exactly below 10 |
| Duration.DecimalRoundTrip | src/app/api/time/clock-out/route.ts:102-103 | reading back the decimal rendering gives the number again |
| Duration.IntToDecimal | src/app/api/time/clock-out/route.ts:102 | a negative integer renders as `-` followed by the digits of its magnitude |
| Duration.PadStart | src/components/LiveTimer.tsx:24 | `padStart` pads on the left with the fill character up to the width, keeps the string as its suffix, and never truncates |
| Duration.Pad2Value | src/components/LiveTimer.tsx:24 | a padded non-negative field is all digits, denotes the same number, has at least two characters, and exactly two below 100 |
| Duration.Pad2 | src/components/LiveTimer.tsx:24 | definition: `n.toString().padStart(2, '0')`; its property is stated by `Duration.Pad2Value` |
| Duration.ClockString | src/app/api/time/clock-out/route.ts:103 | definition: the `HH:MM:SS` template of three padded fields; its inverse is `Duration.ParseClockString`, proved by `Duration.ClockStringRoundTrip` |
| Duration.Breakdown | src/components/LiveTimer.tsx:20-22 | the hours, minutes and seconds of a non-negative count: minutes and seconds below 60, and together they rebuild the count to within one second |
| Duration.JsRem | src/components/LiveTimer.tsx:21-22 | JavaScript `%` agrees with the mathematical remainder on a non-negative dividend and takes the dividend's sign otherwise |
| Duration.JsFrac | src/app/api/time/clock-out/route.ts:102 | `x % 1` is the fractional part in [0, 1) for non-negative `x`, and lies in (-1, 0] otherwise |
| Duration.FloorOfQuotient | src/app/api/time/clock-out/route.ts:102-103 | `Math.floor(a / b)` over exact reals equals integer floor division |
| Duration.RouteDuration | src/app/api/time/clock-out/route.ts:99-104 | the record's `milliseconds` is the count it was built from |
| Duration.HoursOf | src/app/api/time/clock-out/route.ts:94 | definition: `durationMs / (1000 * 60 * 60)` over exact reals; its property is stated by `Duration.RouteDurationHours` |
| Duration.RouteFields | src/app/api/time/clock-out/route.ts:102-103 | definition: `Math.floor(hours)`, `Math.floor((hours % 1) * 60)` and `Math.floor((ms % 60000) / 1000)`; its property is stated by `Duration.RouteFieldsExact` |
| Duration.RouteDurationHours | src/app/api/time/clock-out/route.ts:94-101 | `hours` is exactly the number of hours in `milliseconds` (under exact arithmetic), and is non-negative for a non-negative count |
| Duration.RouteFieldsExact | src/app/api/time/clock-out/route.ts:102-103 | the routes' float recipe (floor of hours, floor of the fractional hour times 60, floor of ms mod 60000 over 1000) equals the exact integer breakdown |
| Duration.RouteDurationFormats | src/app/api/time/clock-out/route.ts:99-104 | for a non-negative count, `formatted` is "{h}h {m}m" and `formattedWithSeconds` is the padded HH:MM:SS of the breakdown, with minutes and seconds below 60 |
| Duration.ParseClockString | src/components/LiveTimer.tsx:24 | a string that parses as HH:MM:SS has its two colons in the last fields' places |
| Duration.ClockStringRoundTrip | src/components/LiveTimer.tsx:24 | the HH:MM:SS text of any bounded clock reads back as that clock, so hours of 100 or more are not cut |
| Duration.OneHourTwentyThree | src/app/api/time/sessions/route.ts:98-103 | 5025000 ms is formatted "1h 23m" and "01:23:45" |
| LiveTimer.TimerFieldsAreBreakdown | src/components/LiveTimer.tsx:16-22 | for a non-negative elapsed time, the timer's div/mod fields are the hours, minutes and seconds of `now - start` |
| LiveTimer.TimerFields | src/components/LiveTimer.tsx:18-22 | definition: the timer's hours, minutes and seconds from `now - start` with JavaScript's `%`; its properties are stated by `LiveTimer.TimerFieldsAreBreakdown` and `LiveTimer.TimerFieldBounds` |
| LiveTimer.TimerText | src/components/LiveTimer.tsx:24 | definition: the padded `HH:MM:SS` of those fields; its properties are stated by `LiveTimer.TimerMatchesRoutes` and `LiveTimer.TimerTextReadsBack` |
| LiveTimer.TimerFieldBounds | src/components/LiveTimer.tsx:20-22 | minutes and seconds lie in 0..59, and hours·3600000 + minutes·60000 + seconds·1000 ≤ diff < that + 1000 |
| LiveTimer.TimerMatchesRoutes | src/components/LiveTimer.tsx:20-24 | for a non-negative elapsed time, the timer text equals the routes' `formattedWithSeconds` for the same count |
| LiveTimer.TimerTextReadsBack | src/components/LiveTimer.tsx:24 | the timer text reads back as the exact breakdown of the elapsed time |
| ClockIn.ValidateClockIn | src/app/api/time/clock-in/route.ts:6-9 | the body is accepted exactly when `project_id` is absent or a uuid string and `notes` is absent or a string; the accepted values are the body's; each failing key is reported |
| ClockIn.ParseClockInBody | src/app/api/time/clock-in/route.ts:63-64 | invalid JSON gives 500; the input is accepted exactly when the body is an object the schema accepts |
| ClockIn.NewSession | src/app/api/time/clock-in/route.ts:84-99 | the inserted row belongs to the caller, starts now, is open and billable, and takes `project_id` and `notes` from the body |
| ClockIn.ProjectVisible | src/app/api/time/clock-in/route.ts:67-81 | definition: the project `.single()` by id and the caller's organization finds a row; a failed query or a profile without an organization fails it. `Db.Database.ClockIn` and `Db.Database.StartSession` state the 404 it leads to |
| CurrentSession.GetCurrentSession | src/app/api/time/current-session/route.ts:10-96 | the decision tree: 401, 404, and 500 exactly when the lookup fails; with no open row (the no-rows code) `{ session: null, isActive: false }` whatever the table holds; otherwise 200 with `isActive` exactly when a session is reported; a reported session is an open session of the caller from the table, timed from its start to now |
| CurrentSession.CurrentSessionUnderInvariant | src/app/api/time/current-session/route.ts:55-74 | under the invariant, with a profile and a working query, the route succeeds and reports an active session exactly when the caller has an open one |
| CurrentSession.CurrentSessionFound | src/app/api/time/current-session/route.ts:77-96 | when the lookup finds a row, that row is reported active with `milliseconds` equal to now minus its start |
| SessionListing.Ordered | src/app/api/time/sessions/route.ts:60-75 | the listed candidates are exactly the caller's rows that pass the project and inclusive date filters, as a permutation, ordered by `start_time` descending |
| SessionListing.LimitOf | src/app/api/time/sessions/route.ts:35 | definition: `limit` defaults to 50; `SessionListing.PageOf` and `SessionListing.HasMoreMeaning` state the page it bounds |
| SessionListing.OffsetOf | src/app/api/time/sessions/route.ts:36 | definition: `offset` defaults to 0; `SessionListing.PageOf` states the page it starts |
| SessionListing.Matches | src/app/api/time/sessions/route.ts:60-75 | definition: the caller's rows, the project filter when `project_id` is non-empty, and inclusive `date_from`/`date_to` bounds on `start_time`; `SessionListing.Ordered` and `SessionListing.ListedRows` state that the listing keeps exactly these rows |
| SessionListing.View | src/app/api/time/sessions/route.ts:88-124 | a row is active exactly when `end_time` is null, and is timed to its end time, or to now while it runs |
| SessionListing.PageOf | src/app/api/time/sessions/route.ts:62 | the page has `min(limit, rows after offset)` entries, and entry i is the view of ordered row `offset + i` |
| SessionListing.ListSessions | src/app/api/time/sessions/route.ts:10-130 | 401 and 404 as the other routes; 500 "Failed to fetch sessions" exactly when the query fails; otherwise 200 with the page, `total` equal to the page length, and `hasMore` exactly when the page length equals `limit` |
| SessionListing.ListedRows | src/app/api/time/sessions/route.ts:60-124 | every listed row is the caller's, passes the filters and is in the table; it is active exactly when open; rows are ordered by start time descending |
| SessionListing.HasMoreMeaning | src/app/api/time/sessions/route.ts:126-130 | `hasMore` is false only on a page that reaches the last matching row, and an exactly full last page still reports `hasMore` |
| Projects.ProjectIssues | src/app/api/projects/route.ts:6-13 | a key is reported exactly when its schema check fails |
| Projects.IsHexColor | src/app/api/projects/route.ts:12 | definition: `/^#[0-9A-F]{6}$/i`, a `#` and six hexadecimal digits of either case; `Projects.ValidateProject` and `Projects.NewProject` state that accepted and inserted colours satisfy it |
| Projects.ValidateProject | src/app/api/projects/route.ts:6-13 | accepted exactly when every key passes: the name is non-empty, the rates are positive, the colour matches `/^#[0-9A-F]{6}$/i`; otherwise the issues are reported. An accepted input carries the body's name, description, client name, hourly rate, budget hours and colour, each absent exactly when its key is |
| Projects.ParseProjectBody | src/app/api/projects/route.ts:113-114 | invalid JSON gives 500; the input is accepted exactly when the body is an object the schema accepts |
| Projects.NewProject | src/app/api/projects/route.ts:117-131 | the row is an active project of the caller's organization, created by the caller, in the requested colour or `#3B82F6`; its name, description, client name, hourly rate and budget hours are the validated input's |
| Projects.ListProjects | src/app/api/projects/route.ts:15-73 | 401, 404, and 500 "Failed to fetch projects" exactly when the query fails; otherwise the organization's projects as a permutation, newest `created_at` first, with `total` equal to their count |
| Projects.ListedExactlyOrg | src/app/api/projects/route.ts:59-60 | a project is listed exactly when it is in the table and belongs to the caller's organization |
| Projects.CreatedProjectListed | src/app/api/projects/route.ts:59-60 | a project created in the caller's organization is listed for the caller |
| Signup.AstralPasswordLength | src/app/api/auth/signup/route.ts:11 | the password length counts code units: three emoji (six code units) pass `.min(6)`, two emoji and a letter (five) do not |
| Signup.SignupIssues | src/app/api/auth/signup/route.ts:8-18 | each key is reported exactly when its check fails; confirmPassword is also reported when the passwords differ and every key is a string |
| Signup.ValidateSignup | src/app/api/auth/signup/route.ts:8-18 | accepted exactly when all checks pass and the passwords match: a non-empty name, organization and subdomain, an email, a password of at least 6 UTF-16 code units (JavaScript's `.length`, which zod's `.min(6)` compares) |
| Signup.MismatchReported | src/app/api/auth/signup/route.ts:15-18 | differing passwords always reject the body, and are reported on confirmPassword exactly when no key had the wrong type |
| Signup.ParseSignupBody | src/app/api/auth/signup/route.ts:23-25 | invalid JSON gives 500; the input is accepted exactly when the body is an object the schema accepts |
| Signup.FindByEmail | src/app/api/auth/signup/route.ts:68-69 | `users.find` returns nothing exactly when no account has the email, and otherwise the first account that does |
| Signup.UsersWithAccount | src/app/api/auth/signup/route.ts:68-93 | an account registered under the email is reused and the list is unchanged; otherwise exactly the new account is appended, under the new id, with the full name and no organization |
| Signup.AccountId | src/app/api/auth/signup/route.ts:68-93 | the signup continues with the id of the first account registered under the email, or else with the new account's id |
| Signup.RemoveUser | src/app/api/auth/signup/route.ts:129 | `deleteUser` keeps exactly the accounts with another id |
| Signup.SetUserOrganization | src/app/api/auth/signup/route.ts:137-141 | the metadata update sets `organization_id` on the accounts with that id and changes nothing else |
| Signup.RemoveOrganization | src/app/api/auth/signup/route.ts:196 | the organization delete keeps exactly the organizations with another id |
| Signup.RemoveFreshUser | src/app/api/auth/signup/route.ts:78-93 | deleting a just-created account restores the account list exactly |
| Signup.RemoveAfterSetOrganization | src/app/api/auth/signup/route.ts:137-141 | deleting an account undoes the earlier metadata update of it |
| Signup.RemoveFreshOrganization | src/app/api/auth/signup/route.ts:116-124 | deleting a just-inserted organization restores the table exactly |
| Signup.RemoveAbsentUser | src/app/api/auth/signup/route.ts:129 | deleting an account that is not there changes nothing |
| Signup.AccountRemovable | src/app/api/auth/signup/route.ts:67-93 | deleting the account after the account step gives the list without that account, whether it was created or reused |
| Signup.Provision | src/app/api/auth/signup/route.ts:62-212 | a failing `listUsers` answers 500 "Failed to check or create user account" and a failing account creation answers 400 with the auth service's message, both changing nothing; a failing organization insert answers 500 "Failed to create organization", a failing profile step 500 "Failed to create user profile"; success, exactly when every step works, answers 200 with the account's id, the email, the full name, the new organization and role `admin` |
| Signup.SubdomainTaken | src/app/api/auth/signup/route.ts:41-52 | definition: the subdomain `.single()` found a row; a failed query or several matches leave the subdomain free. `Signup.SignupSpec` states the 400 it leads to |
| Signup.AccountStepOk | src/app/api/auth/signup/route.ts:67-110 | definition: `listUsers` works and, when no account has the email, `createUser` works under a fresh id; `Signup.Provision` states the 500 and 400 replies of its failures |
| Signup.OrgStepOk | src/app/api/auth/signup/route.ts:116-126 | definition: the organization insert works under a fresh id; `Signup.Provision` states the 500 of its failure and `Signup.FailedSignupLeavesNothing` the compensating delete |
| Signup.AdminProfile | src/app/api/auth/signup/route.ts:145-151 | definition: the profile row with the account's id, the new organization, the email, the full name and role `admin`; `Signup.SuccessfulSignup` and `Signup.SuccessfulSignupStores` state where it is inserted |
| Signup.ProfileStepFails | src/app/api/auth/signup/route.ts:154-192 | definition: no existing profile was found, and `getUserById` or the insert fails, a duplicate id included; `Signup.Provision` states the 500 it leads to and `Signup.FailedSignupLeavesNothing` the compensating deletes |
| Signup.SignupSpec | src/app/api/auth/signup/route.ts:20-227 | invalid JSON answers 500 "Internal server error" and a schema failure 400 "Validation error"; a signed-in caller gets 400 "User already authenticated" and a taken subdomain 400 "Organization subdomain already taken", each changing nothing; otherwise the outcome is `Signup.Provision`'s |
| Signup.EarlyRejectionsChangeNothing | src/app/api/auth/signup/route.ts:23-52 | a rejected body, a signed-in caller, a taken subdomain, or a failing account step answers with a failure and changes no store |
| Signup.FailedSignupLeavesNothing | src/app/api/auth/signup/route.ts:126-201 | a failed provisioning leaves organizations and profiles unchanged and adds no account; after the account step, the account it used is gone |
| Signup.FailedSignupLeavesNothingIfFailed | src/app/api/auth/signup/route.ts:126-201 | any failure of provisioning leaves organizations and profiles unchanged |
| Signup.SuccessfulSignup | src/app/api/auth/signup/route.ts:116-212 | success answers with an admin of the new organization, adds exactly that organization, gives the account a profile (the new admin profile unless one existed), and keeps every other account; a registered email reuses its account and adds none, otherwise exactly one account is added |
| Signup.SuccessfulSignupStores | src/app/api/auth/signup/route.ts:136-188 | after a success, a created admin profile is the only change to the profiles, and the account list is the one after the account step with the account's `organization_id` set to the new organization, unless the metadata update failed, which leaves it untouched |
| Signup.ReusedAccountDeletedOnOrgFailure | src/app/api/auth/signup/route.ts:126-134 | when the email belonged to an existing account and the organization insert fails, that pre-existing account is deleted |
| UsersPage.Split | src/app/users/page.tsx:66 | `split(' ')` gives at least one piece, and no piece contains a space |
| UsersPage.JoinSplit | src/app/users/page.tsx:66 | joining the pieces with spaces gives the name back |
| UsersPage.SplitJoin | src/app/users/page.tsx:66 | splitting space-free pieces joined with spaces gives the pieces back |
| UsersPage.FirstCharsAreWordStarts | src/app/users/page.tsx:66-68 | the first characters of the pieces are exactly the non-space characters that open the name or follow a space |
| UsersPage.FirstChars | src/app/users/page.tsx:67-68 | definition: `.map(word => word[0]).join('')`, where an empty piece adds nothing; its property is stated by `UsersPage.FirstCharsAreWordStarts` |
| UsersPage.UpperAll | src/app/users/page.tsx:69 | upper-casing keeps the length and maps every character |
| UsersPage.ToUpper | src/app/users/page.tsx:69 | definition: ASCII upper-casing of one character; `UsersPage.UpperAll` states its use |
| UsersPage.Take | src/app/users/page.tsx:70 | `slice(0, n)` is the prefix of length `min(n, length)` |
| UsersPage.GetInitials | src/app/users/page.tsx:64-71 | the initials have at most two characters |
| UsersPage.Initials | src/app/users/page.tsx:64-71 | the initials are the first two upper-cased word starts; empty pieces contribute nothing, and no initial is a space |
| UsersPage.EmptyAndOneWordInitials | src/app/users/page.tsx:64-71 | the empty name has no initials, and a one-word name has one initial, its upper-cased first letter |
| UsersPage.RoleColors | src/app/users/page.tsx:51-62 | admin, manager and member get three different badges; every other role, employee included, gets the gray default |
| UsersPage.RoleColor | src/app/users/page.tsx:51-62 | definition: the `switch` of `getRoleColor`; its properties are stated by `UsersPage.RoleColors` |
| UsersPage.CountRole | src/app/users/page.tsx:182 | a role count never exceeds the number of users |
| UsersPage.CountsWithinTotal | src/app/users/page.tsx:177-188 | the Admins and Members figures together never exceed Total Members |
| UsersPage.MembersCountForSchemaRoles | src/app/users/page.tsx:186-188 | with the schema's roles (admin, manager, employee), the Members figure is always zero |
| Db.Database.constructor | src/types/database.ts:4-125 | the store starts with empty tables, and its keys are valid |
| Db.Database.ClockIn | src/app/api/time/clock-in/route.ts:11-130 | the full decision tree in route order: 401, 404, 500 and 400 from the active-session check (before body validation), 500 or 400 for the body, 404 for a foreign project, 500 "Failed to start work session" when the insert fails or its id is taken; success exactly when every check passes and the insert works, with 201 and exactly the new row appended; failures change nothing; keeps unique ids and the one-open-session invariant |
| Db.Database.StartSession | src/app/api/time/clock-in/route.ts:66-115 | the project-ownership check and the insert: 404 for a named project not in the caller's organization, 500 when the insert fails, otherwise 201 with the row appended |
| Db.ClosedReport | src/app/api/time/clock-out/route.ts:90-105 | the reply's session is the found row with the new end time, and its `milliseconds` is that end time minus the start, the same end time that was written |
| Db.Database.ClockOut | src/app/api/time/clock-out/route.ts:10-105 | 401, 404, 500 on a failing lookup, 404 "No active session found" on no rows, 500 when the update fails; success exactly otherwise, setting only the found row's `end_time` to now and returning `Db.ClosedReport` of that row; failures change nothing; keeps unique ids, and under the invariant the caller has no open session afterwards |
| Db.Database.EndSession | src/app/api/time/clock-out/route.ts:62-105 | once the open session is found: 500 when the update fails and nothing changes; otherwise only that row's `end_time` is set, the closed row is in the table, and the reply is `Db.ClosedReport` of it |
| Db.Database.CreateProject | src/app/api/projects/route.ts:84-160 | keeps the store's keys valid; 401, 404, then the body's 500 or 400, then 500 when the insert fails; success appends exactly the new project with 201, and the project shows up in the caller's listing; failures change nothing |
| Db.Database.InsertProject | src/app/api/projects/route.ts:116-144 | the insert succeeds exactly when the call works, the id is fresh and the caller has an organization; success appends exactly `Projects.NewProject` with 201, failure is 500 "Failed to create project" and changes nothing |
| Db.Database.Signup | src/app/api/auth/signup/route.ts:20-227 | the reply and the three stores after the call are those of the signup specification `Signup.SignupSpec`; a failure leaves organizations and profiles unchanged |
| Db.Database.Provision | src/app/api/auth/signup/route.ts:66-212 | the steps from the account lookup on produce exactly the reply and stores of `Signup.Provision`, compensating deletes included |
| Db.ClockInThenCurrent | src/app/api/time/current-session/route.ts:34-96 | after clock-in appends the caller's open session, current-session reports exactly that row as active, timed from its start |
| Db.ClockOutThenCurrent | src/app/api/time/current-session/route.ts:55-74 | after clock-out closes the caller's only open session, current-session reports `{ session: null, isActive: false }` |
| Db.ClockInOutScenario | src/app/api/time/clock-in/route.ts:55-60 | on a fresh store: clock-in succeeds, a second clock-in is refused with the active-session conflict, and clock-out reports `t2 - t1` milliseconds and ends the session at `t2` |

## Left out

- Concurrency: the handlers are sequential, atomic steps. The race between clock-in's active-session check and its insert is not modelled.
- Floating point: the routes' `hours`, `% 1` and `Math.floor` are computed over exact reals, so binary rounding is not captured. `hourly_rate` and `budget_hours` are reals checked only for their sign.
- Negative durations: every duration property is stated for a non-negative elapsed time. The functions are total for negative counts, and the source has no guard for them either.
- `parseInt` of `limit` and `offset`: NaN and negative values are not modelled. The parameters are natural numbers, or absent.
- Date parameters: `date_from` and `date_to` are instants in milliseconds. ISO string parsing and time zones are not modelled.
- Embedded project columns: the `projects (id, name, color)` embedding of the session selects is not represented. Neither is the `message` field of clock-out's reply.
- Reply details: the `details` of every 400 "Validation error" reply (zod's `error.errors`) are not carried in the reply. The model computes the failing keys (`Projects.ProjectIssues`, `Signup.SignupIssues`, the error list of `ClockIn.ValidateClockIn`), but `Common.BodyRejection` keeps only the status and the error text.
- Other reply fields: the `details` of signup's 500 replies are not modelled. Neither is the success `message` of clock-in, project creation and signup.
- Current-session's column list omits `end_time`. The model's row keeps it, and it is always null for the reported session.
- Unrepresented columns: `updated_at`, `settings`, `timezone`, `avatar_url` and `calendar_event_id` are not read by any modelled handler.
- Ties in sorting: rows with equal `start_time` or `created_at` may come back from the database in any order. The model fixes one order and states only the descending order and the permutation.
- Profiles without an organization: `.eq('organization_id', null)` is modelled as matching nothing. The project insert for such a profile fails, because the column is NOT NULL.
- Signup `listUsers`: pagination is not modelled, and neither is a listing error that returns an empty list. A listing error is modelled as the failure that ends in 500 "Failed to check or create user account".
- Signup: the one-second `setTimeout` before the profile step is not modelled. The `!newUserData.user` branch is also left out, because a successful `createUser` always returns a user.
- Signup compensating deletes: they are assumed to succeed. Their own failures and any cascade deletes of the database are not modelled.
- Signup metadata update: its failure is silently ignored, as in the source. It replaces `organization_id` only; how the auth service merges the rest of the metadata is not modelled.
- `getInitials`: it upper-cases ASCII letters only.
- `getInitials` outside the Basic Multilingual Plane: the model's strings are sequences of Unicode scalar values, but JavaScript's `word[0]` takes one UTF-16 code unit. So for a word starting with a character outside the Basic Multilingual Plane (an emoji, say), the source's initial is a lone high surrogate, while the model's is the whole character.
- Not part of this model: the login, logout and users routes; the `useAuth` store; all page rendering; and LiveTimer's `setInterval`/`useState` ticking.
- CurrentSession.CurrentSessionFound: states the reported row and its `milliseconds`. The other duration fields follow from `WorkSessions.RunningView` and `Duration.RouteDurationFormats`.
- Db.ClockInThenCurrent: states the reported row and its `milliseconds` rather than the whole duration record, for the same reason.
- Duration.RouteDuration: its own contract states `milliseconds` only. `hours` and the two strings are stated by `Duration.RouteDurationHours` and `Duration.RouteDurationFormats`.
- LiveTimer: the timer's arithmetic is the function `TimerFields`. Its properties live in `LiveTimer.TimerFieldsAreBreakdown` and the lemmas after it.
